/**
 * API version negotiation: the explicit header, then the vendor media ranges of Accept with
 * their quality values (sections 12.4.2 and 12.5.1 of RFC 9110), then the default.
 * Quality parsing is a parameter: strconv.ParseFloat as a function from text to a number.
 */
module Versioning {

  import opened Wrappers

  // ---- Text helpers of the standard library ----

  /** strings.Split for a one-character separator. */
  function Split(s: string, sep: char): (parts: seq<string>)
    ensures parts != []
  {
    if s == "" then [""]
    else
      var rest := Split(s[1..], sep);
      if s[0] == sep then [""] + rest else [[s[0]] + rest[0]] + rest[1..]
  }

  /** unicode.IsSpace. */
  predicate IsSpace(c: char) {
    var n := c as int;
    || 9 <= n <= 13 || n == 32 || n == 0x85 || n == 0xA0 || n == 0x1680 || 0x2000 <= n <= 0x200A
    || n == 0x2028 || n == 0x2029 || n == 0x202F || n == 0x205F || n == 0x3000
  }

  function TrimLeft(s: string): (r: string) {
    if s != "" && IsSpace(s[0]) then TrimLeft(s[1..]) else s
  }

  function TrimRight(s: string): (r: string) {
    if s != "" && IsSpace(s[|s| - 1]) then TrimRight(s[..|s| - 1]) else s
  }

  function TrimSpace(s: string): (r: string) {
    TrimRight(TrimLeft(s))
  }

  function LowerChar(c: char): (r: char) {
    if 'A' <= c <= 'Z' then ((c as int) + 32) as char else c
  }

  function ToLower(s: string): (r: string)
    ensures |r| == |s|
  {
    seq(|s|, i requires 0 <= i < |s| => LowerChar(s[i]))
  }

  /** "1", "V1" and " v1 " all name "v1". */
  function NormalizeVersion(v: string): (r: string) {
    var lower := ToLower(TrimSpace(v));
    if "v" <= lower then lower else "v" + lower
  }

  // ---- Vendor media ranges ----

  const VENDOR_PREFIX := "application/vnd.oci.v"
  const VENDOR_SUFFIX := "+json"

  predicate AllDigits(s: string) {
    forall i :: 0 <= i < |s| ==> '0' <= s[i] <= '9'
  }

  /** The digits of a vendor media type, which must match from end to end. */
  function VendorDigits(mime: string): (r: Option<string>) {
    var n, m := |VENDOR_PREFIX|, |VENDOR_SUFFIX|;
    if |mime| > n + m && mime[..n] == VENDOR_PREFIX && mime[|mime| - m..] == VENDOR_SUFFIX
       && AllDigits(mime[n..|mime| - m])
    then Some(mime[n..|mime| - m]) else None
  }

  datatype Candidate = Candidate(version: string, q: real, order: nat)

  /** The q parameter: the last one that parses wins, and 1 is the default. */
  function Quality(params: seq<string>, parseQ: string -> Option<real>): (q: real) {
    if params == [] then 1.0
    else
      var param := TrimSpace(params[|params| - 1]);
      if "q=" <= ToLower(param) && parseQ(param[2..]).Some? then parseQ(param[2..]).value
      else Quality(params[..|params| - 1], parseQ)
  }

  function ReadRange(part: string, order: nat, parseQ: string -> Option<real>): (r: Option<Candidate>) {
    var elements := Split(part, ';');
    var digits := VendorDigits(TrimSpace(elements[0]));
    if digits.None? then None
    else Some(Candidate(NormalizeVersion("v" + digits.value), Quality(elements[1..], parseQ), order))
  }

  /** The vendor ranges of a split header, each with its place in the header. */
  function Candidates(parts: seq<string>, parseQ: string -> Option<real>): (r: seq<Candidate>) {
    if parts == [] then []
    else
      var n := |parts| - 1;
      var c := ReadRange(parts[n], n, parseQ);
      Candidates(parts[..n], parseQ) + if c.Some? then [c.value] else []
  }

  method ParseVendorCandidates(accept: string, parseQ: string -> Option<real>) returns (candidates: seq<Candidate>, hasVendorMime: bool)
    ensures candidates == Candidates(Split(accept, ','), parseQ)
    ensures hasVendorMime <==> candidates != []
    ensures forall ranges :: WellWritten(ranges) && accept == Header(ranges) ==> candidates == Expected(ranges, parseQ)
  {
    forall ranges | WellWritten(ranges) && accept == Header(ranges)
      ensures Candidates(Split(accept, ','), parseQ) == Expected(ranges, parseQ)
    {
      ParsesBack(ranges, parseQ);
    }
    hide WellWritten, Header, Expected;
    var parts := Split(accept, ',');
    candidates, hasVendorMime := [], false;
    for i := 0 to |parts|
      invariant candidates == Candidates(parts[..i], parseQ)
      invariant hasVendorMime <==> candidates != []
    {
      hide NormalizeVersion, VendorDigits, TrimSpace, Split;
      assert parts[..i + 1][..i] == parts[..i];
      var elements := Split(parts[i], ';');
      var digits := VendorDigits(TrimSpace(elements[0]));
      if digits.Some? {
        hasVendorMime := true;
        var q := ReadQuality(elements[1..], parseQ);
        candidates := candidates + [Candidate(NormalizeVersion("v" + digits.value), q, i)];
      }
    }
    assert parts[..|parts|] == parts;
  }

  method ReadQuality(params: seq<string>, parseQ: string -> Option<real>) returns (q: real)
    ensures q == Quality(params, parseQ)
  {
    q := 1.0;
    for i := 0 to |params|
      invariant q == Quality(params[..i], parseQ)
    {
      assert params[..i + 1][..i] == params[..i];
      var param := TrimSpace(params[i]);
      if "q=" <= ToLower(param) {
        var parsed := parseQ(param[2..]);
        if parsed.Some? {
          q := parsed.value;
        }
      }
    }
    assert params[..|params|] == params;
  }

  // ---- Reading back what a client writes ----

  /** A vendor range as written: the version's digits, perhaps a quality, and the spaces around both. */
  datatype Range = Range(before: string, digits: string, after: string, quality: Option<Written>)
  datatype Written = Written(before: string, capital: bool, text: string, after: string)

  predicate Spaces(s: string) {
    forall i :: 0 <= i < |s| ==> IsSpace(s[i])
  }

  /** No space at either end. */
  predicate Tight(s: string) {
    s != "" ==> !IsSpace(s[0]) && !IsSpace(s[|s| - 1])
  }

  predicate WellFormedRange(r: Range) {
    && Spaces(r.before) && Spaces(r.after) && r.digits != "" && AllDigits(r.digits)
    && (r.quality.Some? ==>
          var q := r.quality.value;
          && Spaces(q.before) && Spaces(q.after) && ',' !in q.text && ';' !in q.text
          && (q.text != "" ==> !IsSpace(q.text[|q.text| - 1])))
  }

  predicate WellWritten(ranges: seq<Range>) {
    ranges != [] && forall i :: 0 <= i < |ranges| ==> WellFormedRange(ranges[i])
  }

  function Media(r: Range): (s: string) {
    r.before + ("application/vnd.oci.v" + r.digits + "+json") + r.after
  }

  function QualityParam(q: Written): (s: string) {
    q.before + ((if q.capital then "Q=" else "q=") + q.text) + q.after
  }

  function WrittenRange(r: Range): (s: string) {
    if r.quality.None? then Media(r) else Media(r) + ";" + QualityParam(r.quality.value)
  }

  /** The ranges, separated by commas. */
  function Header(ranges: seq<Range>): (s: string)
    requires ranges != []
  {
    var n := |ranges| - 1;
    if n == 0 then WrittenRange(ranges[0]) else Header(ranges[..n]) + "," + WrittenRange(ranges[n])
  }

  /** What they mean: version, quality (1 if there is none or it does not parse) and place. */
  function Expected(ranges: seq<Range>, parseQ: string -> Option<real>): (r: seq<Candidate>) {
    seq(|ranges|, i requires 0 <= i < |ranges| =>
      Candidate("v" + ranges[i].digits, ExpectedQuality(ranges[i], parseQ), i))
  }

  function ExpectedQuality(r: Range, parseQ: string -> Option<real>): (q: real) {
    if r.quality.Some? && parseQ(r.quality.value.text).Some? then parseQ(r.quality.value.text).value else 1.0
  }

  lemma {:induction false} TrimLeftMeans(s: string) returns (a: string)
    ensures s == a + TrimLeft(s) && Spaces(a) && (TrimLeft(s) != "" ==> !IsSpace(TrimLeft(s)[0]))
  {
    if s != "" && IsSpace(s[0]) {
      a := TrimLeftMeans(s[1..]);
      a := [s[0]] + a;
    } else {
      a := "";
    }
  }

  lemma {:induction false} TrimRightMeans(s: string) returns (b: string)
    ensures s == TrimRight(s) + b && Spaces(b) && (TrimRight(s) != "" ==> !IsSpace(TrimRight(s)[|TrimRight(s)| - 1]))
  {
    if s != "" && IsSpace(s[|s| - 1]) {
      b := TrimRightMeans(s[..|s| - 1]);
      b := b + [s[|s| - 1]];
    } else {
      b := "";
    }
  }

  /** Trimming takes off spaces, all of them, and nothing else. */
  lemma {:induction false} TrimMeans(s: string) returns (a: string, b: string)
    ensures s == a + TrimSpace(s) + b && Spaces(a) && Spaces(b) && Tight(TrimSpace(s))
  {
    a := TrimLeftMeans(s);
    b := TrimRightMeans(TrimLeft(s));
  }

  lemma {:induction false} TrimLeftOf(a: string, core: string)
    requires Spaces(a) && (core != "" ==> !IsSpace(core[0]))
    ensures TrimLeft(a + core) == core
  {
    if a == "" {
      assert a + core == core;
    } else {
      assert (a + core)[1..] == a[1..] + core;
      TrimLeftOf(a[1..], core);
    }
  }

  lemma {:induction false} TrimRightOf(core: string, b: string)
    requires Spaces(b) && (core != "" ==> !IsSpace(core[|core| - 1]))
    ensures TrimRight(core + b) == core
  {
    if b == "" {
      assert core + b == core;
    } else {
      var n := |b| - 1;
      assert (core + b)[..|core| + n] == core + b[..n];
      TrimRightOf(core, b[..n]);
    }
  }

  /** So a tight text among spaces trims to itself. */
  lemma {:induction false} TrimOf(a: string, core: string, b: string)
    requires Spaces(a) && Spaces(b) && Tight(core) && core != ""
    ensures TrimSpace(a + core + b) == core
  {
    hide IsSpace;
    assert a + core + b == a + (core + b);
    TrimLeftOf(a, core + b);
    TrimRightOf(core, b);
  }

  lemma {:induction false} SplitWhole(s: string, sep: char)
    requires sep !in s
    ensures Split(s, sep) == [s]
  {
    if s != "" {
      SplitWhole(s[1..], sep);
      assert s == [s[0]] + s[1..];
    }
  }

  /** Digits, with or without a v of either case, among spaces: the version is "v" and the digits. */
  lemma {:induction false} NormalizeMeans(a: string, prefix: string, digits: string, b: string)
    requires Spaces(a) && Spaces(b) && prefix in {"", "v", "V"} && AllDigits(digits) && digits != ""
    ensures NormalizeVersion(a + (prefix + digits) + b) == "v" + digits
  {
    var core := prefix + digits;
    TightVersion(prefix, digits);
    LowerDigits(prefix, digits);
    hide TrimSpace, ToLower, IsSpace, Tight, Spaces;
    TrimOf(a, core, b);
    assert digits[0] != 'v';
  }

  lemma {:induction false} TightVersion(prefix: string, digits: string)
    requires prefix in {"", "v", "V"} && AllDigits(digits) && digits != ""
    ensures Tight(prefix + digits) && prefix + digits != ""
  {
    var core := prefix + digits;
    assert core[|core| - 1] == digits[|digits| - 1] && core[0] == if prefix == "" then digits[0] else prefix[0];
  }

  lemma {:induction false} LowerDigits(prefix: string, digits: string)
    requires prefix in {"", "v", "V"} && AllDigits(digits)
    ensures ToLower(prefix + digits) == (if prefix == "" then digits else "v" + digits)
  {
  }

  lemma {:induction false} DigitsOf(digits: string)
    requires AllDigits(digits) && digits != ""
    ensures VendorDigits("application/vnd.oci.v" + digits + "+json") == Some(digits)
  {
    var mime := "application/vnd.oci.v" + digits + "+json";
    assert mime[..21] == VENDOR_PREFIX && mime[|mime| - 5..] == VENDOR_SUFFIX && mime[21..|mime| - 5] == digits;
  }

  lemma {:induction false} QualityOf(q: Written, parseQ: string -> Option<real>)
    requires Spaces(q.before) && Spaces(q.after) && (q.text != "" ==> !IsSpace(q.text[|q.text| - 1]))
    ensures Quality([QualityParam(q)], parseQ) == if parseQ(q.text).Some? then parseQ(q.text).value else 1.0
  {
    var core := (if q.capital then "Q=" else "q=") + q.text;
    assert core[|core| - 1] == if q.text == "" then '=' else q.text[|q.text| - 1];
    TrimOf(q.before, core, q.after);
    hide TrimSpace;
    assert core[2..] == q.text && ToLower(core)[..2] == "q=";
    assert [QualityParam(q)][..0] == [];
  }

  /** Of several quality parameters the last that parses counts; parameters of other names never do. */
  lemma {:induction false} LastQualityCounts(params: seq<string>, q: Written, other: string, parseQ: string -> Option<real>)
    requires Spaces(q.before) && Spaces(q.after) && (q.text != "" ==> !IsSpace(q.text[|q.text| - 1]))
    requires var core := TrimSpace(other); |core| < 2 || core[0] !in {'q', 'Q'} || core[1] != '='
    ensures Quality(params + [QualityParam(q)], parseQ)
         == if parseQ(q.text).Some? then parseQ(q.text).value else Quality(params, parseQ)
    ensures Quality(params + [other], parseQ) == Quality(params, parseQ)
  {
    var core := (if q.capital then "Q=" else "q=") + q.text;
    assert core[|core| - 1] == if q.text == "" then '=' else q.text[|q.text| - 1];
    TrimOf(q.before, core, q.after);
    hide TrimSpace;
    assert core[2..] == q.text && ToLower(core)[..2] == "q=";
    assert (params + [QualityParam(q)])[..|params|] == params && (params + [other])[..|params|] == params;
    OtherName(TrimSpace(other));
  }

  lemma {:induction false} OtherName(core: string)
    requires |core| < 2 || core[0] !in {'q', 'Q'} || core[1] != '='
    ensures !("q=" <= ToLower(core))
  {
    if |core| >= 2 {
      assert ToLower(core)[0] == LowerChar(core[0]) && ToLower(core)[1] == LowerChar(core[1]);
    }
  }

  lemma {:induction false} NotInMedia(r: Range, sep: char)
    requires WellFormedRange(r) && sep in {',', ';'}
    ensures sep !in Media(r) && (r.quality.Some? ==> sep !in QualityParam(r.quality.value))
  {
    assert !IsSpace(sep);
    assert sep !in r.before && sep !in r.after && sep !in r.digits;
  }

  lemma {:induction false} MediaReads(r: Range)
    requires WellFormedRange(r)
    ensures VendorDigits(TrimSpace(Media(r))) == Some(r.digits) && NormalizeVersion("v" + r.digits) == "v" + r.digits
  {
    var core := "application/vnd.oci.v" + r.digits + "+json";
    assert Tight(core);
    hide TrimSpace, VendorDigits, NormalizeVersion, IsSpace;
    TrimOf(r.before, core, r.after);
    DigitsOf(r.digits);
    NormalizeMeans("", "v", r.digits, "");
    assert "" + ("v" + r.digits) + "" == "v" + r.digits;
  }

  /** The range's text comes apart at its semicolon. */
  lemma {:induction false} RangeSplits(r: Range)
    requires WellFormedRange(r)
    ensures Split(WrittenRange(r), ';') == [Media(r)] + if r.quality.Some? then [QualityParam(r.quality.value)] else []
  {
    NotInMedia(r, ';');
    hide Split, Media, QualityParam;
    SplitWhole(Media(r), ';');
    if r.quality.Some? {
      SplitWhole(QualityParam(r.quality.value), ';');
      SplitJoin(Media(r), QualityParam(r.quality.value), ';');
    }
  }

  lemma {:induction false} RangeReadsBack(r: Range, order: nat, parseQ: string -> Option<real>)
    requires WellFormedRange(r)
    ensures ReadRange(WrittenRange(r), order, parseQ) == Some(Candidate("v" + r.digits, ExpectedQuality(r, parseQ), order))
  {
    MediaReads(r);
    RangeSplits(r);
    if r.quality.Some? {
      QualityOf(r.quality.value, parseQ);
    }
    hide Split, WrittenRange, Media, QualityParam, TrimSpace, VendorDigits, NormalizeVersion;
    var params := Split(WrittenRange(r), ';')[1..];
    assert params == if r.quality.Some? then [QualityParam(r.quality.value)] else [];
  }

  function Parts(ranges: seq<Range>): (r: seq<string>) {
    seq(|ranges|, i requires 0 <= i < |ranges| => WrittenRange(ranges[i]))
  }

  lemma {:induction false} PartsSnoc(ranges: seq<Range>, n: nat)
    requires |ranges| == n + 1
    ensures Parts(ranges) == Parts(ranges[..n]) + [WrittenRange(ranges[n])]
  {
    hide WrittenRange;
  }

  lemma {:induction false} NoComma(r: Range)
    requires WellFormedRange(r)
    ensures Split(WrittenRange(r), ',') == [WrittenRange(r)]
  {
    NotInMedia(r, ',');
    hide Media, QualityParam;
    SplitWhole(WrittenRange(r), ',');
  }

  lemma {:induction false} HeaderSplits(ranges: seq<Range>)
    requires WellWritten(ranges)
    ensures Split(Header(ranges), ',') == Parts(ranges)
    decreases |ranges|
  {
    hide Split, WrittenRange, WellFormedRange, Parts;
    var n := |ranges| - 1;
    NoComma(ranges[n]);
    PartsSnoc(ranges, n);
    if n > 0 {
      HeaderSplits(ranges[..n]);
      SplitJoin(Header(ranges[..n]), WrittenRange(ranges[n]), ',');
    } else {
      NoParts(ranges[..0]);
    }
  }

  lemma {:induction false} NoParts(ranges: seq<Range>)
    requires ranges == []
    ensures Parts(ranges) == []
  {
  }

  lemma {:induction false} CandidatesAre(parts: seq<string>, ranges: seq<Range>, parseQ: string -> Option<real>)
    requires |parts| == |ranges|
    requires forall i :: 0 <= i < |ranges| ==> WellFormedRange(ranges[i]) && parts[i] == WrittenRange(ranges[i])
    ensures Candidates(parts, parseQ) == Expected(ranges, parseQ)
    decreases |parts|
  {
    hide ReadRange, WrittenRange, WellFormedRange, ExpectedQuality, Expected;
    if parts != [] {
      var n := |parts| - 1;
      CandidatesAre(parts[..n], ranges[..n], parseQ);
      RangeReadsBack(ranges[n], n, parseQ);
      ExpectedSnoc(ranges, n, parseQ);
    } else {
      ExpectedNone(ranges, parseQ);
    }
  }

  lemma {:induction false} ExpectedSnoc(ranges: seq<Range>, n: nat, parseQ: string -> Option<real>)
    requires |ranges| == n + 1
    ensures Expected(ranges, parseQ)
         == Expected(ranges[..n], parseQ) + [Candidate("v" + ranges[n].digits, ExpectedQuality(ranges[n], parseQ), n)]
  {
    hide ExpectedQuality;
  }

  lemma {:induction false} ExpectedNone(ranges: seq<Range>, parseQ: string -> Option<real>)
    requires ranges == []
    ensures Expected(ranges, parseQ) == []
  {
  }

  /** A header written from vendor ranges is read as exactly those versions, qualities and places. */
  lemma {:induction false} ParsesBack(ranges: seq<Range>, parseQ: string -> Option<real>)
    requires WellWritten(ranges)
    ensures Candidates(Split(Header(ranges), ','), parseQ) == Expected(ranges, parseQ)
  {
    HeaderSplits(ranges);
    CandidatesAre(Split(Header(ranges), ','), ranges, parseQ);
  }

  /** Among ASCII characters the spaces are tab to carriage return and the blank; capitals lower by 32. */
  lemma {:induction false} CharactersMean(c: char)
    requires c as int < 128
    ensures IsSpace(c) <==> c in {' ', '\t', '\n', '\r', '\U{0B}', '\U{0C}'}
    ensures LowerChar(c) as int == if 65 <= c as int <= 90 then c as int + 32 else c as int
  {
  }

  // ---- Choosing a candidate ----

  /** The sort's order: higher quality first, then earlier in the header. */
  predicate Before(c: Candidate, d: Candidate) {
    if c.q != d.q then c.q > d.q else c.order < d.order
  }

  function Insert(c: Candidate, s: seq<Candidate>): (r: seq<Candidate>) {
    if s == [] then [c]
    else if Before(c, s[0]) then [c] + s
    else [s[0]] + Insert(c, s[1..])
  }

  /** A stable sort. */
  function StableSort(s: seq<Candidate>): (r: seq<Candidate>) {
    if s == [] then [] else Insert(s[|s| - 1], StableSort(s[..|s| - 1]))
  }

  ghost predicate Sorted(s: seq<Candidate>) {
    forall i, j :: 0 <= i < j < |s| ==> !Before(s[j], s[i])
  }

  lemma {:induction false} SortedCons(c: Candidate, s: seq<Candidate>)
    requires Sorted(s) && forall d :: d in s ==> !Before(d, c)
    ensures Sorted([c] + s)
  {
    hide Before;
    var r := [c] + s;
    forall i, j | 0 <= i < j < |r| ensures !Before(r[j], r[i]) {
      assert r[j] == s[j - 1] && r[j] in s;
      assert i > 0 ==> r[i] == s[i - 1];
    }
  }

  lemma {:induction false} InsertMembers(c: Candidate, s: seq<Candidate>)
    ensures multiset(Insert(c, s)) == multiset(s) + multiset{c}
  {
    hide Before;
    if s != [] {
      assert s == [s[0]] + s[1..];
      InsertMembers(c, s[1..]);
    }
  }

  lemma {:induction false} NotBeforeAny(c: Candidate, s: seq<Candidate>)
    requires Sorted(s) && s != [] && Before(c, s[0])
    ensures forall d :: d in s ==> !Before(d, c)
  {
    forall d | d in s ensures !Before(d, c) {
      var j :| 0 <= j < |s| && s[j] == d;
      assert j > 0 ==> !Before(s[j], s[0]);
    }
  }

  lemma {:induction false} InsertSorted(c: Candidate, s: seq<Candidate>)
    requires Sorted(s)
    ensures Sorted(Insert(c, s)) && multiset(Insert(c, s)) == multiset(s) + multiset{c}
  {
    InsertMembers(c, s);
    if s != [] {
      if Before(c, s[0]) {
        NotBeforeAny(c, s);
        SortedCons(c, s);
      } else {
        hide Before;
        InsertSorted(c, s[1..]);
        var r := Insert(c, s[1..]);
        forall d | d in r ensures !Before(d, s[0]) {
          assert d in multiset(r);
          assert d == c || d in s[1..];
        }
        SortedCons(s[0], r);
      }
    }
  }

  lemma {:induction false} StableSortSorts(s: seq<Candidate>)
    ensures Sorted(StableSort(s)) && multiset(StableSort(s)) == multiset(s)
  {
    if s != [] {
      StableSortSorts(s[..|s| - 1]);
      hide Insert, Before, Sorted;
      InsertSorted(s[|s| - 1], StableSort(s[..|s| - 1]));
      assert s == s[..|s| - 1] + [s[|s| - 1]];
    }
  }

  predicate Eligible(c: Candidate, supported: set<string>) {
    c.q > 0.0 && c.version in supported
  }

  /** The first eligible candidate of a sorted list; failing that, its head as rejected. */
  function FirstEligible(sorted: seq<Candidate>, supported: set<string>): (r: Option<Candidate>) {
    if sorted == [] then None
    else if Eligible(sorted[0], supported) then Some(sorted[0])
    else FirstEligible(sorted[1..], supported)
  }

  function SelectVersion(candidates: seq<Candidate>, supported: set<string>): (r: (string, bool)) {
    var sorted := StableSort(candidates);
    var best := FirstEligible(sorted, supported);
    if best.Some? then (best.value.version, true)
    else (if sorted != [] then sorted[0].version else "", false)
  }

  method SelectVersionCandidate(candidates: seq<Candidate>, supported: set<string>) returns (version: string, ok: bool)
    ensures (version, ok) == SelectVersion(candidates, supported)
  {
    var sorted := StableSort(candidates);
    for i := 0 to |sorted|
      invariant FirstEligible(sorted, supported) == FirstEligible(sorted[i..], supported)
    {
      if sorted[i].q > 0.0 && sorted[i].version in supported {
        return sorted[i].version, true;
      }
    }
    version, ok := "", false;
    if |sorted| > 0 {
      version := sorted[0].version;
    }
  }

  /** c precedes every other candidate that satisfies the condition. */
  ghost predicate Leads(c: Candidate, candidates: seq<Candidate>, among: Candidate -> bool) {
    c in candidates && among(c) && forall d :: d in candidates && among(d) && d != c ==> Before(c, d)
  }

  ghost predicate InHeaderOrder(candidates: seq<Candidate>) {
    forall i, j :: 0 <= i < j < |candidates| ==> candidates[i].order < candidates[j].order
  }

  lemma {:induction false} FirstEligibleLeads(sorted: seq<Candidate>, supported: set<string>)
    requires Sorted(sorted)
    ensures match FirstEligible(sorted, supported)
            case None => forall c :: c in sorted ==> !Eligible(c, supported)
            case Some(c) => c in sorted && Eligible(c, supported)
                            && forall d :: d in sorted && Eligible(d, supported) ==> !Before(d, c)
  {
    if sorted != [] && !Eligible(sorted[0], supported) {
      FirstEligibleLeads(sorted[1..], supported);
      assert sorted == [sorted[0]] + sorted[1..];
    }
  }

  lemma {:induction false} DistinctOrders(candidates: seq<Candidate>, c: Candidate, d: Candidate)
    requires InHeaderOrder(candidates) && c in candidates && d in candidates && c != d
    ensures c.order != d.order
  {
    var i :| 0 <= i < |candidates| && candidates[i] == c;
    var j :| 0 <= j < |candidates| && candidates[j] == d;
    assert i != j;
  }

  /**
   * The sort and scan picks the supported candidate with the greatest positive quality, the
   * earliest in the header on ties; it rejects exactly when there is none, naming then the
   * candidate that leads overall.
   */
  lemma {:induction false} SelectIsBest(candidates: seq<Candidate>, supported: set<string>) returns (winner: Candidate)
    requires InHeaderOrder(candidates) && candidates != []
    ensures SelectVersion(candidates, supported).1 <==> exists c :: c in candidates && Eligible(c, supported)
    ensures SelectVersion(candidates, supported).0 == winner.version
    ensures Leads(winner, candidates, c => SelectVersion(candidates, supported).1 ==> Eligible(c, supported))
  {
    hide Before, Eligible;
    var sorted := StableSort(candidates);
    StableSortSorts(candidates);
    assert forall c :: c in sorted <==> c in multiset(sorted);
    FirstEligibleLeads(sorted, supported);
    assert sorted != [] by { assert |multiset(sorted)| == |multiset(candidates)|; }
    var best := FirstEligible(sorted, supported);
    winner := if best.Some? then best.value else sorted[0];
    assert winner in multiset(sorted);
    forall d | d in candidates && (best.Some? ==> Eligible(d, supported)) && d != winner ensures Before(winner, d) {
      assert d in multiset(candidates) && d in sorted;
      DistinctOrders(candidates, winner, d);
      Trichotomy(winner, d);
    }
  }

  lemma {:induction false} Trichotomy(c: Candidate, d: Candidate)
    requires c.order != d.order
    ensures Before(c, d) || Before(d, c)
  {
  }

  lemma {:induction false} CandidatesInOrder(parts: seq<string>, parseQ: string -> Option<real>)
    ensures InHeaderOrder(Candidates(parts, parseQ))
    ensures forall c :: c in Candidates(parts, parseQ) ==> c.order < |parts|
  {
    hide ReadRange;
    if parts != [] {
      var n := |parts| - 1;
      CandidatesInOrder(parts[..n], parseQ);
      RangeOrder(parts[n], n, parseQ);
    }
  }

  lemma {:induction false} RangeOrder(part: string, order: nat, parseQ: string -> Option<real>)
    ensures ReadRange(part, order, parseQ).Some? ==> ReadRange(part, order, parseQ).value.order == order
  {
  }

  // ---- Negotiation ----

  datatype Config = Config(defaultVersion: string, supportedVersions: seq<string>)

  function DefaultVersion(cfg: Config): (r: string) {
    NormalizeVersion(if cfg.defaultVersion == "" then "v1" else cfg.defaultVersion)
  }

  function Supported(cfg: Config): (r: set<string>) {
    var versions := if cfg.supportedVersions == [] then ["v1"] else cfg.supportedVersions;
    set v | v in versions :: NormalizeVersion(v)
  }

  /** An empty configuration defaults to, and supports, exactly "v1". */
  lemma {:induction false} DefaultsMean()
    ensures DefaultVersion(Config("", [])) == "v1" && Supported(Config("", [])) == {"v1"}
  {
    hide NormalizeVersion;
    NormalizeMeans("", "v", "1", "");
    assert "" + ("v" + "1") + "" == "v1" == "v" + "1";
  }

  /** The outcome of the Accept header alone; an empty header falls back to the default. */
  function FromAccept(accept: string, cfg: Config, parseQ: string -> Option<real>): (r: (string, bool)) {
    var candidates := if accept == "" then [] else Candidates(Split(accept, ','), parseQ);
    if candidates != [] then SelectVersion(candidates, Supported(cfg))
    else (DefaultVersion(cfg), DefaultVersion(cfg) in Supported(cfg))
  }

  method NegotiateVersion(header: string, accept: string, cfg: Config, parseQ: string -> Option<real>) returns (version: string, ok: bool)
    ensures TrimSpace(header) != "" ==>
              version == NormalizeVersion(TrimSpace(header)) && (ok <==> version in Supported(cfg))
    ensures TrimSpace(header) == "" ==> (version, ok) == FromAccept(accept, cfg, parseQ)
  {
    hide NormalizeVersion, TrimSpace, Candidates, SelectVersion;
    var v := TrimSpace(header);
    if v != "" {
      version := NormalizeVersion(v);
      return version, version in Supported(cfg);
    }
    if accept != "" {
      var candidates, hasVendorMime := ParseVendorCandidates(accept, parseQ);
      if hasVendorMime {
        version, ok := SelectVersionCandidate(candidates, Supported(cfg));
        return;
      }
    }
    version := DefaultVersion(cfg);
    ok := version in Supported(cfg);
  }

  /**
   * Accept negotiation picks the supported vendor range of greatest positive quality, the
   * earliest on ties, and rejects exactly when a vendor range is present and none qualifies.
   */
  lemma {:induction false} AcceptIsBest(accept: string, cfg: Config, parseQ: string -> Option<real>)
    requires accept != "" && Candidates(Split(accept, ','), parseQ) != []
    ensures var candidates := Candidates(Split(accept, ','), parseQ);
            var (version, ok) := FromAccept(accept, cfg, parseQ);
            && (ok <==> exists c :: c in candidates && Eligible(c, Supported(cfg)))
            && (exists c :: c in candidates && c.version == version
                            && Leads(c, candidates, d => ok ==> Eligible(d, Supported(cfg))))
  {
    hide Candidates, SelectVersion, Supported, Eligible;
    var candidates := Candidates(Split(accept, ','), parseQ);
    CandidatesInOrder(Split(accept, ','), parseQ);
    var supported := Supported(cfg);
    var winner := SelectIsBest(candidates, supported);
    var ok := FromAccept(accept, cfg, parseQ).1;
    assert Leads(winner, candidates, d => ok ==> Eligible(d, supported));
  }

  // ---- Media ranges of other types do not matter ----

  lemma {:induction false} SplitHead(c: char, rest: string, sep: char)
    ensures Split([c] + rest, sep)
         == if c == sep then [""] + Split(rest, sep) else [[c] + Split(rest, sep)[0]] + Split(rest, sep)[1..]
  {
    assert ([c] + rest)[1..] == rest;
  }

  lemma {:induction false} SplitJoin(a: string, b: string, sep: char)
    ensures Split(a + [sep] + b, sep) == Split(a, sep) + Split(b, sep)
  {
    if a == "" {
      assert a + [sep] + b == [sep] + b;
      SplitHead(sep, b, sep);
    } else {
      SplitJoin(a[1..], b, sep);
      hide Split;
      assert a + [sep] + b == [a[0]] + (a[1..] + [sep] + b);
      assert a == [a[0]] + a[1..];
      SplitJoinStep(a[0], a[1..], a[1..] + [sep] + b, b, sep);
    }
  }

  lemma {:induction false} SplitJoinStep(c: char, a: string, ab: string, b: string, sep: char)
    requires Split(ab, sep) == Split(a, sep) + Split(b, sep)
    ensures Split([c] + ab, sep) == Split([c] + a, sep) + Split(b, sep)
  {
    hide Split;
    SplitHead(c, ab, sep);
    SplitHead(c, a, sep);
  }

  function Renumber(c: Candidate, at: nat, shift: nat): (r: Candidate) {
    if c.order < at then c else c.(order := c.order + shift)
  }

  function RenumberAll(s: seq<Candidate>, at: nat, shift: nat): (r: seq<Candidate>)
    ensures |r| == |s|
  {
    if s == [] then [] else RenumberAll(s[..|s| - 1], at, shift) + [Renumber(s[|s| - 1], at, shift)]
  }

  lemma {:induction false} RenumberAt(s: seq<Candidate>, at: nat, shift: nat)
    ensures forall i :: 0 <= i < |s| ==> RenumberAll(s, at, shift)[i] == Renumber(s[i], at, shift)
  {
    if s != [] {
      RenumberAt(s[..|s| - 1], at, shift);
    }
  }

  lemma {:induction false} RenumberCons(c: Candidate, s: seq<Candidate>, at: nat, shift: nat)
    ensures RenumberAll([c] + s, at, shift) == [Renumber(c, at, shift)] + RenumberAll(s, at, shift)
  {
    if s == [] {
      assert [c] + s == [c];
    } else {
      var n := |s| - 1;
      assert ([c] + s)[..n + 1] == [c] + s[..n] && ([c] + s)[n + 1] == s[n];
      RenumberCons(c, s[..n], at, shift);
    }
  }

  lemma {:induction false} RenumberSlices(s: seq<Candidate>, at: nat, shift: nat)
    requires s != []
    ensures RenumberAll(s, at, shift)[1..] == RenumberAll(s[1..], at, shift)
    ensures RenumberAll(s, at, shift)[0] == Renumber(s[0], at, shift)
  {
    hide RenumberAll;
    assert s == [s[0]] + s[1..];
    RenumberCons(s[0], s[1..], at, shift);
  }

  lemma {:induction false} InsertRenumbers(c: Candidate, s: seq<Candidate>, at: nat, shift: nat)
    ensures Insert(Renumber(c, at, shift), RenumberAll(s, at, shift)) == RenumberAll(Insert(c, s), at, shift)
  {
    if s == [] {
      RenumberAt([c], at, shift);
    } else {
      RenumberSlices(s, at, shift);
      hide RenumberAll;
      if Before(c, s[0]) {
        RenumberCons(c, s, at, shift);
      } else {
        InsertRenumbers(c, s[1..], at, shift);
        RenumberCons(s[0], Insert(c, s[1..]), at, shift);
      }
    }
  }

  lemma {:induction false} SortRenumbers(s: seq<Candidate>, at: nat, shift: nat)
    ensures StableSort(RenumberAll(s, at, shift)) == RenumberAll(StableSort(s), at, shift)
  {
    if s != [] {
      var rest := s[..|s| - 1];
      SortRenumbers(rest, at, shift);
      InsertRenumbers(s[|s| - 1], StableSort(rest), at, shift);
      assert RenumberAll(s, at, shift)[..|s| - 1] == RenumberAll(rest, at, shift);
    }
  }

  lemma {:induction false} FirstEligibleRenumbers(s: seq<Candidate>, supported: set<string>, at: nat, shift: nat)
    ensures var f, g := FirstEligible(RenumberAll(s, at, shift), supported), FirstEligible(s, supported);
            (f.Some? <==> g.Some?) && (f.Some? ==> f.value.version == g.value.version)
  {
    if s != [] {
      RenumberSlices(s, at, shift);
      FirstEligibleRenumbers(s[1..], supported, at, shift);
    }
  }

  lemma {:induction false} SelectRenumbers(s: seq<Candidate>, supported: set<string>, at: nat, shift: nat)
    ensures SelectVersion(RenumberAll(s, at, shift), supported) == SelectVersion(s, supported)
  {
    SortRenumbers(s, at, shift);
    FirstEligibleRenumbers(StableSort(s), supported, at, shift);
    if StableSort(s) != [] {
      RenumberSlices(StableSort(s), at, shift);
    }
  }

  ghost predicate NoVendor(parts: seq<string>, parseQ: string -> Option<real>) {
    forall i :: 0 <= i < |parts| ==> ReadRange(parts[i], 0, parseQ).None?
  }

  lemma {:induction false} RangeRenumbers(part: string, order: nat, parseQ: string -> Option<real>, at: nat, shift: nat)
    ensures ReadRange(part, 0, parseQ).None? <==> ReadRange(part, order, parseQ).None?
    ensures ReadRange(part, order, parseQ).Some? && order >= at ==>
              ReadRange(part, order + shift, parseQ) == Some(Renumber(ReadRange(part, order, parseQ).value, at, shift))
  {
  }

  lemma {:induction false} CandidatesSnoc(parts: seq<string>, part: string, parseQ: string -> Option<real>)
    ensures var c := ReadRange(part, |parts|, parseQ);
            Candidates(parts + [part], parseQ) == Candidates(parts, parseQ) + if c.Some? then [c.value] else []
  {
    assert (parts + [part])[..|parts|] == parts;
  }

  lemma {:induction false} RenumberSnoc(s: seq<Candidate>, c: Candidate, at: nat, shift: nat)
    ensures RenumberAll(s + [c], at, shift) == RenumberAll(s, at, shift) + [Renumber(c, at, shift)]
  {
    assert (s + [c])[..|s|] == s;
  }

  /** Parts without vendor ranges only shift the places of those after them. */
  lemma {:induction false} CandidatesShift(a: seq<string>, x: seq<string>, b: seq<string>, parseQ: string -> Option<real>)
    requires NoVendor(x, parseQ)
    ensures Candidates(a + x + b, parseQ) == RenumberAll(Candidates(a + b, parseQ), |a|, |x|)
    decreases |b|, |x|
  {
    hide ReadRange, Candidates, RenumberAll;
    if b != [] {
      var n := |b| - 1;
      var rest, part := b[..n], b[n];
      CandidatesShift(a, x, rest, parseQ);
      assert a + x + b == (a + x + rest) + [part] && a + b == (a + rest) + [part];
      RangeRenumbers(part, |a| + n, parseQ, |a|, |x|);
      CandidatesSnoc(a + x + rest, part, parseQ);
      CandidatesSnoc(a + rest, part, parseQ);
      var c := ReadRange(part, |a| + n, parseQ);
      if c.Some? {
        RenumberSnoc(Candidates(a + rest, parseQ), c.value, |a|, |x|);
      } else {
        RangeRenumbers(part, |a| + |x| + n, parseQ, 0, 0);
        assert Candidates(a + rest, parseQ) + [] == Candidates(a + rest, parseQ);
        assert Candidates(a + x + rest, parseQ) + [] == Candidates(a + x + rest, parseQ);
      }
    } else {
      assert a + b == a + [];
      SameNumbers(Candidates(a + [], parseQ), |a|, |x|, |x| - 1, a, parseQ);
      if x != [] {
        var n := |x| - 1;
        CandidatesShift(a, x[..n], [], parseQ);
        assert a + x + b == (a + x[..n] + []) + [x[n]];
        CandidatesSnoc(a + x[..n] + [], x[n], parseQ);
        RangeRenumbers(x[n], |a| + n, parseQ, 0, 0);
      } else {
        assert a + x + b == a + b;
      }
    }
  }

  /** Candidates of a come before position |a|, so no shift reaches them. */
  lemma {:induction false} SameNumbers(s: seq<Candidate>, at: nat, shift: nat, shift': int, a: seq<string>, parseQ: string -> Option<real>)
    requires s == Candidates(a + [], parseQ) && at == |a|
    ensures RenumberAll(s, at, shift) == s
    ensures shift' >= 0 ==> RenumberAll(s, at, shift') == s
  {
    assert a + [] == a;
    CandidatesInOrder(a, parseQ);
    RenumberAt(s, at, shift);
    if shift' >= 0 {
      RenumberAt(s, at, shift');
    }
    assert forall i :: 0 <= i < |s| ==> s[i] in s;
  }

  /** Inserting ranges of other media types between two parts of a header never changes the outcome. */
  lemma {:induction false} OtherRangesDoNotMatter(a: string, x: string, b: string, cfg: Config, parseQ: string -> Option<real>)
    requires NoVendor(Split(x, ','), parseQ)
    ensures FromAccept(a + "," + x + "," + b, cfg, parseQ) == FromAccept(a + "," + b, cfg, parseQ)
    ensures FromAccept(x + "," + b, cfg, parseQ) == FromAccept(b, cfg, parseQ)
    ensures FromAccept(a + "," + x, cfg, parseQ) == FromAccept(a, cfg, parseQ)
  {
    hide SelectVersion, DefaultVersion, Supported, Split, Candidates;
    var pa, px, pb := Split(a, ','), Split(x, ','), Split(b, ',');
    SplitJoin(a, b, ',');
    SplitJoin(x, b, ',');
    SplitJoin(a, x, ',');
    SplitJoin(a + "," + x, b, ',');
    CandidatesShift(pa, px, pb, parseQ);
    CandidatesShift([], px, pb, parseQ);
    CandidatesShift(pa, px, [], parseQ);
    assert [] + px + pb == px + pb && [] + pb == pb && pa + px + [] == pa + px && pa + [] == pa;
    SelectRenumbers(Candidates(pa + pb, parseQ), Supported(cfg), |pa|, |px|);
    SelectRenumbers(Candidates(pb, parseQ), Supported(cfg), 0, |px|);
    SelectRenumbers(Candidates(pa, parseQ), Supported(cfg), |pa|, |px|);
    EmptyHeader(parseQ);
  }

  lemma {:induction false} EmptyHeader(parseQ: string -> Option<real>)
    ensures Candidates(Split("", ','), parseQ) == []
  {
    var parts := Split("", ',');
    assert Split(parts[0], ';') == [""];
    assert parts[..0] == [];
    assert Candidates(parts, parseQ) == Candidates(parts[..0], parseQ);
  }
}
