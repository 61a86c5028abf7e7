/**
 * The PDF 1.4 writer: byte offsets of the objects, the stream length, the cross-reference
 * table and the trailer, against a reader that follows sections 7.3.8, 7.5.4 and 7.5.5 of
 * ISO 32000-1.
 */
module PdfFiles {
  import opened Wrappers

  newtype byte = x: int | 0 <= x < 256

  const SPACE: byte := 32
  const NEWLINE: byte := 10

  /** The bytes of a literal; characters up to U+00FF stand for themselves. */
  function Ascii(s: string): (r: seq<byte>)
    ensures |r| == |s|
  {
    seq(|s|, i requires 0 <= i < |s| => (s[i] as int % 256) as byte)
  }

  // ---- Decimal numerals ----

  predicate IsDigit(b: byte) {
    48 <= b <= 57
  }

  predicate AllDigits(s: seq<byte>) {
    forall i :: 0 <= i < |s| ==> IsDigit(s[i])
  }

  /** The %d rendering. */
  function Decimal(n: nat): (r: seq<byte>)
    ensures r != [] && AllDigits(r)
  {
    if n < 10 then [(48 + n) as byte] else Decimal(n / 10) + [(48 + n % 10) as byte]
  }

  /** The value of a digit string. */
  function Value(s: seq<byte>): (r: nat)
    requires AllDigits(s)
  {
    if s == [] then 0 else Value(s[..|s| - 1]) * 10 + (s[|s| - 1] - 48) as nat
  }

  lemma {:induction false} ValueDecimal(n: nat)
    ensures Value(Decimal(n)) == n
  {
    var d := Decimal(n);
    if n < 10 {
      assert d[..0] == [];
    } else {
      ValueDecimal(n / 10);
      assert d[..|d| - 1] == Decimal(n / 10);
    }
  }

  function Zeros(n: nat): (r: seq<byte>)
    ensures |r| == n && AllDigits(r)
  {
    seq(n, _ => 48)
  }

  /** The %010d rendering: zero-padded to ten digits, longer if it must be. */
  function Padded(n: nat): (r: seq<byte>)
    ensures AllDigits(r) && |r| >= 10
  {
    var d := Decimal(n);
    if |d| >= 10 then d else Zeros(10 - |d|) + d
  }

  lemma {:induction false} ValueZeros(k: nat, s: seq<byte>)
    requires AllDigits(s)
    ensures AllDigits(Zeros(k) + s) && Value(Zeros(k) + s) == Value(s)
    decreases k + |s|
  {
    var z := Zeros(k) + s;
    if s == [] {
      assert z == Zeros(k);
      if k > 0 {
        assert Zeros(k)[..k - 1] == Zeros(k - 1) + [];
        ValueZeros(k - 1, []);
      }
    } else {
      assert z[..|z| - 1] == Zeros(k) + s[..|s| - 1];
      ValueZeros(k, s[..|s| - 1]);
    }
  }

  lemma {:induction false} ValuePadded(n: nat)
    ensures Value(Padded(n)) == n
  {
    var d := Decimal(n);
    ValueDecimal(n);
    if |d| < 10 {
      ValueZeros(10 - |d|, d);
    }
  }

  function Power10(k: nat): (r: nat)
    ensures r >= 1
  {
    if k == 0 then 1 else 10 * Power10(k - 1)
  }

  lemma {:induction false} DecimalLength(n: nat, k: nat)
    requires k >= 1
    ensures |Decimal(n)| <= k <==> n < Power10(k)
    decreases k
  {
    if n >= 10 {
      if k > 1 {
        DecimalLength(n / 10, k - 1);
      } else {
        assert Power10(1) == 10 * Power10(0);
      }
    }
  }

  // ---- Looking into a document ----

  predicate At(doc: seq<byte>, p: int, s: seq<byte>) {
    0 <= p && p + |s| <= |doc| && doc[p..p + |s|] == s
  }

  lemma {:induction false} SliceOfSlice(s: seq<byte>, p: nat, q: nat, i: nat, j: nat)
    requires p <= q <= |s| && i <= j <= q - p
    ensures s[p..q][i..j] == s[p + i..p + j]
  {
    var inner, direct := s[p..q][i..j], s[p + i..p + j];
    forall k | 0 <= k < j - i ensures inner[k] == direct[k] {
      assert inner[k] == s[p..q][i + k] == s[p + (i + k)];
    }
  }

  lemma {:induction false} AtSlice(doc: seq<byte>, p: nat, s: seq<byte>)
    requires At(doc, p, s)
    ensures p + |s| <= |doc| && doc[p..p + |s|] == s
  {
  }

  lemma {:induction false} AtConcat(a: seq<byte>, s: seq<byte>, b: seq<byte>)
    ensures At(a + s + b, |a|, s)
  {
  }

  lemma {:induction false} AtWithin(doc: seq<byte>, p: int, a: seq<byte>, s: seq<byte>, b: seq<byte>)
    requires At(doc, p, a + s + b)
    ensures At(doc, p + |a|, s)
  {
    var all := a + s + b;
    SliceOfSlice(doc, p, p + |all|, |a|, |a| + |s|);
    assert all[|a|..|a| + |s|] == s;
  }

  /** The end of the run of digits that starts at p. */
  function DigitsEnd(doc: seq<byte>, p: nat): (e: nat)
    requires p <= |doc|
    ensures p <= e <= |doc| && AllDigits(doc[p..e])
    ensures e < |doc| ==> !IsDigit(doc[e])
    decreases |doc| - p
  {
    if p < |doc| && IsDigit(doc[p]) then
      var e := DigitsEnd(doc, p + 1);
      assert doc[p..e] == [doc[p]] + doc[p + 1..e];
      e
    else p
  }

  /** The start of the run of digits that ends just before e. */
  function DigitsStart(doc: seq<byte>, e: nat): (p: nat)
    requires e <= |doc|
    ensures p <= e && AllDigits(doc[p..e])
    ensures p > 0 ==> !IsDigit(doc[p - 1])
  {
    if e > 0 && IsDigit(doc[e - 1]) then
      var p := DigitsStart(doc, e - 1);
      assert doc[p..e] == doc[p..e - 1] + [doc[e - 1]];
      p
    else e
  }

  /** The unsigned integer at p and the position after it. */
  function NumberAt(doc: seq<byte>, p: nat): (r: Option<(nat, nat)>) {
    if p >= |doc| || !IsDigit(doc[p]) then None
    else var e := DigitsEnd(doc, p); Some((Value(doc[p..e]), e))
  }

  lemma {:induction false} DigitsEndUnique(doc: seq<byte>, p: nat, e: nat)
    requires p <= e < |doc| && AllDigits(doc[p..e]) && !IsDigit(doc[e])
    ensures DigitsEnd(doc, p) == e
  {
    var f := DigitsEnd(doc, p);
    assert forall i :: p <= i < f ==> doc[i] == doc[p..f][i - p];
    assert forall i :: p <= i < e ==> doc[i] == doc[p..e][i - p];
  }

  lemma {:induction false} DigitsStartUnique(doc: seq<byte>, p: nat, e: nat)
    requires 0 < p <= e <= |doc| && AllDigits(doc[p..e]) && !IsDigit(doc[p - 1])
    ensures DigitsStart(doc, e) == p
  {
    var q := DigitsStart(doc, e);
    assert forall i :: p <= i < e ==> doc[i] == doc[p..e][i - p];
    assert forall i :: q <= i < e ==> doc[i] == doc[q..e][i - q];
  }

  lemma {:induction false} NumberAtDecimal(doc: seq<byte>, p: nat, n: nat)
    requires At(doc, p, Decimal(n))
    requires p + |Decimal(n)| < |doc| && !IsDigit(doc[p + |Decimal(n)|])
    ensures NumberAt(doc, p) == Some((n, p + |Decimal(n)|))
  {
    var d := Decimal(n);
    assert doc[p] == doc[p..p + |d|][0] == d[0];
    DigitsEndUnique(doc, p, p + |d|);
    ValueDecimal(n);
  }

  // ---- The reader ----

  const XREF := Ascii("xref\n")
  const STARTXREF := Ascii("startxref\n")
  const EOF_MARK := Ascii("\n%%EOF\n")
  const LENGTH_DICT := Ascii("\n<< /Length ")
  const STREAM := Ascii(" >>\nstream\n")
  const ENDSTREAM := Ascii("\nendstream\nendobj\n")

  function ObjectHeader(n: nat): (r: seq<byte>) {
    Decimal(n) + Ascii(" 0 obj")
  }

  /** Section 7.5.5: the offset between the startxref keyword and the end-of-file marker. */
  function ReadStartXref(doc: seq<byte>): (r: Option<nat>) {
    if !At(doc, |doc| - |EOF_MARK|, EOF_MARK) then None
    else
      var e := |doc| - |EOF_MARK|;
      var p := DigitsStart(doc, e);
      if p < e && At(doc, p - |STARTXREF|, STARTXREF) then Some(Value(doc[p..e])) else None
  }

  /** Section 7.5.4: one 20-byte in-use entry: ten digits, a space, a generation, n, end of line. */
  function ReadEntry(doc: seq<byte>, p: nat): (r: Option<nat>) {
    if && p + 20 <= |doc|
       && AllDigits(doc[p..p + 10]) && doc[p + 10] == SPACE
       && AllDigits(doc[p + 11..p + 16]) && doc[p + 16] == SPACE
       && doc[p + 17] == 110 && doc[p + 18] == SPACE && doc[p + 19] == NEWLINE
    then Some(Value(doc[p..p + 10]))
    else None
  }

  /** Section 7.5.4: the table's subsection header, then the entry of the object. */
  function ReadXref(doc: seq<byte>, xref: nat, num: nat): (r: Option<nat>) {
    if !At(doc, xref, XREF) then None
    else
      var (first, p) :- NumberAt(doc, xref + |XREF|);
      if !At(doc, p, [SPACE]) then None
      else
        var (count, q) :- NumberAt(doc, p + 1);
        if !At(doc, q, [NEWLINE]) || !(first <= num < first + count) then None
        else ReadEntry(doc, q + 1 + 20 * (num - first))
  }

  /** Section 7.3.8: the stream object's bytes, as many as its Length says. */
  function ReadStreamAt(doc: seq<byte>, offset: nat, num: nat): (r: Option<seq<byte>>) {
    var head := ObjectHeader(num) + LENGTH_DICT;
    if !At(doc, offset, head) then None
    else
      var (n, p) :- NumberAt(doc, offset + |head|);
      var start := p + |STREAM|;
      if At(doc, p, STREAM) && At(doc, start + n, ENDSTREAM) then Some(doc[start..start + n]) else None
  }

  /** From the end of the file to the cross-reference table to the stream object. */
  function ReadStream(doc: seq<byte>, num: nat): (r: Option<seq<byte>>) {
    var xref :- ReadStartXref(doc);
    var offset :- ReadXref(doc, xref, num);
    ReadStreamAt(doc, offset, num)
  }

  // ---- The writer's layout ----

  const HEADER := Ascii("%PDF-1.4\n%\U{e2}\U{e3}\U{cf}\U{d3}\n")
  const OBJ1 := ObjectHeader(1) + Ascii("\n<< /Type /Catalog /Pages 2 0 R >>\nendobj\n")
  const OBJ2 := ObjectHeader(2) + Ascii("\n<< /Type /Pages /Kids [3 0 R] /Count 1 >>\nendobj\n")
  const OBJ3 := ObjectHeader(3)
    + Ascii("\n<< /Type /Page /Parent 2 0 R /MediaBox [0 0 612 792] /Contents 4 0 R ")
    + Ascii("/Resources << /Font << /F1 5 0 R /F2 6 0 R /F3 7 0 R >> >> >>\nendobj\n")
  const OBJ5 := ObjectHeader(5) + Ascii("\n<< /Type /Font /Subtype /Type1 /BaseFont /Helvetica-Bold >>\nendobj\n")
  const OBJ6 := ObjectHeader(6) + Ascii("\n<< /Type /Font /Subtype /Type1 /BaseFont /Helvetica >>\nendobj\n")
  const OBJ7 := ObjectHeader(7) + Ascii("\n<< /Type /Font /Subtype /Type1 /BaseFont /Courier >>\nendobj\n")
  const FREE_ENTRY := Ascii("0000000000 65535 f \n")
  const ENTRY_TAIL := Ascii(" 00000 n \n")
  const TRAILER := Ascii("trailer\n<< /Size 8 /Root 1 0 R >>\n")

  function StreamObject(stream: seq<byte>): (r: seq<byte>) {
    ObjectHeader(4) + LENGTH_DICT + Decimal(|stream|) + STREAM + stream + ENDSTREAM
  }

  function Flatten(parts: seq<seq<byte>>): (r: seq<byte>) {
    if parts == [] then [] else Flatten(parts[..|parts| - 1]) + parts[|parts| - 1]
  }

  lemma {:induction false} FlattenSnoc(parts: seq<seq<byte>>, x: seq<byte>)
    ensures Flatten(parts + [x]) == Flatten(parts) + x
  {
    assert (parts + [x])[..|parts|] == parts;
  }

  /** Part i of a flattened sequence starts where the parts before it end. */
  lemma {:induction false} FlattenAt(parts: seq<seq<byte>>, i: nat)
    requires i < |parts|
    ensures At(Flatten(parts), |Flatten(parts[..i])|, parts[i])
    decreases |parts|
  {
    var rest, last := parts[..|parts| - 1], parts[|parts| - 1];
    if i == |rest| {
      AtConcat(Flatten(rest), last, []);
      assert Flatten(rest) + last + [] == Flatten(parts);
    } else {
      FlattenAt(rest, i);
      assert rest[..i] == parts[..i];
      AtShift([], Flatten(rest), last, |Flatten(parts[..i])|, parts[i]);
      assert [] + Flatten(rest) + last == Flatten(parts);
    }
  }

  function Objects(stream: seq<byte>): (r: seq<seq<byte>>)
    ensures |r| == 7
  {
    [OBJ1, OBJ2, OBJ3, StreamObject(stream), OBJ5, OBJ6, OBJ7]
  }

  function Body(stream: seq<byte>): (r: seq<byte>) {
    HEADER + Flatten(Objects(stream))
  }

  /** Where object i starts. */
  function Offset(stream: seq<byte>, i: nat): (r: nat)
    requires 1 <= i <= 7
  {
    |HEADER| + |Flatten(Objects(stream)[..i - 1])|
  }

  function Entry(offset: nat): (r: seq<byte>) {
    Padded(offset) + ENTRY_TAIL
  }

  /** The free entry of object 0 and the first n - 1 in-use entries. */
  function Entries(stream: seq<byte>, n: nat): (r: seq<seq<byte>>)
    requires 1 <= n <= 8
    ensures |r| == n
  {
    if n == 1 then [FREE_ENTRY] else Entries(stream, n - 1) + [Entry(Offset(stream, n - 1))]
  }

  const SUBSECTION := Decimal(0) + [SPACE] + Decimal(8) + [NEWLINE]

  function Table(stream: seq<byte>): (r: seq<byte>) {
    XREF + SUBSECTION + Flatten(Entries(stream, 8))
  }

  function Document(stream: seq<byte>): (r: seq<byte>) {
    var xref := |Body(stream)|;
    Body(stream) + Table(stream) + TRAILER + STARTXREF + Decimal(xref) + EOF_MARK
  }

  // ---- The reader undoes the writer ----

  lemma {:induction false} Literals()
    ensures STREAM[0] == SPACE && EOF_MARK[0] == NEWLINE
    ensures |STARTXREF| == 10 && STARTXREF[9] == NEWLINE
    ensures |FREE_ENTRY| == 20
    ensures |ENTRY_TAIL| == 10 && ENTRY_TAIL[0] == SPACE && AllDigits(ENTRY_TAIL[1..6]) && ENTRY_TAIL[6] == SPACE
    ensures ENTRY_TAIL[7] == 110 && ENTRY_TAIL[8] == SPACE && ENTRY_TAIL[9] == NEWLINE
  {
  }

  lemma {:induction false} StartXrefFound(doc: seq<byte>, before: seq<byte>, n: nat)
    requires doc == before + STARTXREF + Decimal(n) + EOF_MARK
    ensures ReadStartXref(doc) == Some(n)
  {
    hide Ascii, Value, Decimal;
    Literals();
    var p := |before| + |STARTXREF|;
    var e := p + |Decimal(n)|;
    assert doc[p..e] == Decimal(n);
    assert doc[p - 1] == STARTXREF[9];
    assert doc[e..] == EOF_MARK;
    assert doc[|before|..p] == STARTXREF;
    DigitsStartUnique(doc, p, e);
    ValueDecimal(n);
  }

  lemma {:induction false} OneDigit(doc: seq<byte>, p: nat, d: byte)
    requires p + 1 < |doc| && doc[p] == d && IsDigit(d) && !IsDigit(doc[p + 1])
    ensures NumberAt(doc, p) == Some(((d - 48) as nat, p + 1))
  {
    assert doc[p..p + 1] == [d];
    DigitsEndUnique(doc, p, p + 1);
    assert Value([d]) == Value([d][..0]) * 10 + (d - 48) as nat;
  }

  lemma {:induction false} SubsectionFound(doc: seq<byte>, xref: nat, num: nat)
    requires At(doc, xref, XREF + SUBSECTION)
    requires num < 8
    ensures ReadXref(doc, xref, num) == ReadEntry(doc, xref + |XREF + SUBSECTION| + 20 * num)
  {
    hide Ascii, Value, ReadEntry, NumberAt;
    var p := xref + |XREF|;
    assert SUBSECTION == [48, SPACE, 56, NEWLINE];
    assert XREF + SUBSECTION == [] + XREF + SUBSECTION;
    AtWithin(doc, xref, [], XREF, SUBSECTION);
    assert XREF + SUBSECTION == XREF + SUBSECTION + [];
    AtWithin(doc, xref, XREF, SUBSECTION, []);
    assert forall i :: 0 <= i < 4 ==> doc[p + i] == doc[p..p + 4][i] == SUBSECTION[i];
    OneDigit(doc, p, 48);
    OneDigit(doc, p + 2, 56);
  }

  lemma {:induction false} EntryTailRead(doc: seq<byte>, q: nat)
    requires At(doc, q, ENTRY_TAIL)
    ensures q + 10 <= |doc| && doc[q] == SPACE && AllDigits(doc[q + 1..q + 6]) && doc[q + 6] == SPACE
    ensures doc[q + 7] == 110 && doc[q + 8] == SPACE && doc[q + 9] == NEWLINE
  {
    Literals();
    hide Ascii;
    var tail := doc[q..q + 10];
    assert tail == ENTRY_TAIL;
    assert ENTRY_TAIL == ENTRY_TAIL[..1] + ENTRY_TAIL[1..6] + ENTRY_TAIL[6..];
    AtWithin(doc, q, ENTRY_TAIL[..1], ENTRY_TAIL[1..6], ENTRY_TAIL[6..]);
    assert doc[q] == tail[0] && doc[q + 6] == tail[6] && doc[q + 7] == tail[7];
    assert doc[q + 8] == tail[8] && doc[q + 9] == tail[9];
  }

  lemma {:induction false} FieldReads(doc: seq<byte>, p: nat, f: seq<byte>)
    requires AllDigits(f) && At(doc, p, f + ENTRY_TAIL)
    ensures |f| == 10 ==> ReadEntry(doc, p) == Some(Value(f))
    ensures |f| > 10 ==> ReadEntry(doc, p) == None
  {
    hide Ascii, Value;
    assert f + ENTRY_TAIL == [] + f + ENTRY_TAIL == f + ENTRY_TAIL + [];
    AtWithin(doc, p, [], f, ENTRY_TAIL);
    AtWithin(doc, p, f, ENTRY_TAIL, []);
    if |f| == 10 {
      EntryTailRead(doc, p + 10);
    } else if |f| > 10 {
      assert doc[p + 10] == doc[p..p + |f|][10];
    }
  }

  /** An entry whose offset fits ten digits reads back; a wider one is rejected. */
  lemma {:induction false} EntryReads(doc: seq<byte>, p: nat, offset: nat)
    requires At(doc, p, Entry(offset))
    ensures ReadEntry(doc, p) == if offset < Power10(10) then Some(offset) else None
  {
    hide Ascii, Value, Power10, Decimal, ReadEntry, At;
    DecimalLength(offset, 10);
    ValuePadded(offset);
    FieldReads(doc, p, Padded(offset));
  }

  lemma {:induction false} DocumentParts(stream: seq<byte>)
    ensures ReadStartXref(Document(stream)) == Some(|Body(stream)|)
    ensures At(Document(stream), |Body(stream)|, Table(stream))
    ensures Body(stream) <= Document(stream)
  {
    hide Body, Table, ReadStartXref, Decimal, Ascii;
    var body, table := Body(stream), Table(stream);
    StartXrefFound(Document(stream), body + table + TRAILER, |body|);
    var rest := TRAILER + STARTXREF + Decimal(|body|) + EOF_MARK;
    assert Document(stream) == body + table + rest;
    AtConcat(body, table, rest);
  }

  lemma {:induction false} AtShift(head: seq<byte>, inner: seq<byte>, tail: seq<byte>, o: nat, x: seq<byte>)
    requires At(inner, o, x)
    ensures At(head + inner + tail, |head| + o, x)
  {
    var doc := head + inner + tail;
    assert doc[|head|..|head| + |inner|] == inner;
    SliceOfSlice(doc, |head|, |head| + |inner|, o, o + |x|);
  }

  lemma {:induction false} DocumentTail(stream: seq<byte>) returns (tail: seq<byte>)
    ensures Document(stream) == HEADER + Flatten(Objects(stream)) + tail
  {
    hide Table, Objects, Decimal, Ascii, Flatten;
    tail := Table(stream) + TRAILER + STARTXREF + Decimal(|Body(stream)|) + EOF_MARK;
  }

  lemma {:induction false} ObjectPlaced(stream: seq<byte>, i: nat)
    requires 1 <= i <= 7
    ensures At(Document(stream), Offset(stream, i), Objects(stream)[i - 1])
  {
    hide Document, Flatten, Objects, At, Table, ReadStartXref;
    var objects := Objects(stream);
    FlattenAt(objects, i - 1);
    var tail := DocumentTail(stream);
    AtShift(HEADER, Flatten(objects), tail, |Flatten(objects[..i - 1])|, objects[i - 1]);
  }

  lemma {:induction false} StartsWithHeader(stream: seq<byte>, i: nat)
    requires 1 <= i <= 7
    ensures |ObjectHeader(i)| <= |Objects(stream)[i - 1]|
    ensures Objects(stream)[i - 1] == ObjectHeader(i) + Objects(stream)[i - 1][|ObjectHeader(i)|..]
  {
    hide Ascii, Decimal, ObjectHeader;
    if i == 4 {
      assert StreamObject(stream) == ObjectHeader(4) + (LENGTH_DICT + Decimal(|stream|) + STREAM + stream + ENDSTREAM);
    }
  }

  lemma {:induction false} HeaderPlaced(stream: seq<byte>, i: nat)
    requires 1 <= i <= 7
    ensures At(Document(stream), Offset(stream, i), ObjectHeader(i))
  {
    hide Document, Offset, ObjectHeader, Objects;
    ObjectPlaced(stream, i);
    StartsWithHeader(stream, i);
    var h, x := ObjectHeader(i), Objects(stream)[i - 1];
    assert x == [] + h + x[|h|..];
    AtWithin(Document(stream), Offset(stream, i), [], h, x[|h|..]);
  }

  ghost predicate FitsTable(stream: seq<byte>, n: nat)
    requires 1 <= n <= 8
  {
    forall i :: 1 <= i < n ==> Offset(stream, i) < Power10(10)
  }

  lemma {:induction false} EntryLength(offset: nat)
    ensures |Entry(offset)| == 20 <==> offset < Power10(10)
  {
    hide Power10, Ascii;
    Literals();
    DecimalLength(offset, 10);
  }

  lemma {:induction false} EntriesLength(stream: seq<byte>, n: nat)
    requires 1 <= n <= 8 && FitsTable(stream, n)
    ensures |Flatten(Entries(stream, n))| == 20 * n
    decreases n
  {
    hide Offset, Ascii, Power10, Entry;
    Literals();
    if n == 1 {
      assert Flatten([FREE_ENTRY]) == Flatten([]) + FREE_ENTRY;
    } else {
      EntriesLength(stream, n - 1);
      FlattenSnoc(Entries(stream, n - 1), Entry(Offset(stream, n - 1)));
      EntryLength(Offset(stream, n - 1));
    }
  }

  lemma {:induction false} EntriesPrefix(stream: seq<byte>, n: nat, m: nat)
    requires 1 <= n <= m <= 8
    ensures Entries(stream, m)[..n] == Entries(stream, n)
    ensures n < m ==> Entries(stream, m)[n] == Entry(Offset(stream, n))
    decreases m
  {
    hide Offset, Entry;
    if n < m {
      EntriesPrefix(stream, n, m - 1);
      if n == m - 1 {
        assert Entries(stream, m)[..n] == Entries(stream, n);
      }
    } else {
      assert Entries(stream, m)[..n] == Entries(stream, n);
    }
  }

  /** As long as the earlier offsets fit ten digits, entry i is where the reader looks. */
  lemma {:induction false} EntryPlaced(stream: seq<byte>, i: nat)
    requires 1 <= i <= 7 && FitsTable(stream, i)
    ensures At(Document(stream), |Body(stream)| + |XREF + SUBSECTION| + 20 * i, Entry(Offset(stream, i)))
  {
    hide Document, Offset, Entry, Entries, Flatten, Body, Ascii, Decimal;
    DocumentParts(stream);
    EntriesLength(stream, i);
    EntriesPrefix(stream, i, 8);
    var parts := Entries(stream, 8);
    FlattenAt(parts, i);
    var head, all, o, x := XREF + SUBSECTION, Flatten(parts), 20 * i, parts[i];
    assert all == all[..o] + x + all[o + |x|..];
    assert Table(stream) == (head + all[..o]) + x + all[o + |x|..];
    AtWithin(Document(stream), |Body(stream)|, head + all[..o], x, all[o + |x|..]);
  }

  lemma {:induction false} XrefReads(stream: seq<byte>, i: nat)
    requires 1 <= i <= 7 && FitsTable(stream, i)
    ensures ReadXref(Document(stream), |Body(stream)|, i)
         == if Offset(stream, i) < Power10(10) then Some(Offset(stream, i)) else None
  {
    hide Document, Offset, Entry, Flatten, Body, Ascii, Decimal, ReadXref, ReadEntry, Power10, Entries;
    DocumentParts(stream);
    EntryPlaced(stream, i);
    var head := XREF + SUBSECTION;
    assert Table(stream) == [] + head + Flatten(Entries(stream, 8));
    AtWithin(Document(stream), |Body(stream)|, [], head, Flatten(Entries(stream, 8)));
    SubsectionFound(Document(stream), |Body(stream)|, i);
    EntryReads(Document(stream), |Body(stream)| + |head| + 20 * i, Offset(stream, i));
  }

  lemma {:induction false} OffsetGrows(stream: seq<byte>, i: nat)
    requires 1 <= i <= 6
    ensures Offset(stream, i + 1) == Offset(stream, i) + |Objects(stream)[i - 1]|
  {
    hide Objects;
    var objects := Objects(stream);
    assert objects[..i] == objects[..i - 1] + [objects[i - 1]];
    FlattenSnoc(objects[..i - 1], objects[i - 1]);
  }

  lemma {:induction false} PreambleSizes()
    ensures |HEADER| < 100 && |OBJ1| < 200 && |OBJ2| < 200 && |OBJ3| < 400
    ensures Power10(10) == 10_000_000_000
  {
    assert Power10(2) == 100;
    assert Power10(4) == 10_000;
    assert Power10(6) == 1_000_000;
    assert Power10(8) == 100_000_000;
  }

  /** The objects before the stream always fit, whatever the stream. */
  lemma {:induction false} EarlyOffsetsFit(stream: seq<byte>)
    ensures FitsTable(stream, 5)
  {
    PreambleSizes();
    hide Ascii, Decimal, Power10, Flatten;
    assert Offset(stream, 1) == |HEADER| by {
      assert Objects(stream)[..0] == [];
      assert |Flatten([])| == 0 by { FlattenSnocEmpty(); }
    }
    assert forall k :: 0 <= k < 3 ==> |Objects(stream)[k]| < 400;
    hide Offset, Objects;
    OffsetGrows(stream, 1);
    OffsetGrows(stream, 2);
    OffsetGrows(stream, 3);
  }

  lemma {:induction false} FlattenSnocEmpty()
    ensures Flatten([]) == []
  {
  }

  lemma {:induction false} StreamPartsPlaced(doc: seq<byte>, offset: nat, stream: seq<byte>)
    requires At(doc, offset, StreamObject(stream))
    ensures var head, d := ObjectHeader(4) + LENGTH_DICT, Decimal(|stream|);
            var p := offset + |head|;
            && At(doc, offset, head) && At(doc, p, d) && At(doc, p + |d|, STREAM)
            && At(doc, p + |d| + |STREAM|, stream) && At(doc, p + |d| + |STREAM| + |stream|, ENDSTREAM)
  {
    hide Ascii, Decimal, ObjectHeader, At;
    var head, d := ObjectHeader(4) + LENGTH_DICT, Decimal(|stream|);
    var all := StreamObject(stream);
    assert all == [] + head + (d + STREAM + stream + ENDSTREAM);
    AtWithin(doc, offset, [], head, d + STREAM + stream + ENDSTREAM);
    assert all == head + d + (STREAM + stream + ENDSTREAM);
    AtWithin(doc, offset, head, d, STREAM + stream + ENDSTREAM);
    assert all == (head + d) + STREAM + (stream + ENDSTREAM);
    AtWithin(doc, offset, head + d, STREAM, stream + ENDSTREAM);
    assert all == (head + d + STREAM) + stream + ENDSTREAM;
    AtWithin(doc, offset, head + d + STREAM, stream, ENDSTREAM);
    assert all == (head + d + STREAM + stream) + ENDSTREAM + [];
    AtWithin(doc, offset, head + d + STREAM + stream, ENDSTREAM, []);
  }

  lemma {:induction false} LengthReads(doc: seq<byte>, p: nat, n: nat)
    requires At(doc, p, Decimal(n)) && At(doc, p + |Decimal(n)|, STREAM)
    ensures NumberAt(doc, p) == Some((n, p + |Decimal(n)|))
  {
    Literals();
    hide Ascii, Decimal, NumberAt;
    var q := p + |Decimal(n)|;
    assert doc[q] == doc[q..q + |STREAM|][0];
    NumberAtDecimal(doc, p, n);
  }

  lemma {:induction false} StreamReads(doc: seq<byte>, offset: nat, stream: seq<byte>)
    requires At(doc, offset, StreamObject(stream))
    ensures ReadStreamAt(doc, offset, 4) == Some(stream)
  {
    hide Ascii, Decimal, NumberAt, ObjectHeader, StreamObject, Value, At;
    StreamPartsPlaced(doc, offset, stream);
    var p := offset + |ObjectHeader(4) + LENGTH_DICT|;
    LengthReads(doc, p, |stream|);
    AtSlice(doc, p + |Decimal(|stream|)| + |STREAM|, stream);
  }

  /** Whatever bytes the stream holds, the reader gets exactly them back. */
  lemma {:induction false} RoundTrip(stream: seq<byte>)
    ensures ReadStream(Document(stream), 4) == Some(stream)
  {
    EarlyOffsetsFit(stream);
    hide Document, Offset, Body, ReadXref, ReadStreamAt, ReadStartXref, StreamObject, Power10;
    DocumentParts(stream);
    XrefReads(stream, 4);
    ObjectPlaced(stream, 4);
    StreamReads(Document(stream), Offset(stream, 4), stream);
  }

  /** The table leads from the end of the file to the header of object i. */
  predicate EntryPoints(doc: seq<byte>, i: nat) {
    match ReadStartXref(doc)
    case None => false
    case Some(xref) =>
      match ReadXref(doc, xref, i)
      case None => false
      case Some(offset) => At(doc, offset, ObjectHeader(i))
  }

  lemma {:induction false} EntryPointsWhen(stream: seq<byte>, i: nat)
    requires 1 <= i <= 7 && FitsTable(stream, i)
    ensures EntryPoints(Document(stream), i) <==> Offset(stream, i) < Power10(10)
  {
    hide Document, Offset, Body, ReadXref, ReadStartXref, Power10, ObjectHeader;
    DocumentParts(stream);
    XrefReads(stream, i);
    HeaderPlaced(stream, i);
  }

  lemma {:induction false} AllPointUpTo(stream: seq<byte>, n: nat)
    requires 1 <= n <= 8
    ensures (forall i :: 1 <= i < n ==> EntryPoints(Document(stream), i)) <==> FitsTable(stream, n)
    decreases n
  {
    hide EntryPoints, Document, Offset, Power10;
    if n > 1 {
      AllPointUpTo(stream, n - 1);
      if FitsTable(stream, n - 1) {
        EntryPointsWhen(stream, n - 1);
      }
    }
  }

  /** All seven entries lead to their objects exactly when the last offset fits ten digits. */
  lemma {:induction false} TableComplete(stream: seq<byte>)
    ensures (forall i :: 1 <= i <= 7 ==> EntryPoints(Document(stream), i)) <==> Offset(stream, 7) < 10_000_000_000
  {
    PreambleSizes();
    hide EntryPoints, Document, Offset, Power10, Objects;
    AllPointUpTo(stream, 8);
    OffsetGrows(stream, 1);
    OffsetGrows(stream, 2);
    OffsetGrows(stream, 3);
    OffsetGrows(stream, 4);
    OffsetGrows(stream, 5);
    OffsetGrows(stream, 6);
  }

  /** What has been written when the first k objects are out. */
  function Written(stream: seq<byte>, k: nat): (r: seq<byte>)
    requires k <= 7
  {
    HEADER + Flatten(Objects(stream)[..k])
  }

  lemma {:induction false} WrittenNext(stream: seq<byte>, k: nat)
    requires k < 7
    ensures Written(stream, 0) == HEADER
    ensures Written(stream, 7) == Body(stream)
    ensures Written(stream, k + 1) == Written(stream, k) + Objects(stream)[k]
    ensures |Written(stream, k)| == Offset(stream, k + 1)
  {
    hide Objects;
    var objects := Objects(stream);
    assert objects[..k + 1] == objects[..k] + [objects[k]];
    FlattenSnoc(objects[..k], objects[k]);
    assert objects[..7] == objects && objects[..0] == [];
    FlattenSnocEmpty();
  }

  lemma {:induction false} TableNext(stream: seq<byte>, i: nat)
    requires 1 <= i <= 7
    ensures Flatten(Entries(stream, 1)) == FREE_ENTRY
    ensures Flatten(Entries(stream, i + 1)) == Flatten(Entries(stream, i)) + Entry(Offset(stream, i))
  {
    hide Offset, Entry;
    FlattenSnoc(Entries(stream, i), Entry(Offset(stream, i)));
    FlattenSnoc([], FREE_ENTRY);
    FlattenSnocEmpty();
    assert [] + [FREE_ENTRY] == [FREE_ENTRY];
  }

  /** buildPDF: appends to a buffer, noting where each object starts. */
  method BuildPdf(stream: seq<byte>) returns (out: seq<byte>)
    ensures out == Document(stream)
    ensures ReadStream(out, 4) == Some(stream)
  {
    hide Offset, Entry, Entries, Flatten, Ascii, Decimal, Body, ReadStream;
    var offsets := new nat[8](_ => 0);
    out := WriteObjects(stream, offsets);
    var xrefStart := |out|;
    out := out + (XREF + SUBSECTION + FREE_ENTRY);
    ghost var head := Body(stream) + (XREF + SUBSECTION);
    TableNext(stream, 1);
    var i := 1;
    while i <= 7
      invariant 1 <= i <= 8
      invariant forall k :: 1 <= k <= 7 ==> offsets[k] == Offset(stream, k)
      invariant out == head + Flatten(Entries(stream, i))
    {
      TableNext(stream, i);
      out := out + Entry(offsets[i]);
      i := i + 1;
    }
    out := out + (TRAILER + STARTXREF);
    out := out + (Decimal(xrefStart) + EOF_MARK);
    RoundTrip(stream);
    assert out == Document(stream);
  }

  method WriteObjects(stream: seq<byte>, offsets: array<nat>) returns (out: seq<byte>)
    requires offsets.Length == 8
    modifies offsets
    ensures out == Body(stream)
    ensures forall k :: 1 <= k <= 7 ==> offsets[k] == Offset(stream, k)
  {
    hide Written, Offset, Flatten, Ascii, Decimal, Body, ObjectHeader;
    WrittenNext(stream, 0);
    out := HEADER;
    offsets[1] := |out|;
    out := out + OBJ1;
    WrittenNext(stream, 1);
    offsets[2] := |out|;
    out := out + OBJ2;
    WrittenNext(stream, 2);
    offsets[3] := |out|;
    out := out + OBJ3;
    WrittenNext(stream, 3);
    offsets[4] := |out|;
    out := out + (ObjectHeader(4) + LENGTH_DICT + Decimal(|stream|) + STREAM);
    out := out + stream;
    out := out + ENDSTREAM;
    assert out == Written(stream, 3) + StreamObject(stream);
    WrittenNext(stream, 4);
    offsets[5] := |out|;
    out := out + OBJ5;
    WrittenNext(stream, 5);
    offsets[6] := |out|;
    out := out + OBJ6;
    WrittenNext(stream, 6);
    offsets[7] := |out|;
    out := out + OBJ7;
  }
}
