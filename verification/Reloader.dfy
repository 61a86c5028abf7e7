/**
 * The double-checked reloader of files on disk, as a state machine: any number of callers,
 * each step one stat, one read or one lock hand-over, while the files may be rewritten
 * between any two steps. With one file it is the CA pool reloader, with two the certificate
 * reloader (certificate, then key).
 */
module Reloaders {

  import opened Wrappers

  /** One state of a file on disk. */
  datatype Snapshot = Snapshot(mod: int, content: string)

  /**
   * A caller of ReloadIfNeeded. `since` counts the snapshots each file had when the call
   * started; `at` and `read` say which snapshot a stat or a read saw. A value returned was
   * `read` by a load that recorded the mod times of `loaded`, which equal those `seen` by the call.
   */
  datatype Caller =
    | Checking(since: seq<nat>, at: seq<nat>, current: bool)
    | Waiting(since: seq<nat>)
    | Rechecking(since: seq<nat>, at: seq<nat>)
    | Loading(since: seq<nat>, at: seq<nat>, read: seq<nat>)
    | Returned(since: seq<nat>, value: seq<string>, loaded: seq<nat>, read: seq<nat>, seen: seq<nat>)
    | Failed(since: seq<nat>)

  datatype State = State(
    files: seq<seq<Snapshot>>,
    cached: Option<seq<string>>,
    lastMods: seq<int>,
    callers: map<nat, Caller>,
    // Which snapshots the cached value and the recorded mod times come from.
    cachedRead: seq<nat>,
    cachedAt: seq<nat>)

  datatype Action =
    | Rewrite(file: nat, snapshot: Snapshot)
    | Start(p: nat)
    | FastStat(p: nat, ok: bool)
    | FastDone(p: nat)
    | Lock(p: nat)
    | SlowStat(p: nat, ok: bool)
    | SlowDone(p: nat)
    | Read(p: nat, ok: bool)
    | Install(p: nat, parses: bool)

  function Newest(s: State, f: nat): (i: nat)
    requires f < |s.files| && s.files[f] != []
  {
    |s.files[f]| - 1
  }

  predicate HoldsRead(c: Caller) {
    c.Checking?
  }

  predicate HoldsWrite(c: Caller) {
    c.Rechecking? || c.Loading?
  }

  function Counts(s: State): (r: seq<nat>) {
    seq(|s.files|, f requires 0 <= f < |s.files| => |s.files[f]|)
  }

  /** The mod times of the snapshots a caller saw. */
  function ModsAt(files: seq<seq<Snapshot>>, at: seq<nat>): (r: seq<int>)
    requires |at| <= |files| && forall f :: 0 <= f < |at| ==> at[f] < |files[f]|
  {
    seq(|at|, f requires 0 <= f < |at| => files[f][at[f]].mod)
  }

  function ContentsAt(files: seq<seq<Snapshot>>, read: seq<nat>): (r: seq<string>)
    requires |read| <= |files| && forall f :: 0 <= f < |read| ==> read[f] < |files[f]|
  {
    seq(|read|, f requires 0 <= f < |read| => files[f][read[f]].content)
  }

  /** Snapshots that exist: a missing file has none and its stat or read fails. */
  predicate Seen(files: seq<seq<Snapshot>>, at: seq<nat>) {
    |at| <= |files| && forall f :: 0 <= f < |at| ==> at[f] < |files[f]|
  }

  predicate Enabled(s: State, a: Action) {
    match a
    case Rewrite(f, _) => f < |s.files|
    case Start(p) => p !in s.callers && forall q :: q in s.callers ==> !HoldsWrite(s.callers[q])
    case FastStat(p, ok) =>
      p in s.callers && s.callers[p].Checking? && |s.callers[p].at| < |s.files|
      && (ok ==> s.files[|s.callers[p].at|] != [])
    case FastDone(p) =>
      p in s.callers && s.callers[p].Checking? && (s.callers[p].current ==> |s.callers[p].at| == |s.files|)
    case Lock(p) =>
      p in s.callers && s.callers[p].Waiting?
      && forall q :: q in s.callers ==> !HoldsRead(s.callers[q]) && !HoldsWrite(s.callers[q])
    case SlowStat(p, ok) =>
      p in s.callers && s.callers[p].Rechecking? && |s.callers[p].at| < |s.files|
      && (ok ==> s.files[|s.callers[p].at|] != [])
    case SlowDone(p) =>
      p in s.callers && s.callers[p].Rechecking? && |s.callers[p].at| == |s.files| && Seen(s.files, s.callers[p].at)
    case Read(p, ok) =>
      p in s.callers && s.callers[p].Loading? && |s.callers[p].read| < |s.files|
      && (ok ==> s.files[|s.callers[p].read|] != [])
    case Install(p, _) =>
      p in s.callers && s.callers[p].Loading? && |s.callers[p].read| == |s.files|
      && Seen(s.files, s.callers[p].read) && Seen(s.files, s.callers[p].at)
  }

  function Move(s: State, p: nat, c: Caller): (r: State) {
    s.(callers := s.callers[p := c])
  }

  function Apply(s: State, a: Action): (r: State)
    requires Enabled(s, a)
  {
    match a
    case Rewrite(f, snapshot) => s.(files := s.files[f := s.files[f] + [snapshot]])
    case Start(p) => Move(s, p, Checking(Counts(s), [], true))
    case FastStat(p, ok) =>
      // A failed or differing stat makes the fast check fail; the remaining stats do not matter.
      var c := s.callers[p];
      var f := |c.at|;
      var same := ok && f < |s.lastMods| && s.files[f][Newest(s, f)].mod == s.lastMods[f];
      Move(s, p, if c.current && same then Checking(c.since, c.at + [Newest(s, f)], true) else Checking(c.since, c.at, false))
    case FastDone(p) =>
      var c := s.callers[p];
      Move(s, p, if c.current && s.cached.Some?
                 then Returned(c.since, s.cached.value, s.cachedAt, s.cachedRead, c.at) else Waiting(c.since))
    case Lock(p) => Move(s, p, Rechecking(s.callers[p].since, []))
    case SlowStat(p, ok) =>
      var c := s.callers[p];
      Move(s, p, if ok then Rechecking(c.since, c.at + [Newest(s, |c.at|)]) else Failed(c.since))
    case SlowDone(p) =>
      var c := s.callers[p];
      Move(s, p, if ModsAt(s.files, c.at) == s.lastMods && s.cached.Some?
                 then Returned(c.since, s.cached.value, s.cachedAt, s.cachedRead, c.at) else Loading(c.since, c.at, []))
    case Read(p, ok) =>
      var c := s.callers[p];
      Move(s, p, if ok then Loading(c.since, c.at, c.read + [Newest(s, |c.read|)]) else Failed(c.since))
    case Install(p, parses) =>
      var c := s.callers[p];
      if !parses then Move(s, p, Failed(c.since))
      else
        var contents := ContentsAt(s.files, c.read);
        Move(s.(cached := Some(contents), lastMods := ModsAt(s.files, c.at), cachedRead := c.read, cachedAt := c.at),
             p, Returned(c.since, contents, c.at, c.read, c.at))
  }

  // ---- What every interleaving keeps ----

  /** read[f] is at least as new as at[f], file by file. */
  predicate NotOlder(read: seq<nat>, at: seq<nat>) {
    |read| <= |at| && forall f :: 0 <= f < |read| ==> at[f] <= read[f]
  }

  /** at[f] is at least as new as what file f held when the call started. */
  predicate SinceStart(at: seq<nat>, since: seq<nat>) {
    |at| <= |since| && forall f :: 0 <= f < |at| ==> since[f] <= at[f] + 1
  }

  ghost predicate CacheInv(s: State) {
    && |s.cachedRead| == |s.cachedAt| == |s.files|
    && Seen(s.files, s.cachedRead) && Seen(s.files, s.cachedAt)
    && s.cached == Some(ContentsAt(s.files, s.cachedRead))
    && s.lastMods == ModsAt(s.files, s.cachedAt)
    && NotOlder(s.cachedRead, s.cachedAt)
  }

  ghost predicate CallerInv(s: State, c: Caller) {
    && |c.since| == |s.files| && (forall f :: 0 <= f < |s.files| ==> c.since[f] <= |s.files[f]|)
    && match c
       case Checking(since, at, current) =>
         && Seen(s.files, at) && SinceStart(at, since)
         && |at| <= |s.lastMods| && forall f :: 0 <= f < |at| ==> s.files[f][at[f]].mod == s.lastMods[f]
       case Waiting(_) => true
       case Rechecking(since, at) => Seen(s.files, at) && SinceStart(at, since)
       case Loading(since, at, read) =>
         |at| == |s.files| && Seen(s.files, at) && SinceStart(at, since) && Seen(s.files, read) && NotOlder(read, at)
       case Returned(since, value, loaded, read, seen) =>
         && |loaded| == |read| == |seen| == |s.files|
         && Seen(s.files, loaded) && Seen(s.files, read) && Seen(s.files, seen)
         && NotOlder(read, loaded) && SinceStart(seen, since)
         && ModsAt(s.files, loaded) == ModsAt(s.files, seen) && value == ContentsAt(s.files, read)
       case Failed(_) => true
  }

  ghost predicate Exclusive(s: State) {
    forall p, q :: p in s.callers && q in s.callers && p != q && HoldsWrite(s.callers[p]) ==>
      !HoldsRead(s.callers[q]) && !HoldsWrite(s.callers[q])
  }

  ghost predicate Inv(s: State) {
    && (s.cached.Some? ==> |s.cachedAt| == |s.files| && CacheInv(s))
    && Exclusive(s)
    && (forall p :: p in s.callers ==> CallerInv(s, s.callers[p]))
  }

  lemma {:induction false} MoveExclusive(s: State, p: nat, c: Caller)
    requires Exclusive(s)
    requires HoldsRead(c) ==> forall q :: q in s.callers && q != p ==> !HoldsWrite(s.callers[q])
    requires HoldsWrite(c) ==> forall q :: q in s.callers && q != p ==> !HoldsRead(s.callers[q]) && !HoldsWrite(s.callers[q])
    ensures Exclusive(Move(s, p, c))
  {
  }

  lemma {:induction false} StepExclusive(s: State, a: Action)
    requires Enabled(s, a) && Exclusive(s)
    ensures Exclusive(Apply(s, a))
  {
    if !a.Rewrite? {
      var c := Apply(s, a).callers[a.p];
      assert a.p in s.callers && HoldsRead(c) ==> HoldsRead(s.callers[a.p]);
      assert a.p in s.callers && HoldsWrite(c) && !a.Lock? ==> HoldsWrite(s.callers[a.p]);
      MoveExclusive(s, a.p, c);
    }
  }

  /** What was seen of a file stays where it was seen. */
  lemma {:induction false} AppendKeeps(files: seq<seq<Snapshot>>, f: nat, snapshot: Snapshot, at: seq<nat>)
    requires f < |files| && Seen(files, at)
    ensures var files' := files[f := files[f] + [snapshot]];
            Seen(files', at) && ModsAt(files', at) == ModsAt(files, at) && ContentsAt(files', at) == ContentsAt(files, at)
  {
  }

  lemma {:induction false} RewriteKeepsCaller(s: State, f: nat, snapshot: Snapshot, c: Caller)
    requires CallerInv(s, c) && f < |s.files|
    ensures CallerInv(s.(files := s.files[f := s.files[f] + [snapshot]]), c)
  {
    hide ModsAt, ContentsAt;
    match c
    case Checking(_, at, _) => AppendKeeps(s.files, f, snapshot, at);
    case Rechecking(_, at) => AppendKeeps(s.files, f, snapshot, at);
    case Loading(_, at, read) =>
      AppendKeeps(s.files, f, snapshot, at);
      AppendKeeps(s.files, f, snapshot, read);
    case Returned(_, _, loaded, read, seen) =>
      AppendKeeps(s.files, f, snapshot, loaded);
      AppendKeeps(s.files, f, snapshot, read);
      AppendKeeps(s.files, f, snapshot, seen);
    case _ =>
  }

  /** A rewrite only appends, whatever its mod time: everything seen stays seen. */
  lemma {:induction false} RewriteKeeps(s: State, f: nat, snapshot: Snapshot)
    requires Inv(s) && f < |s.files|
    ensures Inv(Apply(s, Rewrite(f, snapshot)))
  {
    if s.cached.Some? {
      AppendKeeps(s.files, f, snapshot, s.cachedRead);
      AppendKeeps(s.files, f, snapshot, s.cachedAt);
    }
    forall p | p in s.callers ensures CallerInv(Apply(s, Rewrite(f, snapshot)), s.callers[p]) {
      RewriteKeepsCaller(s, f, snapshot, s.callers[p]);
    }
    hide ModsAt, ContentsAt, CallerInv;
  }

  /** A caller that stays where it is keeps what it knows; only an install changes the cache. */
  lemma {:induction false} BystanderKeeps(s: State, a: Action, q: nat)
    requires Enabled(s, a) && Inv(s) && !a.Rewrite? && q in s.callers && a.p != q
    ensures CallerInv(Apply(s, a), s.callers[q])
  {
    assert CallerInv(s, s.callers[q]);
    if a.Install? {
      assert HoldsWrite(s.callers[a.p]);
      assert !HoldsRead(s.callers[q]);
    }
  }

  lemma {:induction false} StatKeeps(s: State, p: nat, at: seq<nat>, since: seq<nat>)
    requires |since| == |s.files| && (forall f :: 0 <= f < |s.files| ==> since[f] <= |s.files[f]|)
    requires Seen(s.files, at) && SinceStart(at, since) && |at| < |s.files| && s.files[|at|] != []
    ensures Seen(s.files, at + [Newest(s, |at|)]) && SinceStart(at + [Newest(s, |at|)], since)
  {
  }

  lemma {:induction false} FastStatKeeps(s: State, p: nat, ok: bool)
    requires Enabled(s, FastStat(p, ok)) && Inv(s)
    ensures CallerInv(s, Apply(s, FastStat(p, ok)).callers[p])
  {
    var c := s.callers[p];
    assert CallerInv(s, c);
    var f := |c.at|;
    if c.current && ok && f < |s.lastMods| && s.files[f][Newest(s, f)].mod == s.lastMods[f] {
      StatKeeps(s, p, c.at, c.since);
    }
  }

  lemma {:induction false} SlowDoneKeeps(s: State, p: nat)
    requires Enabled(s, SlowDone(p)) && Inv(s)
    ensures CallerInv(s, Apply(s, SlowDone(p)).callers[p])
  {
    assert CallerInv(s, s.callers[p]);
  }

  /** A read sees a snapshot at least as new as the stat before it. */
  lemma {:induction false} ReadNext(s: State, at: seq<nat>, read: seq<nat>)
    requires |at| == |s.files| && Seen(s.files, at) && Seen(s.files, read) && NotOlder(read, at)
    requires |read| < |s.files| && s.files[|read|] != []
    ensures Seen(s.files, read + [Newest(s, |read|)]) && NotOlder(read + [Newest(s, |read|)], at)
  {
  }

  lemma {:induction false} ReadKeeps(s: State, p: nat, ok: bool)
    requires Enabled(s, Read(p, ok)) && Inv(s)
    ensures CallerInv(s, Apply(s, Read(p, ok)).callers[p])
  {
    assert CallerInv(s, s.callers[p]);
    hide Inv;
    if ok {
      ReadNext(s, s.callers[p].at, s.callers[p].read);
      hide Seen, NotOlder;
    }
  }

  lemma {:induction false} InstallKeeps(s: State, p: nat, parses: bool)
    requires Enabled(s, Install(p, parses)) && Inv(s)
    ensures var s' := Apply(s, Install(p, parses)); CallerInv(s', s'.callers[p]) && (s'.cached.Some? ==> CacheInv(s'))
  {
    assert CallerInv(s, s.callers[p]);
  }

  lemma {:induction false} StartKeeps(s: State, p: nat)
    requires Enabled(s, Start(p)) && Inv(s)
    ensures CallerInv(s, Apply(s, Start(p)).callers[p])
  {
  }

  lemma {:induction false} FastDoneKeeps(s: State, p: nat)
    requires Enabled(s, FastDone(p)) && Inv(s)
    ensures CallerInv(s, Apply(s, FastDone(p)).callers[p])
  {
    var c := s.callers[p];
    assert CallerInv(s, c);
    if c.current && s.cached.Some? {
      assert ModsAt(s.files, c.at) == s.lastMods;
    }
  }

  lemma {:induction false} LockKeeps(s: State, p: nat)
    requires Enabled(s, Lock(p)) && Inv(s)
    ensures CallerInv(s, Apply(s, Lock(p)).callers[p])
  {
    assert CallerInv(s, s.callers[p]);
  }

  lemma {:induction false} SlowStatKeeps(s: State, p: nat, ok: bool)
    requires Enabled(s, SlowStat(p, ok)) && Inv(s)
    ensures CallerInv(s, Apply(s, SlowStat(p, ok)).callers[p])
  {
    assert CallerInv(s, s.callers[p]);
    if ok {
      StatKeeps(s, p, s.callers[p].at, s.callers[p].since);
    }
  }

  /** What the moving caller knows, against the state before its step. */
  lemma {:induction false} QuietMoverKeeps(s: State, a: Action)
    requires Enabled(s, a) && Inv(s) && !a.Rewrite? && !a.Install?
    ensures a.p in Apply(s, a).callers && CallerInv(s, Apply(s, a).callers[a.p])
  {
    QuietStep(s, a);
    hide CallerInv, Apply, Enabled, Inv;
    if a.Start? {
      StartKeeps(s, a.p);
    } else if a.FastStat? {
      FastStatKeeps(s, a.p, a.ok);
    } else if a.FastDone? {
      FastDoneKeeps(s, a.p);
    } else if a.Lock? {
      LockKeeps(s, a.p);
    } else if a.SlowStat? {
      SlowStatKeeps(s, a.p, a.ok);
    } else if a.SlowDone? {
      SlowDoneKeeps(s, a.p);
    } else {
      ReadKeeps(s, a.p, a.ok);
    }
  }

  lemma {:induction false} MoverKeeps(s: State, a: Action)
    requires Enabled(s, a) && Inv(s) && !a.Rewrite?
    ensures a.p in Apply(s, a).callers && CallerInv(Apply(s, a), Apply(s, a).callers[a.p])
    ensures Apply(s, a).cached.Some? ==> CacheInv(Apply(s, a))
  {
    if a.Install? {
      InstallKeeps(s, a.p, a.parses);
      hide CallerInv, CacheInv, Inv;
    } else {
      QuietStep(s, a);
      QuietMoverKeeps(s, a);
      assert s.cached.Some? ==> CacheInv(s);
      hide CallerInv, CacheInv, Apply, Enabled, Inv;
    }
  }

  /** A step that is neither a rewrite nor an install moves one caller and nothing else. */
  lemma {:induction false} QuietStep(s: State, a: Action)
    requires Enabled(s, a) && !a.Rewrite? && !a.Install?
    ensures a.p in Apply(s, a).callers && Apply(s, a) == Move(s, a.p, Apply(s, a).callers[a.p])
    ensures forall c :: CallerInv(Apply(s, a), c) == CallerInv(s, c)
    ensures CacheInv(Apply(s, a)) == CacheInv(s)
  {
  }

  lemma {:induction false} StepKeepsInv(s: State, a: Action)
    requires Enabled(s, a) && Inv(s)
    ensures Inv(Apply(s, a))
  {
    if a.Rewrite? {
      RewriteKeeps(s, a.file, a.snapshot);
    } else {
      var s' := Apply(s, a);
      StepExclusive(s, a);
      MoverKeeps(s, a);
      forall q | q in s'.callers ensures CallerInv(s', s'.callers[q]) {
        if q != a.p {
          BystanderKeeps(s, a, q);
        }
      }
    }
  }

  // ---- Runs ----

  /** A run of a fresh reloader, over files rewritten at any time with any mod time. */
  ghost predicate IsRun(states: seq<State>, actions: seq<Action>) {
    && |states| == |actions| + 1
    && states[0].cached.None? && states[0].callers == map[]
    && (forall k :: 0 <= k < |actions| ==> Enabled(states[k], actions[k]) && states[k + 1] == Apply(states[k], actions[k]))
  }

  lemma {:induction false} RunInv(states: seq<State>, actions: seq<Action>, k: nat)
    requires IsRun(states, actions) && k < |states|
    ensures Inv(states[k])
    decreases k
  {
    if k > 0 {
      RunInv(states, actions, k - 1);
      StepKeepsInv(states[k - 1], actions[k - 1]);
    }
  }

  /** The cached contents are never older than the recorded mod times, file by file. */
  lemma {:induction false} CacheNeverOlder(states: seq<State>, actions: seq<Action>, k: nat, f: nat)
    requires IsRun(states, actions) && k < |states| && states[k].cached.Some? && f < |states[k].files|
    ensures f < |states[k].cached.value| && f < |states[k].lastMods|
    ensures exists i, j :: 0 <= i <= j < |states[k].files[f]|
              && states[k].files[f][i].mod == states[k].lastMods[f]
              && states[k].files[f][j].content == states[k].cached.value[f]
  {
    RunInv(states, actions, k);
    var s := states[k];
    assert s.files[f][s.cachedAt[f]].mod == s.lastMods[f];
    assert s.files[f][s.cachedRead[f]].content == s.cached.value[f];
  }

  /** Only a load that parses changes the cached value or the recorded mod times. */
  lemma {:induction false} FailuresLeaveCache(s: State, a: Action)
    requires Enabled(s, a)
    ensures Apply(s, a).cached != s.cached || Apply(s, a).lastMods != s.lastMods ==>
              a.Install? && a.parses && Apply(s, a).callers[a.p].Returned?
  {
  }

  /**
   * Under the write lock a call loads exactly if some mod time differs from the recorded one or
   * nothing is cached; otherwise it returns what is cached and reads no file.
   */
  lemma {:induction false} LoadsExactlyWhen(s: State, p: nat)
    requires Enabled(s, SlowDone(p))
    ensures var c, s' := s.callers[p], Apply(s, SlowDone(p));
            && p in s'.callers && s'.cached == s.cached && s'.lastMods == s.lastMods
            && (s'.callers[p].Loading? || (s.cached.Some? && s'.callers[p].Returned? && s'.callers[p].value == s.cached.value))
            && (s'.callers[p].Loading? <==>
                  s.cached.None? || |s.lastMods| != |s.files|
                  || exists f :: 0 <= f < |s.files| && s.files[f][c.at[f]].mod != s.lastMods[f])
  {
    var c := s.callers[p];
    assert |ModsAt(s.files, c.at)| == |s.files|;
    assert forall f :: 0 <= f < |s.files| ==> ModsAt(s.files, c.at)[f] == s.files[f][c.at[f]].mod;
    if |s.lastMods| == |s.files| && forall f :: 0 <= f < |s.files| ==> s.files[f][c.at[f]].mod == s.lastMods[f] {
      assert ModsAt(s.files, c.at) == s.lastMods;
    }
  }

  // ---- Freshness ----

  /** The value is among the contents the file had from the moment the call started. */
  ghost predicate Fresh(h: seq<Snapshot>, since: nat, value: string) {
    exists k :: 0 <= k < |h| && since <= k + 1 && h[k].content == value
  }

  /** Where a mod time comes back, the contents it comes back with have been there ever since its first use. */
  ghost predicate Unambiguous(h: seq<Snapshot>) {
    forall i, r, j :: 0 <= i <= r < j < |h| && h[i].mod == h[j].mod ==> h[r].content == h[j].content
  }

  /** Mod times that never repeat, in whatever order they come, are unambiguous. */
  lemma {:induction false} DistinctModsUnambiguous(h: seq<Snapshot>)
    requires forall i, j :: 0 <= i < j < |h| ==> h[i].mod != h[j].mod
    ensures Unambiguous(h)
  {
  }

  /** What was read no earlier than a mod time that the file still had during the call. */
  lemma {:induction false} ExplainedIsFresh(h: seq<Snapshot>, since: nat, i: nat, r: nat, j: nat)
    requires Unambiguous(h) && i <= r < |h| && j < |h| && since <= j + 1 && h[i].mod == h[j].mod
    ensures Fresh(h, since, h[r].content)
  {
    assert r < j ==> h[r].content == h[j].content;
    assert r >= j ==> since <= r + 1;
  }

  /** Where a returned value comes from, whatever the mod times. */
  lemma {:induction false} ReturnedFrom(states: seq<State>, actions: seq<Action>, k: nat, p: nat, f: nat)
    returns (i: nat, r: nat, j: nat)
    requires IsRun(states, actions) && k < |states| && p in states[k].callers && states[k].callers[p].Returned?
    requires f < |states[k].files|
    ensures var h, c := states[k].files[f], states[k].callers[p];
            && i <= r < |h| && j < |h| && h[i].mod == h[j].mod
            && f < |c.since| && f < |c.value| && c.since[f] <= |h| && c.since[f] <= j + 1 && h[r].content == c.value[f]
  {
    RunInv(states, actions, k);
    var s := states[k];
    var c := s.callers[p];
    assert CallerInv(s, c);
    i, r, j := c.loaded[f], c.read[f], c.seen[f];
    assert ModsAt(s.files, c.loaded)[f] == ModsAt(s.files, c.seen)[f];
  }

  /**
   * Whatever the interleaving, a call returns for every unambiguous file contents at least as
   * new as the file held when the call started; with no rewrite since, exactly the file's contents.
   */
  lemma {:induction false} ReturnsFresh(states: seq<State>, actions: seq<Action>, k: nat, p: nat, f: nat)
    requires IsRun(states, actions) && k < |states| && p in states[k].callers && states[k].callers[p].Returned?
    requires f < |states[k].files| && Unambiguous(states[k].files[f])
    ensures var h, c := states[k].files[f], states[k].callers[p];
            && f < |c.since| && f < |c.value| && Fresh(h, c.since[f], c.value[f])
            && (c.since[f] == |h| ==> h != [] && c.value[f] == h[|h| - 1].content)
  {
    var i, r, j := ReturnedFrom(states, actions, k, p, f);
    hide IsRun, Unambiguous;
    ExplainedIsFresh(states[k].files[f], states[k].callers[p].since[f], i, r, j);
  }

  // ---- Stale runs ----

  datatype Run = Run(states: seq<State>, actions: seq<Action>)

  ghost predicate Reaches(run: Run, s: State) {
    IsRun(run.states, run.actions) && run.states[|run.states| - 1] == s
  }

  lemma {:induction false} ReachesEnd(run: Run, s: State)
    requires Reaches(run, s)
    ensures IsRun(run.states, run.actions) && |run.states| > 0 && run.states[|run.states| - 1] == s
  {
  }

  lemma {:induction false} Extend(run: Run, s: State, a: Action) returns (more: Run, s': State)
    requires Reaches(run, s) && Enabled(s, a)
    ensures Reaches(more, s') && s' == Apply(s, a) && run.states <= more.states
  {
    s' := Apply(s, a);
    more := Run(run.states + [s'], run.actions + [a]);
  }

  /** The history of all files, with file f only as far as its first n snapshots. */
  function UpTo(h: seq<seq<Snapshot>>, f: nat, n: nat): (r: seq<seq<Snapshot>>)
    requires f < |h| && n <= |h[f]|
  {
    h[f := h[f][..n]]
  }

  predicate NoneMissing(files: seq<seq<Snapshot>>) {
    forall f :: 0 <= f < |files| ==> files[f] != []
  }

  /** What a stat or a read of each file would see now. */
  function Latest(files: seq<seq<Snapshot>>): (r: seq<nat>)
    requires NoneMissing(files)
    ensures Seen(files, r)
  {
    seq(|files|, f requires 0 <= f < |files| => |files[f]| - 1)
  }

  lemma {:induction false} LatestNext(files: seq<seq<Snapshot>>, n: nat)
    requires NoneMissing(files) && n < |files|
    ensures Latest(files)[..n] + [|files[n]| - 1] == Latest(files)[..n + 1]
  {
  }

  lemma {:induction false} MoveTwice(s: State, p: nat, c: Caller, d: Caller)
    ensures Move(Move(s, p, c), p, d) == Move(s, p, d)
  {
    assert s.callers[p := c][p := d] == s.callers[p := d];
  }

  lemma {:induction false} RewriteUpTo(run: Run, s: State, h: seq<seq<Snapshot>>, f: nat, n: nat, m: nat)
    returns (more: Run, s': State)
    requires f < |h| && n <= m <= |h[f]| && Reaches(run, s) && s.files == UpTo(h, f, n)
    ensures Reaches(more, s') && run.states <= more.states && s' == s.(files := UpTo(h, f, m))
    decreases m - n
  {
    hide Reaches;
    if n == m {
      more, s' := run, s;
    } else {
      more, s' := Extend(run, s, Rewrite(f, h[f][n]));
      assert h[f][..n] + [h[f][n]] == h[f][..n + 1];
      assert s'.files == UpTo(h, f, n + 1);
      more, s' := RewriteUpTo(more, s', h, f, n + 1, m);
    }
  }

  /** The remaining fast stats of a caller all of whose stats agree with the recorded mod times. */
  lemma {:induction false} FastStats(run: Run, s: State, p: nat, since: seq<nat>, n: nat) returns (more: Run, s': State)
    requires Reaches(run, s) && NoneMissing(s.files) && n <= |s.files| && ModsAt(s.files, Latest(s.files)) == s.lastMods
    requires p in s.callers && s.callers[p] == Checking(since, Latest(s.files)[..n], true)
    ensures Reaches(more, s') && run.states <= more.states && s' == Move(s, p, Checking(since, Latest(s.files), true))
    decreases |s.files| - n
  {
    hide Reaches;
    if n == |s.files| {
      more, s' := run, s;
      assert Latest(s.files)[..n] == Latest(s.files);
    } else {
      more, s' := Extend(run, s, FastStat(p, true));
      assert ModsAt(s.files, Latest(s.files))[n] == s.lastMods[n];
      var next := Checking(since, Latest(s.files)[..n + 1], true);
      LatestNext(s.files, n);
      assert s' == Move(s, p, next);
      more, s' := FastStats(more, s', p, since, n + 1);
      MoveTwice(s, p, next, Checking(since, Latest(s.files), true));
    }
  }

  lemma {:induction false} SlowStats(run: Run, s: State, p: nat, since: seq<nat>, n: nat) returns (more: Run, s': State)
    requires Reaches(run, s) && NoneMissing(s.files) && n <= |s.files|
    requires p in s.callers && s.callers[p] == Rechecking(since, Latest(s.files)[..n])
    ensures Reaches(more, s') && run.states <= more.states && s' == Move(s, p, Rechecking(since, Latest(s.files)))
    decreases |s.files| - n
  {
    hide Reaches;
    if n == |s.files| {
      more, s' := run, s;
      assert Latest(s.files)[..n] == Latest(s.files);
    } else {
      more, s' := Extend(run, s, SlowStat(p, true));
      var next := Rechecking(since, Latest(s.files)[..n + 1]);
      LatestNext(s.files, n);
      assert s' == Move(s, p, next);
      more, s' := SlowStats(more, s', p, since, n + 1);
      MoveTwice(s, p, next, Rechecking(since, Latest(s.files)));
    }
  }

  lemma {:induction false} Reads(run: Run, s: State, p: nat, since: seq<nat>, at: seq<nat>, n: nat) returns (more: Run, s': State)
    requires Reaches(run, s) && NoneMissing(s.files) && n <= |s.files|
    requires p in s.callers && s.callers[p] == Loading(since, at, Latest(s.files)[..n])
    ensures Reaches(more, s') && run.states <= more.states && s' == Move(s, p, Loading(since, at, Latest(s.files)))
    decreases |s.files| - n
  {
    hide Reaches;
    if n == |s.files| {
      more, s' := run, s;
      assert Latest(s.files)[..n] == Latest(s.files);
    } else {
      more, s' := Extend(run, s, Read(p, true));
      var next := Loading(since, at, Latest(s.files)[..n + 1]);
      LatestNext(s.files, n);
      assert s' == Move(s, p, next);
      more, s' := Reads(more, s', p, since, at, n + 1);
      MoveTwice(s, p, next, Loading(since, at, Latest(s.files)));
    }
  }

  /** A first call up to the write lock: nothing is cached yet. */
  lemma {:induction false} FirstMiss(files: seq<seq<Snapshot>>) returns (run: Run, s: State)
    requires files != [] && NoneMissing(files)
    ensures Reaches(run, s)
    ensures s == State(files, None, [], map[1 := Rechecking(Counts(s), [])], [], [])
  {
    s := State(files, None, [], map[], [], []);
    run := Run([s], []);
    assert Reaches(run, s);
    hide Reaches;
    var s0, since := s, Counts(s);
    run, s := Extend(run, s, Start(1));
    run, s := Extend(run, s, FastStat(1, false));
    assert s == s0.(callers := map[1 := Checking(since, [], false)]);
    run, s := Extend(run, s, FastDone(1));
    assert s == s0.(callers := map[1 := Waiting(since)]);
    run, s := Extend(run, s, Lock(1));
  }

  /** A first call up to its load: it has seen the mod times of the files as they are now. */
  lemma {:induction false} FirstLookup(files: seq<seq<Snapshot>>) returns (run: Run, s: State)
    requires files != [] && NoneMissing(files)
    ensures Reaches(run, s)
    ensures s == State(files, None, [], map[1 := Loading(Counts(s), Latest(files), [])], [], [])
  {
    run, s := FirstMiss(files);
    hide Reaches;
    var since := Counts(s);
    assert Latest(files)[..0] == [];
    run, s := SlowStats(run, s, 1, since, 0);
    assert s.callers == map[1 := Rechecking(since, Latest(files))];
    assert |ModsAt(files, Latest(files))| > 0;
    run, s := Extend(run, s, SlowDone(1));
    assert s.callers == map[1 := Loading(since, Latest(files), [])];
  }

  /** The load, after file f has been rewritten further: recorded mod times and contents come from different snapshots. */
  lemma {:induction false} LoadAcross(h: seq<seq<Snapshot>>, f: nat, i: nat, r: nat) returns (run: Run, s: State)
    requires f < |h| && NoneMissing(h) && i <= r < |h[f]|
    ensures Reaches(run, s) && s.files == UpTo(h, f, r + 1) && 1 in s.callers && s.callers.Keys == {1} && s.callers[1].Returned?
    ensures s.lastMods == ModsAt(UpTo(h, f, i + 1), Latest(UpTo(h, f, i + 1)))
    ensures s.cached == Some(ContentsAt(UpTo(h, f, r + 1), Latest(UpTo(h, f, r + 1))))
  {
    var early := UpTo(h, f, i + 1);
    run, s := FirstLookup(early);
    hide Reaches;
    var since := s.callers[1].since;
    run, s := RewriteUpTo(run, s, h, f, i + 1, r + 1);
    assert s.callers[1] == Loading(since, Latest(early), Latest(s.files)[..0]);
    run, s := Reads(run, s, 1, since, Latest(early), 0);
    assert ModsAt(s.files, Latest(early)) == ModsAt(early, Latest(early));
    run, s := Extend(run, s, Install(1, true));
  }

  /** A second call that finds every mod time as recorded returns what is cached. */
  lemma {:induction false} SecondCall(run: Run, s: State) returns (more: Run, s': State)
    requires Reaches(run, s) && NoneMissing(s.files) && ModsAt(s.files, Latest(s.files)) == s.lastMods && s.cached.Some?
    requires s.callers.Keys == {1} && s.callers[1].Returned?
    ensures Reaches(more, s') && run.states <= more.states && s'.files == s.files
    ensures 2 in s'.callers && s'.callers[2].Returned?
    ensures s'.callers[2].since == Counts(s) && s'.callers[2].value == s.cached.value
  {
    hide Reaches, ModsAt;
    var since := Counts(s);
    more, s' := Extend(run, s, Start(2));
    assert s' == Move(s, 2, Checking(since, Latest(s.files)[..0], true));
    more, s' := FastStats(more, s', 2, since, 0);
    more, s' := Extend(more, s', FastDone(2));
  }

  /**
   * If a mod time comes back, a run over that very history has a call that starts after it came
   * back and returns what the file held in between: the rewrite goes unnoticed.
   */
  lemma {:induction false} RepeatedModTimeGoesStale(h: seq<seq<Snapshot>>, f: nat, i: nat, r: nat, j: nat)
    returns (run: Run, k: nat)
    requires f < |h| && NoneMissing(h) && i <= r < j < |h[f]| && h[f][i].mod == h[f][j].mod
    ensures IsRun(run.states, run.actions) && |run.states| > 0 && run.states[|run.states| - 1].files == h && k < |run.states|
    ensures var s := run.states[k];
            && s.files == UpTo(h, f, j + 1) && 2 in s.callers && s.callers[2].Returned?
            && f < |s.callers[2].since| && s.callers[2].since[f] == j + 1
            && f < |s.callers[2].value| && s.callers[2].value[f] == h[f][r].content
  {
    var s: State;
    run, s := LoadAcross(h, f, i, r);
    hide Reaches;
    run, s := RewriteUpTo(run, s, h, f, r + 1, j + 1);
    SameMods(h, f, i, j);
    run, s := SecondCall(run, s);
    ReachesEnd(run, s);
    k := |run.states| - 1;
    run, s := RewriteUpTo(run, s, h, f, j + 1, |h[f]|);
    ReachesEnd(run, s);
    assert h[f][..|h[f]|] == h[f] && UpTo(h, f, |h[f]|) == h;
  }

  lemma {:induction false} SameMods(h: seq<seq<Snapshot>>, f: nat, i: nat, j: nat)
    requires f < |h| && NoneMissing(h) && i < |h[f]| && j < |h[f]| && h[f][i].mod == h[f][j].mod
    ensures ModsAt(UpTo(h, f, i + 1), Latest(UpTo(h, f, i + 1))) == ModsAt(UpTo(h, f, j + 1), Latest(UpTo(h, f, j + 1)))
  {
  }

  /** Every call of the run that has returned holds fresh contents, at every point. */
  ghost predicate FreshThroughout(run: Run) {
    forall k, p, f ::
      (0 <= k < |run.states| && p in run.states[k].callers && run.states[k].callers[p].Returned?
       && 0 <= f < |run.states[k].files|) ==> FreshFor(run.states[k], run.states[k].callers[p], f)
  }

  /** Every run over this history of the files. */
  ghost predicate AlwaysFresh(h: seq<seq<Snapshot>>) {
    forall run: Run :: (IsRun(run.states, run.actions) && |run.states| > 0 && run.states[|run.states| - 1].files == h) ==> FreshThroughout(run)
  }

  ghost predicate FreshFor(s: State, c: Caller, f: int)
    requires c.Returned?
  {
    0 <= f < |s.files| && f < |c.since| && f < |c.value| && Fresh(s.files[f], c.since[f], c.value[f])
  }

  lemma {:induction false} FilesGrow(states: seq<State>, actions: seq<Action>, k: nat, m: nat, f: nat)
    requires IsRun(states, actions) && k <= m < |states|
    ensures |states[k].files| == |states[m].files|
    ensures f < |states[k].files| ==> states[k].files[f] <= states[m].files[f]
    decreases m
  {
    if k < m {
      FilesGrow(states, actions, k, m - 1, f);
    }
  }

  /** A call returns only if every file is there. */
  lemma {:induction false} ReturnedMeansPresent(states: seq<State>, actions: seq<Action>, k: nat, p: nat)
    requires IsRun(states, actions) && k < |states| && p in states[k].callers && states[k].callers[p].Returned?
    ensures NoneMissing(states[|states| - 1].files)
  {
    RunInv(states, actions, k);
    assert CallerInv(states[k], states[k].callers[p]);
    var h := states[|states| - 1].files;
    forall f | 0 <= f < |h| ensures h[f] != [] {
      FilesGrow(states, actions, k, |states| - 1, f);
      assert states[k].callers[p].read[f] < |states[k].files[f]|;
    }
  }

  lemma {:induction false} UnambiguousIsFresh(run: Run, k: nat, p: nat, f: nat)
    requires IsRun(run.states, run.actions) && k < |run.states| && p in run.states[k].callers && run.states[k].callers[p].Returned?
    requires f < |run.states[k].files|
    requires var h := run.states[|run.states| - 1].files; NoneMissing(h) ==> forall g :: 0 <= g < |h| ==> Unambiguous(h[g])
    ensures FreshFor(run.states[k], run.states[k].callers[p], f)
  {
    ReturnedMeansPresent(run.states, run.actions, k, p);
    FilesGrow(run.states, run.actions, k, |run.states| - 1, f);
    assert Unambiguous(run.states[|run.states| - 1].files[f]);
    ReturnsFresh(run.states, run.actions, k, p, f);
  }

  lemma {:induction false} RunIsFresh(run: Run)
    requires IsRun(run.states, run.actions)
    requires var h := run.states[|run.states| - 1].files; NoneMissing(h) ==> forall g :: 0 <= g < |h| ==> Unambiguous(h[g])
    ensures FreshThroughout(run)
  {
    hide IsRun, NoneMissing, Unambiguous, FreshFor;
    forall k, p, f | 0 <= k < |run.states| && p in run.states[k].callers && run.states[k].callers[p].Returned?
      && 0 <= f < |run.states[k].files|
      ensures FreshFor(run.states[k], run.states[k].callers[p], f)
    {
      UnambiguousIsFresh(run, k, p, f);
    }
  }

  /** The other half: some run over an ambiguous history returns stale contents. */
  lemma {:induction false} AmbiguousIsStale(h: seq<seq<Snapshot>>, f: nat) returns (run: Run)
    requires NoneMissing(h) && f < |h| && !Unambiguous(h[f])
    ensures IsRun(run.states, run.actions) && |run.states| > 0 && run.states[|run.states| - 1].files == h && !FreshThroughout(run)
  {
    var i, r, j :| 0 <= i <= r < j < |h[f]| && h[f][i].mod == h[f][j].mod && h[f][r].content != h[f][j].content;
    var k;
    run, k := RepeatedModTimeGoesStale(h, f, i, r, j);
    hide IsRun;
    var s := run.states[k];
    assert s.files[f] == h[f][..j + 1];
    assert !FreshFor(s, s.callers[2], f);
  }

  /**
   * Every run over a history is fresh at every point exactly when a mod time never comes back with
   * other contents than the file held since its first use (or a file is missing and no call returns).
   */
  lemma {:induction false} FreshExactlyWhen(h: seq<seq<Snapshot>>)
    ensures AlwaysFresh(h) <==> (NoneMissing(h) ==> forall f :: 0 <= f < |h| ==> Unambiguous(h[f]))
  {
    hide IsRun, FreshThroughout, NoneMissing, Unambiguous;
    if NoneMissing(h) ==> forall f :: 0 <= f < |h| ==> Unambiguous(h[f]) {
      forall run: Run | IsRun(run.states, run.actions) && |run.states| > 0 && run.states[|run.states| - 1].files == h
        ensures FreshThroughout(run)
      {
        RunIsFresh(run);
      }
    } else {
      var f :| 0 <= f < |h| && !Unambiguous(h[f]);
      var run := AmbiguousIsStale(h, f);
    }
  }
}
