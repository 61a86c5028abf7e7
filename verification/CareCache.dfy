/**
 * The version-guarded care-schedule cache: any number of readers and writers of any number
 * of felines, each taking one cache or backend call per step, over a shared backend, cache
 * and version counter. Cache entries and version counters may expire.
 */
module CareCache {

  type Schedule = string

  /** A request after resolution: the path parameter, the canonical id and the alias ("" if none). */
  datatype Request = Request(feline: string, canonical: string, alias: string)

  datatype Proc =
    // getCareSchedule, after a cache miss
    | Missed(req: Request)
    | Versioned(req: Request, startVer: int)
    | Fetched(req: Request, startVer: int, cs: Schedule)
    | Checked(req: Request, cs: Schedule)
    | Aliasing(req: Request, cs: Schedule)
    // updateCareSchedule and toggleEmergencyMedicalHold
    | Writing(req: Request)
    | Updated(req: Request, updatedId: string)
    | Bumping(req: Request, updatedId: string, currVer: int)
    | Bumped(req: Request, updatedId: string)
    | Finished(req: Request)

  datatype State = State(
    backend: map<string, Schedule>,
    cache: map<string, Schedule>,
    versions: map<string, int>,
    procs: map<nat, Proc>)

  datatype Action =
    | StartRead(p: nat, req: Request)
    | GetVersion(p: nat)
    | Fetch(p: nat)
    | Recheck(p: nat)
    | Fill(p: nat)
    | FillAliases(p: nat)
    | StartWrite(p: nat, req: Request)
    | Commit(p: nat, value: Schedule, updatedId: string)
    | Refuse(p: nat)
    | ReadForBump(p: nat)
    | Bump(p: nat)
    | Delete(p: nat)
    | ExpireEntry(key: string)
    | ExpireVersion(id: string)

  /** An absent or expired version reads as zero. */
  function Version(s: State, id: string): (v: int) {
    if id in s.versions then s.versions[id] else 0
  }

  predicate Enabled(s: State, a: Action) {
    match a
    case StartRead(p, _) => p !in s.procs
    case StartWrite(p, _) => p !in s.procs
    case GetVersion(p) => p in s.procs && s.procs[p].Missed?
    case Fetch(p) => p in s.procs && s.procs[p].Versioned?
    case Recheck(p) => p in s.procs && s.procs[p].Fetched?
    case Fill(p) => p in s.procs && s.procs[p].Checked?
    case FillAliases(p) => p in s.procs && s.procs[p].Aliasing?
    case Commit(p, _, _) => p in s.procs && s.procs[p].Writing?
    case Refuse(p) => p in s.procs && s.procs[p].Writing?
    case ReadForBump(p) => p in s.procs && s.procs[p].Updated?
    case Bump(p) => p in s.procs && s.procs[p].Bumping?
    case Delete(p) => p in s.procs && s.procs[p].Bumped?
    case ExpireEntry(_) => true
    case ExpireVersion(_) => true
  }

  function AliasKeys(req: Request): (r: set<string>) {
    (if req.feline != req.canonical then {req.feline} else {}) + (if req.alias != "" then {req.alias} else {})
  }

  function DeletedKeys(req: Request, updatedId: string): (r: set<string>) {
    {req.canonical} + AliasKeys(req) + if updatedId != "" then {updatedId} else {}
  }

  function Move(s: State, p: nat, next: Proc): (r: State) {
    s.(procs := s.procs[p := next])
  }

  function Apply(s: State, a: Action): (r: State)
    requires Enabled(s, a)
  {
    match a
    case StartRead(p, req) => Move(s, p, if req.canonical in s.cache then Finished(req) else Missed(req))
    case GetVersion(p) =>
      var req := s.procs[p].req;
      Move(s, p, Versioned(req, Version(s, req.canonical)))
    case Fetch(p) =>
      var Versioned(req, ver) := s.procs[p];
      Move(s, p, if req.canonical in s.backend then Fetched(req, ver, s.backend[req.canonical]) else Finished(req))
    case Recheck(p) =>
      var Fetched(req, ver, cs) := s.procs[p];
      Move(s, p, if Version(s, req.canonical) == ver then Checked(req, cs) else Finished(req))
    case Fill(p) =>
      var Checked(req, cs) := s.procs[p];
      Move(s.(cache := s.cache[req.canonical := cs]), p, Aliasing(req, cs))
    case FillAliases(p) =>
      var Aliasing(req, cs) := s.procs[p];
      Move(s.(cache := s.cache + map key | key in AliasKeys(req) :: cs), p, Finished(req))
    case StartWrite(p, req) => Move(s, p, Writing(req))
    case Commit(p, value, updatedId) =>
      var req := s.procs[p].req;
      Move(s.(backend := s.backend[req.canonical := value]), p, Updated(req, updatedId))
    case Refuse(p) => Move(s, p, Finished(s.procs[p].req))
    case ReadForBump(p) =>
      var Updated(req, updatedId) := s.procs[p];
      Move(s, p, Bumping(req, updatedId, Version(s, req.canonical)))
    case Bump(p) =>
      var Bumping(req, updatedId, ver) := s.procs[p];
      Move(s.(versions := s.versions[req.canonical := ver + 1]), p, Bumped(req, updatedId))
    case Delete(p) =>
      var Bumped(req, updatedId) := s.procs[p];
      Move(s.(cache := s.cache - DeletedKeys(req, updatedId)), p, Finished(req))
    case ExpireEntry(key) => s.(cache := s.cache - {key})
    case ExpireVersion(id) => s.(versions := s.versions - {id})
  }

  // ---- Coherence ----

  /** A writer of id between its backend update and its delete. */
  predicate InWindow(q: Proc, id: string) {
    (q.Updated? || q.Bumping? || q.Bumped?) && q.req.canonical == id
  }

  /** A writer that has still to set the version, and from a value that is not below ver. */
  predicate WillPass(q: Proc, id: string, ver: int) {
    (q.Updated? || (q.Bumping? && q.currVer >= ver)) && q.req.canonical == id
  }

  predicate Current(s: State, id: string, cs: Schedule) {
    id in s.backend && s.backend[id] == cs
  }

  ghost predicate WriterIn(s: State, id: string) {
    exists p :: p in s.procs && InWindow(s.procs[p], id)
  }

  /** Some writer will set the version past ver. */
  ghost predicate WriterPassing(s: State, id: string, ver: int) {
    exists p :: p in s.procs && WillPass(s.procs[p], id, ver)
  }

  /** Whenever no writer is inside its window, an entry under the canonical id is the backend's value. */
  ghost predicate Coherent(s: State, id: string) {
    !WriterIn(s, id) && id in s.cache ==> Current(s, id, s.cache[id])
  }

  // ---- The exact condition, one store at a time ----

  /** The step puts an entry under id that is not the backend's value, with no writer of id to remove it. */
  ghost predicate StoresStale(s: State, a: Action, id: string)
    requires Enabled(s, a)
  {
    match a
    case Fill(p) => s.procs[p].req.canonical == id && !Current(s, id, s.procs[p].cs) && !WriterIn(s, id)
    case FillAliases(p) => id in AliasKeys(s.procs[p].req) && !Current(s, id, s.procs[p].cs) && !WriterIn(s, id)
    case _ => false
  }

  /** Only the process itself moves; the other writers stay where they are. */
  lemma {:induction false} WritersStay(s: State, a: Action, id: string)
    requires Enabled(s, a)
    ensures WriterIn(s, id) && !(a.Delete? && s.procs[a.p].req.canonical == id) ==> WriterIn(Apply(s, a), id)
    ensures WriterIn(Apply(s, a), id) && !(a.Commit? && s.procs[a.p].req.canonical == id) ==> WriterIn(s, id)
  {
    var s' := Apply(s, a);
    if WriterIn(s, id) {
      var q :| q in s.procs && InWindow(s.procs[q], id);
      assert q in s'.procs;
    }
    if WriterIn(s', id) {
      var q :| q in s'.procs && InWindow(s'.procs[q], id);
      assert q in s.procs || !InWindow(s'.procs[q], id);
    }
  }

  lemma {:induction false} NewWriter(s: State, a: Action)
    requires Enabled(s, a) && a.Commit?
    ensures WriterIn(Apply(s, a), s.procs[a.p].req.canonical)
  {
    assert InWindow(Apply(s, a).procs[a.p], s.procs[a.p].req.canonical);
  }

  /** No step but such a store takes coherence away. */
  lemma {:induction false} StepExact(s: State, a: Action, id: string)
    requires Enabled(s, a) && Coherent(s, id)
    ensures Coherent(Apply(s, a), id) <==> !StoresStale(s, a, id)
  {
    WritersStay(s, a, id);
    if a.Commit? && s.procs[a.p].req.canonical == id {
      NewWriter(s, a);
    }
    hide WriterIn;
  }

  /** A run of any processes, with nobody active at first. */
  ghost predicate IsRun(states: seq<State>, actions: seq<Action>) {
    && |states| == |actions| + 1
    && states[0].procs == map[]
    && (forall k :: 0 <= k < |actions| ==> Enabled(states[k], actions[k]) && states[k + 1] == Apply(states[k], actions[k]))
  }

  /**
   * Over any run whatever, from a coherent entry: the entry stays coherent at every point exactly
   * when no fill stores under it a value that is not the backend's outside every writer's window.
   */
  lemma {:induction false} RunExact(states: seq<State>, actions: seq<Action>, id: string)
    requires IsRun(states, actions) && Coherent(states[0], id)
    ensures (forall k :: 0 <= k < |states| ==> Coherent(states[k], id))
       <==> (forall k :: 0 <= k < |actions| ==> !StoresStale(states[k], actions[k], id))
  {
    hide Coherent, StoresStale;
    if forall k :: 0 <= k < |actions| ==> !StoresStale(states[k], actions[k], id) {
      CoherentUpTo(states, actions, id, |actions|);
    } else if forall k :: 0 <= k < |states| ==> Coherent(states[k], id) {
      var k :| 0 <= k < |actions| && StoresStale(states[k], actions[k], id);
      StepExact(states[k], actions[k], id);
      assert Coherent(states[k + 1], id);
    }
  }

  lemma {:induction false} CoherentUpTo(states: seq<State>, actions: seq<Action>, id: string, n: nat)
    requires IsRun(states, actions) && Coherent(states[0], id) && n <= |actions|
    requires forall k :: 0 <= k < |actions| ==> !StoresStale(states[k], actions[k], id)
    ensures forall k :: 0 <= k <= n ==> Coherent(states[k], id)
    decreases n
  {
    hide Coherent, StoresStale;
    if n > 0 {
      CoherentUpTo(states, actions, id, n - 1);
      StepExact(states[n - 1], actions[n - 1], id);
    }
  }

  // ---- A discipline that keeps stale stores away ----

  /** The request does not carry id as an alias, or as a path parameter that names another feline. */
  predicate Apart(req: Request, id: string) {
    id !in AliasKeys(req)
  }

  predicate ApartAction(a: Action, id: string) {
    a.StartRead? || a.StartWrite? ==> Apart(a.req, id)
  }

  /**
   * What the two atomic pairs and the long version lifetime more than guarantee: a bump never
   * lowers the version, no delete falls between a re-check and its fill, and no version expires
   * under a reader.
   */
  ghost predicate Disciplined(s: State, a: Action)
    requires Enabled(s, a)
  {
    match a
    case Bump(p) => s.procs[p].currVer + 1 >= Version(s, s.procs[p].req.canonical)
    case Delete(p) => forall q :: q in s.procs && s.procs[q].Checked? ==> s.procs[q].req.canonical != s.procs[p].req.canonical
    case ExpireVersion(id) =>
      forall q :: q in s.procs && (s.procs[q].Versioned? || s.procs[q].Fetched?) ==> s.procs[q].req.canonical != id
    case _ => true
  }

  /** What a reader of id knows about the version it started from and the value it holds. */
  ghost predicate ProcInv(s: State, q: Proc, id: string) {
    && Apart(q.req, id)
    && (q.req.canonical == id ==>
          && (q.Versioned? || q.Fetched? ==> q.startVer <= Version(s, id))
          && (q.Fetched? && q.startVer == Version(s, id) ==> Current(s, id, q.cs) || WriterPassing(s, id, q.startVer))
          && (q.Checked? ==> Current(s, id, q.cs) || WriterIn(s, id)))
  }

  ghost predicate Inv(s: State, id: string) {
    Coherent(s, id) && forall p :: p in s.procs ==> ProcInv(s, s.procs[p], id)
  }

  /** A writer that will pass a version goes on to, or just has. */
  lemma {:induction false} PassingStays(s: State, a: Action, id: string, ver: int)
    requires Enabled(s, a) && WriterPassing(s, id, ver) && ver <= Version(s, id)
    ensures WriterPassing(Apply(s, a), id, ver) || (a.Bump? && s.procs[a.p].req.canonical == id && s.procs[a.p].currVer >= ver)
  {
    var q :| q in s.procs && WillPass(s.procs[q], id, ver);
    assert q in Apply(s, a).procs;
    assert WillPass(Apply(s, a).procs[q], id, ver) || (a.Bump? && a.p == q);
  }

  lemma {:induction false} NewPassing(s: State, a: Action, ver: int)
    requires Enabled(s, a) && a.Commit?
    ensures WriterPassing(Apply(s, a), s.procs[a.p].req.canonical, ver)
  {
    assert WillPass(Apply(s, a).procs[a.p], s.procs[a.p].req.canonical, ver);
  }

  lemma {:induction false} PassingIsIn(s: State, id: string, ver: int)
    ensures WriterPassing(s, id, ver) ==> WriterIn(s, id)
  {
    if WriterPassing(s, id, ver) {
      var w :| w in s.procs && WillPass(s.procs[w], id, ver);
      assert InWindow(s.procs[w], id);
    }
  }

  predicate Moves(a: Action, q: nat) {
    !a.ExpireEntry? && !a.ExpireVersion? && a.p == q
  }

  /** What one step does to a feline's schedule and version. */
  lemma {:induction false} StepEffects(s: State, a: Action, id: string)
    requires Enabled(s, a)
    ensures var s' := Apply(s, a);
            && ((a.Commit? && s.procs[a.p].req.canonical == id) ||
                ((id in s'.backend <==> id in s.backend) && (id in s.backend ==> s'.backend[id] == s.backend[id])))
            && Version(s', id)
            == if a.Bump? && s.procs[a.p].req.canonical == id then s.procs[a.p].currVer + 1
               else if a.ExpireVersion? && a.id == id then 0
               else Version(s, id)
  {
  }

  lemma {:induction false} BystanderStays(s: State, a: Action, q: nat)
    requires Enabled(s, a) && q in s.procs && !Moves(a, q)
    ensures q in Apply(s, a).procs && Apply(s, a).procs[q] == s.procs[q]
  {
  }

  lemma {:induction false} KeepsBystander(s: State, a: Action, id: string, q: nat)
    requires Enabled(s, a) && Disciplined(s, a)
    requires q in s.procs && !Moves(a, q) && ProcInv(s, s.procs[q], id)
    ensures q in Apply(s, a).procs && Apply(s, a).procs[q] == s.procs[q]
    ensures ProcInv(Apply(s, a), s.procs[q], id)
  {
    var c := s.procs[q];
    WritersStay(s, a, id);
    StepEffects(s, a, id);
    BystanderStays(s, a, q);
    if c.req.canonical == id && c.Fetched? && WriterPassing(s, id, c.startVer) {
      PassingStays(s, a, id, c.startVer);
    }
    if a.Commit? && s.procs[a.p].req.canonical == id {
      NewWriter(s, a);
      if c.Fetched? {
        NewPassing(s, a, c.startVer);
      }
    }
    hide Apply, WriterIn, WriterPassing, Version;
  }

  lemma {:induction false} KeepsMover(s: State, a: Action, id: string, q: nat)
    requires Enabled(s, a) && ApartAction(a, id) && Moves(a, q)
    requires q in s.procs ==> ProcInv(s, s.procs[q], id)
    ensures q in Apply(s, a).procs
    ensures ProcInv(Apply(s, a), Apply(s, a).procs[q], id)
  {
    if a.Recheck? {
      WritersStay(s, a, id);
      PassingIsIn(s, id, s.procs[q].startVer);
    }
  }

  lemma {:induction false} KeepsProc(s: State, a: Action, id: string, q: nat)
    requires Enabled(s, a) && Inv(s, id) && ApartAction(a, id) && Disciplined(s, a)
    requires q in Apply(s, a).procs
    ensures ProcInv(Apply(s, a), Apply(s, a).procs[q], id)
  {
    if Moves(a, q) {
      hide ProcInv, Coherent;
      KeepsMover(s, a, id, q);
    } else {
      hide ProcInv, Coherent, Disciplined;
      KeepsBystander(s, a, id, q);
    }
  }

  /** Under the invariant no step stores a stale entry. */
  lemma {:induction false} NoStaleStore(s: State, a: Action, id: string)
    requires Enabled(s, a) && Inv(s, id)
    ensures !StoresStale(s, a, id)
  {
    if a.Fill? || a.FillAliases? {
      assert ProcInv(s, s.procs[a.p], id);
    }
  }

  lemma {:induction false} StepKeepsInv(s: State, a: Action, id: string)
    requires Enabled(s, a) && Inv(s, id) && ApartAction(a, id) && Disciplined(s, a)
    ensures Inv(Apply(s, a), id)
  {
    hide Coherent, ProcInv, Apply, Disciplined;
    NoStaleStore(s, a, id);
    StepExact(s, a, id);
    forall q | q in Apply(s, a).procs ensures ProcInv(Apply(s, a), Apply(s, a).procs[q], id) {
      KeepsProc(s, a, id, q);
    }
  }

  // ---- Disciplined runs ----

  /** The entry under id starts out coherent, and no request carries id for another purpose. */
  ghost predicate KeepsApart(states: seq<State>, actions: seq<Action>, id: string)
    requires states != []
  {
    Coherent(states[0], id) && forall k :: 0 <= k < |actions| ==> ApartAction(actions[k], id)
  }

  ghost predicate DisciplinedRun(states: seq<State>, actions: seq<Action>)
    requires IsRun(states, actions)
  {
    forall k :: 0 <= k < |actions| ==> Disciplined(states[k], actions[k])
  }

  /** Every disciplined interleaving keeps the entry coherent at every point. */
  lemma {:induction false} DisciplinedRunCoherent(states: seq<State>, actions: seq<Action>, id: string, k: nat)
    requires IsRun(states, actions) && KeepsApart(states, actions, id) && DisciplinedRun(states, actions) && k < |states|
    ensures Inv(states[k], id) && Coherent(states[k], id)
    decreases k
  {
    if k > 0 {
      DisciplinedRunCoherent(states, actions, id, k - 1);
      StepKeepsInv(states[k - 1], actions[k - 1], id);
    }
  }

  // ---- Atomic runs ----

  /** The re-check and fill of a reader, and the get and bump of a writer, run without interruption. */
  ghost predicate AtomicPairs(states: seq<State>, actions: seq<Action>)
    requires |states| == |actions| + 1
  {
    forall k :: 0 <= k < |actions| - 1 ==>
      && (actions[k].Recheck? && actions[k].p in states[k + 1].procs && states[k + 1].procs[actions[k].p].Checked? ==>
            actions[k + 1] == Fill(actions[k].p))
      && (actions[k].ReadForBump? ==> actions[k + 1] == Bump(actions[k].p))
  }

  /** No reader is between its version read and its re-check when that version expires. */
  ghost predicate VersionsOutliveReaders(states: seq<State>, actions: seq<Action>)
    requires |states| == |actions| + 1
  {
    forall k, q ::
      && 0 <= k < |actions| && actions[k].ExpireVersion? && q in states[k].procs
      && (states[k].procs[q].Versioned? || states[k].procs[q].Fetched?)
      ==> states[k].procs[q].req.canonical != actions[k].id
  }

  lemma {:induction false} AtomicStep(states: seq<State>, actions: seq<Action>, k: nat)
    requires IsRun(states, actions) && AtomicPairs(states, actions) && k < |states|
    ensures forall q :: q in states[k].procs && states[k].procs[q].Checked? ==> k > 0 && actions[k - 1] == Recheck(q)
    ensures forall q :: q in states[k].procs && states[k].procs[q].Bumping? ==>
              && k > 0 && actions[k - 1] == ReadForBump(q)
              && states[k].procs[q].currVer == Version(states[k], states[k].procs[q].req.canonical)
    decreases k
  {
    if k > 0 {
      AtomicStep(states, actions, k - 1);
      var s, a := states[k - 1], actions[k - 1];
      assert Enabled(s, a) && states[k] == Apply(s, a);
      if k > 1 {
        var e := actions[k - 2];
        assert e.ReadForBump? ==> a == Bump(e.p);
        assert e.Recheck? && e.p in s.procs && s.procs[e.p].Checked? ==> a == Fill(e.p);
      }
    }
  }

  /**
   * With the two pairs atomic and no reader outliving a version, the entry of a feline whose id
   * no request carries for another purpose is coherent at every point of every interleaving of
   * any number of readers and writers.
   */
  lemma {:induction false} AtomicRunCoherent(states: seq<State>, actions: seq<Action>, id: string, k: nat)
    requires IsRun(states, actions) && KeepsApart(states, actions, id) && k < |states|
    requires AtomicPairs(states, actions) && VersionsOutliveReaders(states, actions)
    ensures Coherent(states[k], id)
  {
    forall j | 0 <= j < |actions| ensures Disciplined(states[j], actions[j]) {
      AtomicStep(states, actions, j);
      if actions[j].Delete? && j > 0 {
        assert forall q :: q in states[j].procs && states[j].procs[q].Checked? ==> actions[j] == Fill(q);
      }
    }
    DisciplinedRunCoherent(states, actions, id, k);
  }

  // ---- Which requests atomic runs can serve ----

  datatype Run = Run(states: seq<State>, actions: seq<Action>)

  /** An atomic run that serves only these requests, from a coherent entry under id. */
  ghost predicate Serves(run: Run, requests: set<Request>, id: string) {
    && IsRun(run.states, run.actions) && Coherent(run.states[0], id)
    && AtomicPairs(run.states, run.actions) && VersionsOutliveReaders(run.states, run.actions)
    && forall k :: 0 <= k < |run.actions| && (run.actions[k].StartRead? || run.actions[k].StartWrite?) ==> run.actions[k].req in requests
  }

  ghost predicate AlwaysCoherent(requests: set<Request>, id: string) {
    forall run, k :: Serves(run, requests, id) && 0 <= k < |run.states| ==> Coherent(run.states[k], id)
  }

  ghost predicate At(run: Run, s: State, requests: set<Request>, id: string) {
    Serves(run, requests, id) && run.states[|run.states| - 1] == s
  }

  /** Whether a step may come next in an atomic run: it finishes a pair begun just before, and starts no other request. */
  ghost predicate MayFollow(run: Run, a: Action, requests: set<Request>) {
    && !a.ExpireVersion? && (a.StartRead? || a.StartWrite? ==> a.req in requests)
    && (run.actions != [] ==>
          var e := run.actions[|run.actions| - 1];
          (e.Recheck? ==> a == Fill(e.p)) && (e.ReadForBump? ==> a == Bump(e.p)))
  }

  lemma {:induction false} FollowRun(run: Run, s: State, a: Action)
    requires IsRun(run.states, run.actions) && run.states[|run.states| - 1] == s && Enabled(s, a)
    ensures IsRun(run.states + [Apply(s, a)], run.actions + [a])
  {
    hide Apply, Enabled;
  }

  lemma {:induction false} FollowPairs(run: Run, s: State, a: Action, s': State, requests: set<Request>)
    requires |run.states| == |run.actions| + 1 && AtomicPairs(run.states, run.actions) && MayFollow(run, a, requests)
    ensures AtomicPairs(run.states + [s'], run.actions + [a])
  {
    var states, actions := run.states + [s'], run.actions + [a];
    forall k | 0 <= k < |run.actions|
      ensures (actions[k].Recheck? && actions[k].p in states[k + 1].procs && states[k + 1].procs[actions[k].p].Checked? ==>
                 actions[k + 1] == Fill(actions[k].p))
              && (actions[k].ReadForBump? ==> actions[k + 1] == Bump(actions[k].p))
    {
      if k < |run.actions| - 1 {
        assert actions[k + 1] == run.actions[k + 1] && states[k + 1] == run.states[k + 1];
      }
    }
  }

  lemma {:induction false} Follow(run: Run, s: State, a: Action, requests: set<Request>, id: string) returns (more: Run, s': State)
    requires At(run, s, requests, id) && Enabled(s, a) && MayFollow(run, a, requests)
    ensures At(more, s', requests, id) && s' == Apply(s, a)
    ensures more.actions != [] && more.actions[|more.actions| - 1] == a
  {
    s' := Apply(s, a);
    more := Run(run.states + [s'], run.actions + [a]);
    FollowRun(run, s, a);
    FollowPairs(run, s, a, s', requests);
    hide IsRun, AtomicPairs, Coherent, Apply, Enabled;
    assert VersionsOutliveReaders(more.states, more.actions);
  }

  /** A reader up to its re-check, from an empty cache. */
  lemma {:induction false} ReadAlone(req: Request, backend: map<string, Schedule>, requests: set<Request>, id: string)
    returns (run: Run, s: State)
    requires req in requests && req.canonical in backend
    ensures At(run, s, requests, id) && run.actions != [] && run.actions[|run.actions| - 1].Fetch?
    ensures s == State(backend, map[], map[], map[1 := Fetched(req, 0, backend[req.canonical])])
  {
    s := State(backend, map[], map[], map[]);
    run := Run([s], []);
    assert At(run, s, requests, id);
    hide At;
    run, s := Follow(run, s, StartRead(1, req), requests, id);
    assert s == State(backend, map[], map[], map[1 := Missed(req)]);
    run, s := Follow(run, s, GetVersion(1), requests, id);
    run, s := Follow(run, s, Fetch(1), requests, id);
  }

  /** A reader up to and including its fill. */
  lemma {:induction false} ReadAndFill(req: Request, backend: map<string, Schedule>, requests: set<Request>, id: string)
    returns (run: Run, s: State)
    requires req in requests && req.canonical in backend
    ensures At(run, s, requests, id) && run.actions != [] && run.actions[|run.actions| - 1] == Fill(1)
    ensures s == State(backend, map[req.canonical := backend[req.canonical]], map[], map[1 := Aliasing(req, backend[req.canonical])])
  {
    hide At;
    run, s := ReadAlone(req, backend, requests, id);
    run, s := Follow(run, s, Recheck(1), requests, id);
    assert s == State(backend, map[], map[], map[1 := Checked(req, backend[req.canonical])]);
    run, s := Follow(run, s, Fill(1), requests, id);
  }

  /** An update of a feline by process 2, up to its backend call. */
  lemma {:induction false} CommitBy2(run: Run, s: State, req: Request, value: Schedule, requests: set<Request>, id: string)
    returns (more: Run, s': State)
    requires At(run, s, requests, id) && run.actions != [] && run.actions[|run.actions| - 1].Fill?
    requires req in requests && 2 !in s.procs
    ensures At(more, s', requests, id) && more.actions != [] && more.actions[|more.actions| - 1].Commit?
    ensures s' == s.(backend := s.backend[req.canonical := value], procs := s.procs[2 := Updated(req, "")])
  {
    hide At;
    more, s' := Follow(run, s, StartWrite(2, req), requests, id);
    more, s' := Follow(more, s', Commit(2, value, ""), requests, id);
    assert s'.procs == s.procs[2 := Updated(req, "")];
  }

  /** A whole update of a feline by process 2. */
  lemma {:induction false} Overwrite(run: Run, s: State, req: Request, value: Schedule, requests: set<Request>, id: string)
    returns (more: Run, s': State)
    requires At(run, s, requests, id) && run.actions != [] && run.actions[|run.actions| - 1].Fill?
    requires req in requests && 2 !in s.procs
    ensures At(more, s', requests, id) && more.actions != [] && more.actions[|more.actions| - 1].Delete?
    ensures s'.backend == s.backend[req.canonical := value] && s'.procs == s.procs[2 := Finished(req)]
  {
    hide At;
    more, s' := CommitBy2(run, s, req, value, requests, id);
    more, s' := Follow(more, s', ReadForBump(2), requests, id);
    more, s' := Follow(more, s', Bump(2), requests, id);
    assert s'.procs == s.procs[2 := Bumped(req, "")];
    more, s' := Follow(more, s', Delete(2), requests, id);
    assert s'.procs == s.procs[2 := Finished(req)];
  }

  /**
   * A reader whose alias is the feline's own id stores its schedule a second time, outside the
   * re-check: a whole update in between leaves the old schedule cached, with both pairs atomic.
   */
  lemma {:induction false} OwnAliasBreaks(req: Request, requests: set<Request>, before: Schedule, after: Schedule)
    returns (run: Run, s: State)
    requires req in requests && req.canonical in AliasKeys(req) && before != after
    ensures At(run, s, requests, req.canonical) && !Coherent(s, req.canonical)
  {
    var id := req.canonical;
    run, s := ReadAndFill(req, map[id := before], requests, id);
    run, s := Overwrite(run, s, req, after, requests, id);
    run, s := Follow(run, s, FillAliases(1), requests, id);
    assert !WriterIn(s, id);
  }

  /** A reader whose alias or path parameter is another feline's id caches its schedule as the other's. */
  lemma {:induction false} ForeignAliasBreaks(req: Request, requests: set<Request>, id: string, one: Schedule, other: Schedule)
    returns (run: Run, s: State)
    requires req in requests && id in AliasKeys(req) && id != req.canonical && one != other
    ensures At(run, s, requests, id) && !Coherent(s, id)
  {
    run, s := ReadAndFill(req, map[req.canonical := one, id := other], requests, id);
    run, s := Follow(run, s, FillAliases(1), requests, id);
    assert !WriterIn(s, id);
  }

  /**
   * Atomic runs over a set of requests keep the entry under id coherent, all of them at every
   * point, exactly when no request carries id as its alias or as a path parameter for another feline.
   */
  lemma {:induction false} CoherentExactlyWhen(requests: set<Request>, id: string)
    ensures AlwaysCoherent(requests, id)
       <==> forall req :: req in requests ==> !(req.alias == id && id != "") && !(req.feline == id && req.canonical != id)
  {
    forall req | req in requests
      ensures Apart(req, id) <==> !(req.alias == id && id != "") && !(req.feline == id && req.canonical != id)
    {
    }
    hide Apart;
    if forall req :: req in requests ==> Apart(req, id) {
      forall run, k | Serves(run, requests, id) && 0 <= k < |run.states| ensures Coherent(run.states[k], id) {
        AtomicRunCoherent(run.states, run.actions, id, k);
      }
    } else {
      var req :| req in requests && !Apart(req, id);
      var run, s;
      if req.canonical == id {
        run, s := OwnAliasBreaks(req, requests, "before", "after");
      } else {
        run, s := ForeignAliasBreaks(req, requests, id, "one", "other");
      }
    }
  }

  // ---- Requests served without interruption ----

  /** The keys a request stores and drops entries under, besides the updated record's own. */
  ghost predicate Names(req: Request, key: string) {
    key == req.canonical || key == req.feline || (key == req.alias && key != "")
  }

  ghost predicate Follows(s: State, a: Action, s': State) {
    Enabled(s, a) && s' == Apply(s, a)
  }

  /** A read that misses, alone: the backend's schedule is cached under all the request's names and nothing else changes. */
  lemma {:induction false} ReadAloneCaches(states: seq<State>, p: nat, req: Request)
    requires |states| == 7 && p !in states[0].procs && req.canonical !in states[0].cache && req.canonical in states[0].backend
    requires Follows(states[0], StartRead(p, req), states[1]) && Follows(states[1], GetVersion(p), states[2])
    requires Follows(states[2], Fetch(p), states[3]) && Follows(states[3], Recheck(p), states[4])
    requires Follows(states[4], Fill(p), states[5]) && Follows(states[5], FillAliases(p), states[6])
    ensures states[6].backend == states[0].backend && states[6].versions == states[0].versions
    ensures forall key :: Names(req, key) ==> key in states[6].cache && states[6].cache[key] == states[0].backend[req.canonical]
    ensures forall key :: !Names(req, key) ==>
              (key in states[6].cache <==> key in states[0].cache) && (key in states[0].cache ==> states[6].cache[key] == states[0].cache[key])
  {
    var s := states[0];
    var v, cs := Version(s, req.canonical), s.backend[req.canonical];
    assert states[1] == Move(s, p, Missed(req));
    assert states[2].procs[p] == Versioned(req, v) && states[2].cache == s.cache && states[2].backend == s.backend && states[2].versions == s.versions;
    assert states[3].procs[p] == Fetched(req, v, cs) && states[3].cache == s.cache && states[3].backend == s.backend && states[3].versions == s.versions;
    assert states[4].procs[p] == Checked(req, cs) && states[4].cache == s.cache && states[4].backend == s.backend && states[4].versions == s.versions;
    assert states[5].procs[p] == Aliasing(req, cs) && states[5].cache == s.cache[req.canonical := cs] && states[5].backend == s.backend && states[5].versions == s.versions;
    assert states[6].cache == s.cache[req.canonical := cs] + map key | key in AliasKeys(req) :: cs;
  }

  /** A hit changes nothing. */
  lemma {:induction false} HitChangesNothing(s: State, p: nat, req: Request)
    requires p !in s.procs && req.canonical in s.cache
    ensures Enabled(s, StartRead(p, req))
    ensures var s' := Apply(s, StartRead(p, req));
            s'.backend == s.backend && s'.cache == s.cache && s'.versions == s.versions && s'.procs == s.procs[p := Finished(req)]
  {
  }

  /**
   * An update, alone: the backend holds the new schedule, the version is one higher, and no entry is
   * left under the request's names or the updated record's id; everything else stays.
   */
  lemma {:induction false} UpdateAloneDrops(states: seq<State>, p: nat, req: Request, value: Schedule, updatedId: string)
    requires |states| == 6 && p !in states[0].procs
    requires Follows(states[0], StartWrite(p, req), states[1]) && Follows(states[1], Commit(p, value, updatedId), states[2])
    requires Follows(states[2], ReadForBump(p), states[3]) && Follows(states[3], Bump(p), states[4]) && Follows(states[4], Delete(p), states[5])
    ensures states[5].backend == states[0].backend[req.canonical := value]
    ensures states[5].versions == states[0].versions[req.canonical := Version(states[0], req.canonical) + 1]
    ensures forall key :: key in states[5].cache <==>
              key in states[0].cache && !Names(req, key) && !(key == updatedId && key != "")
    ensures forall key :: key in states[5].cache ==> states[5].cache[key] == states[0].cache[key]
  {
    var s := states[0];
    var v := Version(s, req.canonical);
    assert states[1] == Move(s, p, Writing(req));
    assert states[2].procs[p] == Updated(req, updatedId) && states[2].cache == s.cache && states[2].versions == s.versions;
    assert states[3].procs[p] == Bumping(req, updatedId, v) && states[3].cache == s.cache && states[3].versions == s.versions;
    assert states[4].procs[p] == Bumped(req, updatedId) && states[4].cache == s.cache;
    assert states[5].cache == s.cache - DeletedKeys(req, updatedId);
  }

  /** A refused update and a read of an unknown feline change nothing but their own state. */
  lemma {:induction false} FailuresChangeNothing(s: State, p: nat)
    requires p in s.procs && (s.procs[p].Writing? || (s.procs[p].Versioned? && s.procs[p].req.canonical !in s.backend))
    ensures var a := if s.procs[p].Writing? then Refuse(p) else Fetch(p);
            && Enabled(s, a)
            && var s' := Apply(s, a);
               && s'.backend == s.backend && s'.cache == s.cache && s'.versions == s.versions
               && s'.procs == s.procs[p := Finished(s.procs[p].req)]
  {
  }

  // ---- Each clause of the discipline is needed ----

  datatype Clause = OnBump | OnDelete | OnExpiry

  /** Disciplined but for the waived clause. */
  ghost predicate Allowed(s: State, a: Action, id: string, waived: Clause) {
    && Enabled(s, a) && ApartAction(a, id)
    && match waived
       case OnBump => a.Bump? || Disciplined(s, a)
       case OnDelete => a.Delete? || Disciplined(s, a)
       case OnExpiry => a.ExpireVersion? || Disciplined(s, a)
  }

  function Exec(s: State, actions: seq<Action>): (r: State) {
    if actions == [] then s
    else
      var m, a := Exec(s, actions[..|actions| - 1]), actions[|actions| - 1];
      if Enabled(m, a) then Apply(m, a) else m
  }

  ghost predicate AllAllowed(s: State, actions: seq<Action>, id: string, waived: Clause) {
    actions != [] ==>
      && AllAllowed(s, actions[..|actions| - 1], id, waived)
      && Allowed(Exec(s, actions[..|actions| - 1]), actions[|actions| - 1], id, waived)
  }

  /** The actions, each allowed in its turn, lead from s to s'. */
  ghost predicate Reaches(s: State, actions: seq<Action>, s': State, id: string, waived: Clause) {
    AllAllowed(s, actions, id, waived) && s' == Exec(s, actions)
  }

  lemma {:induction false} Extend(s: State, actions: seq<Action>, m: State, a: Action, id: string, waived: Clause)
    returns (more: seq<Action>)
    requires Reaches(s, actions, m, id, waived) && Allowed(m, a, id, waived)
    ensures more == actions + [a] && Reaches(s, more, Apply(m, a), id, waived)
  {
    hide Allowed, Apply;
    more := actions + [a];
    assert more[..|actions|] == actions;
    assert Enabled(m, a) by { AllowedEnabled(m, a, id, waived); }
  }

  lemma {:induction false} AllowedEnabled(m: State, a: Action, id: string, waived: Clause)
    requires Allowed(m, a, id, waived)
    ensures Enabled(m, a)
  {
  }

  function Plain(id: string): (req: Request) {
    Request(id, id, "")
  }

  ghost predicate NoneChecked(s: State) {
    forall q :: q in s.procs ==> !s.procs[q].Checked?
  }

  /** A writer up to the point where it is about to set the version. */
  lemma {:induction false} UpdateUpToBump(s: State, actions: seq<Action>, m: State, p: nat, id: string, value: Schedule, waived: Clause)
    returns (more: seq<Action>, m': State)
    requires Reaches(s, actions, m, id, waived) && p !in m.procs && id != ""
    ensures Reaches(s, more, m', id, waived)
    ensures m' == m.(backend := m.backend[id := value], procs := m.procs[p := Bumping(Plain(id), "", Version(m, id))])
  {
    hide Reaches;
    var req := Plain(id);
    more := Extend(s, actions, m, StartWrite(p, req), id, waived);
    m' := Apply(m, StartWrite(p, req));
    more := Extend(s, more, m', Commit(p, value, ""), id, waived);
    m' := Apply(m', Commit(p, value, ""));
    more := Extend(s, more, m', ReadForBump(p), id, waived);
    m' := Apply(m', ReadForBump(p));
    assert m'.procs == m.procs[p := Bumping(req, "", Version(m, id))];
  }

  /** The rest of an update: set the version, drop the entry. */
  lemma {:induction false} BumpAndDelete(s: State, actions: seq<Action>, m: State, p: nat, id: string, ver: int, waived: Clause)
    returns (more: seq<Action>, m': State)
    requires Reaches(s, actions, m, id, waived) && id != ""
    requires p in m.procs && m.procs[p] == Bumping(Plain(id), "", ver)
    requires ver == Version(m, id) || waived == OnBump
    requires NoneChecked(m) || waived == OnDelete
    ensures Reaches(s, more, m', id, waived)
    ensures m' == m.(cache := m.cache - {id}, versions := m.versions[id := ver + 1], procs := m.procs[p := Finished(Plain(id))])
  {
    hide Reaches;
    more := Extend(s, actions, m, Bump(p), id, waived);
    m' := Apply(m, Bump(p));
    more := Extend(s, more, m', Delete(p), id, waived);
    m' := Apply(m', Delete(p));
    assert DeletedKeys(Plain(id), "") == {id};
    assert m'.procs == m.procs[p := Finished(Plain(id))];
  }

  /** A whole update by one writer, undisturbed. */
  lemma {:induction false} WholeUpdate(s: State, actions: seq<Action>, m: State, p: nat, id: string, value: Schedule, waived: Clause)
    returns (more: seq<Action>, m': State)
    requires Reaches(s, actions, m, id, waived) && p !in m.procs && id != ""
    requires NoneChecked(m) || waived == OnDelete
    ensures Reaches(s, more, m', id, waived)
    ensures m' == State(m.backend[id := value], m.cache - {id}, m.versions[id := Version(m, id) + 1],
                        m.procs[p := Finished(Plain(id))])
  {
    hide Reaches;
    more, m' := UpdateUpToBump(s, actions, m, p, id, value, waived);
    more, m' := BumpAndDelete(s, more, m', p, id, Version(m, id), waived);
    assert m'.procs == m.procs[p := Finished(Plain(id))];
  }

  /** A re-check that still finds the reader's version, and the fill. */
  lemma {:induction false} RecheckAndFill(s: State, actions: seq<Action>, m: State, p: nat, id: string, cs: Schedule, waived: Clause)
    returns (more: seq<Action>, m': State)
    requires Reaches(s, actions, m, id, waived)
    requires p in m.procs && m.procs[p] == Fetched(Plain(id), Version(m, id), cs)
    ensures Reaches(s, more, m', id, waived)
    ensures m' == m.(cache := m.cache[id := cs], procs := m.procs[p := Aliasing(Plain(id), cs)])
  {
    hide Reaches;
    more := Extend(s, actions, m, Recheck(p), id, waived);
    m' := Apply(m, Recheck(p));
    more := Extend(s, more, m', Fill(p), id, waived);
    m' := Apply(m', Fill(p));
    assert m'.procs == m.procs[p := Aliasing(Plain(id), cs)];
  }

  /** A reader up to its fetch. */
  lemma {:induction false} ReadUpToFetch(s: State, actions: seq<Action>, m: State, p: nat, id: string, waived: Clause)
    returns (more: seq<Action>, m': State)
    requires Reaches(s, actions, m, id, waived) && p !in m.procs && id != "" && id !in m.cache && id in m.backend
    ensures Reaches(s, more, m', id, waived)
    ensures m' == m.(procs := m.procs[p := Fetched(Plain(id), Version(m, id), m.backend[id])])
  {
    hide Reaches;
    var req := Plain(id);
    more := Extend(s, actions, m, StartRead(p, req), id, waived);
    var m1 := Move(m, p, Missed(req));
    more := Extend(s, more, m1, GetVersion(p), id, waived);
    var m2 := Move(m1, p, Versioned(req, Version(m, id)));
    more := Extend(s, more, m2, Fetch(p), id, waived);
    m' := Apply(m2, Fetch(p));
    assert m'.procs == m.procs[p := Fetched(req, Version(m, id), m.backend[id])];
  }

  /** If an update may complete between a re-check and its fill, the fill stores the old schedule. */
  lemma {:induction false} SplitFillBreaks(id: string, before: Schedule, after: Schedule)
    returns (actions: seq<Action>, s: State)
    requires id != "" && before != after
    ensures Reaches(State(map[id := before], map[], map[], map[]), actions, s, id, OnDelete)
    ensures !Coherent(s, id)
  {
    var s0 := State(map[id := before], map[], map[], map[]);
    actions, s := ReadUpToFetch(s0, [], s0, 1, id, OnDelete);
    actions := Extend(s0, actions, s, Recheck(1), id, OnDelete);
    s := Apply(s, Recheck(1));
    hide Reaches;
    actions, s := WholeUpdate(s0, actions, s, 2, id, after, OnDelete);
    actions := Extend(s0, actions, s, Fill(1), id, OnDelete);
    s := Apply(s, Fill(1));
  }

  /** If a version may expire under a reader, the counter can come back to the value it started from. */
  lemma {:induction false} ExpiredVersionBreaks(id: string, before: Schedule, after: Schedule)
    returns (actions: seq<Action>, s: State)
    requires id != "" && before != after
    ensures Reaches(State(map[id := before], map[], map[], map[]), actions, s, id, OnExpiry)
    ensures !Coherent(s, id)
  {
    var s0 := State(map[id := before], map[], map[], map[]);
    actions, s := ReadUpToFetch(s0, [], s0, 1, id, OnExpiry);
    hide Reaches;
    actions, s := WholeUpdate(s0, actions, s, 2, id, after, OnExpiry);
    actions := Extend(s0, actions, s, ExpireVersion(id), id, OnExpiry);
    s := Apply(s, ExpireVersion(id));
    assert s.versions == map[] && s.backend[id] == after;
    hide Apply, Allowed;
    actions, s := RecheckAndFill(s0, actions, s, 1, id, before, OnExpiry);
  }

  /** A slow writer reads version 0 and stalls; two more bring the version to 2, where a reader starts. */
  lemma {:induction false} StalledWriter(id: string, before: Schedule) returns (actions: seq<Action>, s: State)
    requires id != ""
    ensures Reaches(State(map[id := before], map[], map[], map[]), actions, s, id, OnBump)
    ensures s.backend == map[id := before] && s.cache == map[] && Version(s, id) == 2
    ensures s.procs.Keys == {1, 2, 3, 4} && s.procs[3].Finished? && s.procs[4].Finished?
    ensures s.procs[1] == Fetched(Plain(id), 2, before) && s.procs[2] == Bumping(Plain(id), "", 0)
  {
    var s0 := State(map[id := before], map[], map[], map[]);
    assert Reaches(s0, [], s0, id, OnBump);
    hide Reaches, Apply, Allowed;
    actions, s := UpdateUpToBump(s0, [], s0, 2, id, before, OnBump);
    actions, s := WholeUpdate(s0, actions, s, 3, id, before, OnBump);
    actions, s := WholeUpdate(s0, actions, s, 4, id, before, OnBump);
    assert s.backend == map[id := before];
    actions, s := ReadUpToFetch(s0, actions, s, 1, id, OnBump);
  }

  /** If a bump may overwrite a version newer than the one it read, the counter can run backwards. */
  lemma {:induction false} SplitBumpBreaks(id: string, before: Schedule, after: Schedule)
    returns (actions: seq<Action>, s: State)
    requires id != "" && before != after
    ensures Reaches(State(map[id := before], map[], map[], map[]), actions, s, id, OnBump)
    ensures !Coherent(s, id)
  {
    var s0 := State(map[id := before], map[], map[], map[]);
    hide Reaches, Apply, Allowed;
    actions, s := StalledWriter(id, before);
    // The slow writer sets the version back to 1; the next update reaches 2 again.
    actions, s := BumpAndDelete(s0, actions, s, 2, id, 0, OnBump);
    actions, s := WholeUpdate(s0, actions, s, 5, id, after, OnBump);
    actions, s := RecheckAndFill(s0, actions, s, 1, id, before, OnBump);
  }
}
