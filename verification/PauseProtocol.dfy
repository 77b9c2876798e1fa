// Concurrent Create, Delete and Pause handlers and the exit goroutines of a node's sandboxes, as atomic steps
// over the shared sandbox map, the pause mutex and the snapshot semaphore
// (packages/orchestrator/internal/server/sandboxes.go).
module PauseProtocol {
  import opened Prelude

  const MAX_PARALLEL_SNAPSHOTTING := 8

  type SandboxId = string
  type Thread = nat

  /** One Sandbox object; `serial` stands for its address. */
  datatype Sandbox = Sandbox(serial: nat, id: SandboxId)

  /** Where a Pause call is. */
  datatype Pc =
    | Waiting      // before the semaphore
    | Refused      // the request ended while waiting; no permit was taken
    | Permitted    // holds a permit, waits for the mutex
    | Locked       // holds the mutex
    | Found        // has looked the sandbox up, still holds the mutex
    | Removed      // has removed the map entry, still holds the mutex
    | Unlocked     // owns the sandbox
    | Snapshotting // inside Snapshot, before the early release
    | Late         // inside Snapshot or after it, the permit already released
    | Leaving      // the body has returned, the deferred release is due
    | Done

  datatype Pause = Pause(id: SandboxId, pc: Pc, sandbox: Option<Sandbox>, releases: nat) {
    predicate Acquired() { !pc.Waiting? && !pc.Refused? }
    predicate Holding() { Acquired() && releases == 0 }
    predicate Consistent() {
      && releases <= 1
      && (pc.Done? || pc.Late? ==> releases == 1)
      && (!pc.Done? && !pc.Late? && !pc.Leaving? ==> releases == 0)
    }
    predicate InMutex() { pc.Locked? || pc.Found? || pc.Removed? }
  }

  datatype State = State(table: map<SandboxId, Sandbox>, mutex: Option<Thread>, permits: int,
                         pauses: map<Thread, Pause>, inserts: seq<Sandbox>, exited: set<Sandbox>,
                         snapshots: seq<Sandbox>)

  datatype Event =
    | Insert(s: Sandbox)         // Create stores a new object
    | Exit(s: Sandbox)           // its exit goroutine, started with the insertion, comes to the removal
    | RemoveId(id: SandboxId)    // Delete
    | Call(t: Thread, id: SandboxId)
    | Acquire(t: Thread)
    | GiveUp(t: Thread)
    | Lock(t: Thread)
    | Get(t: Thread)
    | Remove(t: Thread)
    | Unlock(t: Thread)
    | BeginSnapshot(t: Thread)
    | EarlyRelease(t: Thread)
    | Leave(t: Thread)           // any return, with or without an error
    | DeferredRelease(t: Thread)

  predicate At(s: State, t: Thread, pc: Pc) {
    t in s.pauses && s.pauses[t].pc == pc
  }

  predicate Enabled(s: State, e: Event) {
    match e
    case Insert(x) => x !in s.inserts
    case Exit(x) => x in s.inserts && x !in s.exited
    case RemoveId(_) => true
    case Call(t, _) => t !in s.pauses
    case Acquire(t) => At(s, t, Waiting) && s.permits > 0
    case GiveUp(t) => At(s, t, Waiting)
    case Lock(t) => At(s, t, Permitted) && s.mutex == None
    case Get(t) => At(s, t, Locked)
    case Remove(t) => At(s, t, Found)
    case Unlock(t) => At(s, t, Removed)
    case BeginSnapshot(t) => At(s, t, Unlocked)
    case EarlyRelease(t) => At(s, t, Snapshotting)
    case Leave(t) => At(s, t, Unlocked) || At(s, t, Snapshotting) || At(s, t, Late)
    case DeferredRelease(t) => At(s, t, Leaving)
  }

  function Move(s: State, t: Thread, pc: Pc): State
    requires t in s.pauses
  {
    s.(pauses := s.pauses[t := s.pauses[t].(pc := pc)])
  }

  /** The once-only release: gives the permit back the first time it is called. */
  function Release(s: State, t: Thread): State
    requires t in s.pauses
  {
    if s.pauses[t].releases > 0 then s
    else s.(permits := s.permits + 1, pauses := s.pauses[t := s.pauses[t].(releases := 1)])
  }

  function Step(s: State, e: Event): State
    requires Enabled(s, e)
  {
    match e
    case Insert(x) => s.(table := s.table[x.id := x], inserts := s.inserts + [x])
    case Exit(x) => s.(table := s.table - {x.id}, exited := s.exited + {x})
    case RemoveId(id) => s.(table := s.table - {id})
    case Call(t, id) => s.(pauses := s.pauses[t := Pause(id, Waiting, None, 0)])
    case Acquire(t) => Move(s, t, Permitted).(permits := s.permits - 1)
    case GiveUp(t) => Move(s, t, Refused)
    case Lock(t) => Move(s, t, Locked).(mutex := Some(t))
    case Get(t) =>
      var p := s.pauses[t];
      if p.id in s.table
      then s.(pauses := s.pauses[t := p.(pc := Found, sandbox := Some(s.table[p.id]))])
      else Move(s, t, Leaving).(mutex := None)
    case Remove(t) => Move(s, t, Removed).(table := s.table - {s.pauses[t].id})
    case Unlock(t) => Move(s, t, Unlocked).(mutex := None)
    case BeginSnapshot(t) =>
      Move(s, t, Snapshotting).(snapshots := s.snapshots + match s.pauses[t].sandbox case Some(x) => [x] case None => [])
    case EarlyRelease(t) => Release(Move(s, t, Late), t)
    case Leave(t) => Move(s, t, Leaving)
    case DeferredRelease(t) => Release(Move(s, t, Done), t)
  }

  const INITIAL := State(map[], None, MAX_PARALLEL_SNAPSHOTTING, map[], [], {}, [])

  ghost function Holders(s: State): set<Thread> {
    set t | t in s.pauses && s.pauses[t].Holding()
  }

  ghost function Snapshotters(s: State): set<Thread> {
    set t | t in s.pauses && s.pauses[t].pc.Snapshotting?
  }

  /** Where each call stands with the permit. */
  ghost predicate PermitInv(s: State) {
    && s.permits >= 0 && s.permits + |Holders(s)| == MAX_PARALLEL_SNAPSHOTTING
    && forall t :: t in s.pauses ==> s.pauses[t].Consistent()
  }

  lemma HoldersKept(s: State, s': State, t: Thread)
    requires forall u :: u != t ==> (u in s.pauses <==> u in s'.pauses) && (u in s.pauses ==> s.pauses[u] == s'.pauses[u])
    ensures Holders(s') - {t} == Holders(s) - {t}
    ensures |Holders(s')| - (if t in Holders(s') then 1 else 0) == |Holders(s)| - (if t in Holders(s) then 1 else 0)
  {
    forall u ensures u in Holders(s') - {t} <==> u in Holders(s) - {t} {
      assert u != t ==> (u in s.pauses <==> u in s'.pauses);
    }
    assert Holders(s') - {t} == Holders(s) - {t};
    Split(Holders(s), t);
    Split(Holders(s'), t);
  }

  lemma Split(h: set<Thread>, t: Thread)
    ensures |h - {t}| == |h| - if t in h then 1 else 0
  {
    if t in h {
      assert h == (h - {t}) + {t};
    } else {
      assert h == h - {t};
    }
  }

  /** A step of one call keeps the books if it takes a permit when it starts to hold one and gives it back when it stops. */
  lemma PermitStep(s: State, s': State, t: Thread)
    requires PermitInv(s) && t in s'.pauses && s'.pauses == s.pauses[t := s'.pauses[t]] && s'.pauses[t].Consistent()
    requires var was, now := t in s.pauses && s.pauses[t].Holding(), s'.pauses[t].Holding();
             s'.permits == s.permits + (if was then 1 else 0) - (if now then 1 else 0) && s'.permits >= 0
    ensures PermitInv(s')
  {
    HoldersKept(s, s', t);
  }

  lemma StepPermits(s: State, e: Event)
    requires PermitInv(s) && Enabled(s, e)
    ensures PermitInv(Step(s, e))
  {
    if e.Insert? || e.Exit? || e.RemoveId? {
      assert Holders(Step(s, e)) == Holders(s);
    } else {
      PermitStep(s, Step(s, e), e.t);
    }
  }

  // ---- Who owns a sandbox -------------------------------------------------------------------

  predicate InTable(s: State, x: Sandbox) {
    x.id in s.table && s.table[x.id] == x
  }

  /** A call obtains an object at the lookup; from the removal on, the object is out of the map for good. */
  ghost predicate CallInv(s: State, t: Thread)
    requires t in s.pauses
  {
    var p := s.pauses[t];
    && (p.InMutex() <==> s.mutex == Some(t))
    && (p.pc.Waiting? || p.pc.Refused? || p.pc.Permitted? || p.pc.Locked? ==> p.sandbox.None?)
    && (p.pc.Found? || p.pc.Removed? || p.pc.Unlocked? || p.pc.Snapshotting? || p.pc.Late? ==> p.sandbox.Some?)
    && (p.sandbox.Some? ==>
          && p.sandbox.value.id == p.id && p.sandbox.value in s.inserts
          && (p.pc.Found? || !InTable(s, p.sandbox.value)))
  }

  /** The call t has started the snapshot of x. */
  ghost predicate Snapped(s: State, t: Thread, x: Sandbox) {
    t in s.pauses && s.pauses[t].sandbox == Some(x)
    && (s.pauses[t].pc.Snapshotting? || s.pauses[t].pc.Late? || s.pauses[t].pc.Leaving? || s.pauses[t].pc.Done?)
  }

  ghost predicate OwnInv(s: State) {
    && (s.mutex.Some? ==> s.mutex.value in s.pauses)
    && NoDuplicates(s.inserts)
    && (forall id :: id in s.table ==> s.table[id].id == id && s.table[id] in s.inserts)
    && (forall t :: t in s.pauses ==> CallInv(s, t))
    && (forall t, u :: t in s.pauses && u in s.pauses && t != u && s.pauses[t].sandbox.Some? ==>
          s.pauses[t].sandbox != s.pauses[u].sandbox)
    && NoDuplicates(s.snapshots)
    && (forall x :: x in s.snapshots ==> x in s.inserts && exists t :: Snapped(s, t, x))
  }

  /** A step that keeps the snapshot list and lets calls go forward keeps the list accounted for. */
  lemma SnapshotsKept(s: State, s': State)
    requires OwnInv(s) && s'.snapshots == s.snapshots && s.inserts <= s'.inserts
    requires forall t, x :: Snapped(s, t, x) ==> Snapped(s', t, x)
    ensures forall x :: x in s'.snapshots ==> x in s'.inserts && exists t :: Snapped(s', t, x)
  {
    forall x | x in s'.snapshots ensures x in s'.inserts && exists t :: Snapped(s', t, x) {
      var t :| Snapped(s, t, x);
      assert Snapped(s', t, x);
    }
  }

  lemma MapStepOwn(s: State, e: Event)
    requires OwnInv(s) && Enabled(s, e) && (e.Insert? || e.Exit? || e.RemoveId?)
    ensures OwnInv(Step(s, e))
  {
    var s' := Step(s, e);
    assert s.inserts <= s'.inserts;
    assert forall t, x :: Snapped(s, t, x) ==> Snapped(s', t, x);
    SnapshotsKept(s, s');
    forall t | t in s'.pauses ensures CallInv(s', t) {
      assert CallInv(s, t);
    }
  }

  lemma GetOwn(s: State, t: Thread)
    requires OwnInv(s) && Enabled(s, Get(t))
    ensures OwnInv(Step(s, Get(t)))
  {
    var s' := Step(s, Get(t));
    assert CallInv(s, t);
    assert forall u, x :: Snapped(s, u, x) ==> Snapped(s', u, x);
    SnapshotsKept(s, s');
    forall u | u in s'.pauses ensures CallInv(s', u) && (u != t ==> s'.pauses[u].sandbox.None? || s'.pauses[u].sandbox != s'.pauses[t].sandbox) {
      assert CallInv(s, u);
    }
  }

  lemma SnapshotOwn(s: State, t: Thread)
    requires OwnInv(s) && Enabled(s, BeginSnapshot(t))
    ensures OwnInv(Step(s, BeginSnapshot(t)))
  {
    var s' := Step(s, BeginSnapshot(t));
    assert CallInv(s, t);
    var x := s.pauses[t].sandbox.value;
    assert forall u :: !Snapped(s, u, x);
    forall y | y in s'.snapshots ensures y in s'.inserts && exists u :: Snapped(s', u, y) {
      if y == x {
        assert Snapped(s', t, x);
      } else {
        var u :| Snapped(s, u, y);
        assert Snapped(s', u, y);
      }
    }
    forall u | u in s'.pauses ensures CallInv(s', u) {
      assert CallInv(s, u);
    }
  }

  /** A step of one call that touches neither the map nor the lists. */
  lemma AdvanceOwn(s: State, s': State, t: Thread)
    requires OwnInv(s) && t in s.pauses && t in s'.pauses && s'.pauses == s.pauses[t := s'.pauses[t]]
    requires s'.table == s.table && s'.inserts == s.inserts && s'.snapshots == s.snapshots
    requires s'.pauses[t].sandbox == s.pauses[t].sandbox && CallInv(s', t)
    requires forall x :: Snapped(s, t, x) ==> Snapped(s', t, x)
    requires s'.mutex == s.mutex || (s.mutex == None && s'.mutex == Some(t)) || (s.mutex == Some(t) && s'.mutex == None)
    ensures OwnInv(s')
  {
    assert forall u, x :: Snapped(s, u, x) ==> Snapped(s', u, x);
    SnapshotsKept(s, s');
    forall u | u in s'.pauses ensures CallInv(s', u) {
      assert CallInv(s, u);
    }
  }

  lemma CallOwn(s: State, t: Thread, id: SandboxId)
    requires OwnInv(s) && Enabled(s, Call(t, id))
    ensures OwnInv(Step(s, Call(t, id)))
  {
    var s' := Step(s, Call(t, id));
    assert forall u, x :: Snapped(s, u, x) ==> Snapped(s', u, x);
    SnapshotsKept(s, s');
    forall u | u in s'.pauses ensures CallInv(s', u) {
      assert u in s.pauses ==> CallInv(s, u);
    }
  }

  lemma RemoveOwn(s: State, t: Thread)
    requires OwnInv(s) && Enabled(s, Remove(t))
    ensures OwnInv(Step(s, Remove(t)))
  {
    var s' := Step(s, Remove(t));
    assert forall u, x :: Snapped(s, u, x) ==> Snapped(s', u, x);
    SnapshotsKept(s, s');
    forall u | u in s'.pauses ensures CallInv(s', u) {
      assert CallInv(s, u);
    }
  }

  lemma ReleaseOwn(s: State, e: Event)
    requires OwnInv(s) && Enabled(s, e) && (e.EarlyRelease? || e.DeferredRelease?)
    ensures OwnInv(Step(s, e))
  {
    assert CallInv(s, e.t);
    AdvanceOwn(s, Step(s, e), e.t);
  }

  lemma StepOwn(s: State, e: Event)
    requires OwnInv(s) && Enabled(s, e)
    ensures OwnInv(Step(s, e))
  {
    match e
    case Insert(_) => MapStepOwn(s, e);
    case Exit(_) => MapStepOwn(s, e);
    case RemoveId(_) => MapStepOwn(s, e);
    case Get(t) => GetOwn(s, t);
    case BeginSnapshot(t) => SnapshotOwn(s, t);
    case Call(t, id) => CallOwn(s, t, id);
    case Remove(t) => RemoveOwn(s, t);
    case EarlyRelease(t) => ReleaseOwn(s, e);
    case DeferredRelease(t) => ReleaseOwn(s, e);
    case _ =>
      assert CallInv(s, e.t);
      AdvanceOwn(s, Step(s, e), e.t);
  }

  // ---- All runs -----------------------------------------------------------------------------

  ghost predicate IsRun(s: State, events: seq<Event>)
    decreases |events|
  {
    events == [] || (Enabled(s, events[0]) && IsRun(Step(s, events[0]), events[1..]))
  }

  ghost function After(s: State, events: seq<Event>): State
    requires IsRun(s, events)
    decreases |events|
  {
    if events == [] then s else After(Step(s, events[0]), events[1..])
  }

  lemma {:induction false} RunInv(s: State, events: seq<Event>)
    requires PermitInv(s) && OwnInv(s) && IsRun(s, events)
    ensures PermitInv(After(s, events)) && OwnInv(After(s, events))
    decreases |events|
  {
    if events != [] {
      StepPermits(s, events[0]);
      StepOwn(s, events[0]);
      RunInv(Step(s, events[0]), events[1..]);
    }
  }

  lemma InitialInv()
    ensures PermitInv(INITIAL) && OwnInv(INITIAL)
  {
    assert Holders(INITIAL) == {};
  }

  /** In every run the free permits and the calls holding one add up to eight, a finished call has released
      exactly once and a refused one never, and at most eight snapshots are before their release. */
  lemma PermitsConserved(events: seq<Event>)
    requires IsRun(INITIAL, events)
    ensures var s := After(INITIAL, events);
            && s.permits >= 0 && s.permits + |Holders(s)| == 8
            && (forall t :: t in s.pauses ==> s.pauses[t].releases <= 1)
            && (forall t :: At(s, t, Done) ==> s.pauses[t].releases == 1)
            && (forall t :: At(s, t, Waiting) || At(s, t, Refused) ==> s.pauses[t].releases == 0)
            && |Snapshotters(s)| <= 8
  {
    InitialInv();
    RunInv(INITIAL, events);
    var s := After(INITIAL, events);
    SubsetSize(Snapshotters(s), Holders(s));
  }

  lemma {:induction false} SubsetSize(a: set<Thread>, b: set<Thread>)
    requires a <= b
    ensures |a| <= |b|
  {
    assert b == a + (b - a);
  }

  /** In every run no object is handed to two Pause calls, none is snapshotted twice, and so the snapshots
      of an ID are matched by insertions of that ID. */
  lemma SnapshotAtMostOnce(events: seq<Event>)
    requires IsRun(INITIAL, events)
    ensures var s := After(INITIAL, events);
            && (forall t, u :: (t in s.pauses && u in s.pauses && s.pauses[t].sandbox.Some?
                                && s.pauses[t].sandbox == s.pauses[u].sandbox) ==> t == u)
            && NoDuplicates(s.snapshots)
            && multiset(s.snapshots) <= multiset(s.inserts)
  {
    InitialInv();
    RunInv(INITIAL, events);
    DistinctSubset(After(INITIAL, events).snapshots, After(INITIAL, events).inserts);
  }

  lemma {:induction false} DistinctSubset(xs: seq<Sandbox>, ys: seq<Sandbox>)
    requires NoDuplicates(xs) && forall x :: x in xs ==> x in ys
    ensures multiset(xs) <= multiset(ys)
  {
    forall x ensures multiset(xs)[x] <= multiset(ys)[x] {
      DistinctCount(xs, x);
      assert x in ys <==> x in multiset(ys);
    }
  }

  lemma {:induction false} DistinctCount(xs: seq<Sandbox>, x: Sandbox)
    requires NoDuplicates(xs)
    ensures multiset(xs)[x] == if x in xs then 1 else 0
  {
    if xs != [] {
      var front, last := xs[..|xs| - 1], xs[|xs| - 1];
      DistinctCount(front, x);
      assert xs == front + [last];
      assert last !in front;
    }
  }

  // ---- Exits --------------------------------------------------------------------------------

  /** The last object inserted under an ID. */
  function Latest(inserts: seq<Sandbox>, id: SandboxId): Option<Sandbox> {
    if inserts == [] then None
    else if inserts[|inserts| - 1].id == id then Some(inserts[|inserts| - 1])
    else Latest(inserts[..|inserts| - 1], id)
  }

  /** What the map holds under an ID is the last object inserted under it. */
  ghost predicate LatestInv(s: State) {
    forall id :: id in s.table ==> Latest(s.inserts, id) == Some(s.table[id])
  }

  lemma StepLatest(s: State, e: Event)
    requires LatestInv(s) && Enabled(s, e)
    ensures LatestInv(Step(s, e))
  {
    if e.Insert? {
      assert (s.inserts + [e.s])[..|s.inserts|] == s.inserts;
    }
  }

  lemma {:induction false} RunLatest(s: State, events: seq<Event>)
    requires LatestInv(s) && IsRun(s, events)
    ensures LatestInv(After(s, events))
    decreases |events|
  {
    if events != [] {
      StepLatest(s, events[0]);
      RunLatest(Step(s, events[0]), events[1..]);
    }
  }

  /** In every run, an exit leaves every other object in the map exactly if its ID is not in the map or was not inserted
      again since; otherwise the object inserted last goes missing. */
  lemma ExitRemovesById(events: seq<Event>, gone: Sandbox)
    requires IsRun(INITIAL, events) && Enabled(After(INITIAL, events), Exit(gone))
    ensures var s := After(INITIAL, events);
            var s' := Step(s, Exit(gone));
            && ((forall x: Sandbox :: x != gone && InTable(s, x) ==> InTable(s', x)) <==>
                  gone.id !in s.table || Latest(s.inserts, gone.id) == Some(gone))
            && (forall x: Sandbox :: InTable(s, x) && !InTable(s', x) ==> Latest(s.inserts, gone.id) == Some(x))
  {
    RunLatest(INITIAL, events);
    InitialInv();
    RunInv(INITIAL, events);
    var s := After(INITIAL, events);
    if gone.id in s.table {
      assert InTable(s, s.table[gone.id]);
    }
  }

  /** A sandbox is created, deleted and created again under its ID; then the first one's exit goroutine gets to run, and
      a pause of the second finds nothing. */
  lemma StaleExit(x: Sandbox, y: Sandbox) returns (events: seq<Event>)
    requires x != y && x.id == y.id
    ensures events == [Insert(x), RemoveId(x.id), Insert(y), Exit(x)] + [Call(0, y.id), Acquire(0), Lock(0), Get(0)]
    ensures IsRun(INITIAL, events)
    ensures var s := After(INITIAL, events);
            y in s.inserts && y !in s.exited && !InTable(s, y) &&
            s.pauses == map[0 := Pause(y.id, Leaving, None, 0)]
  {
    var first := InsertsTwice(x, y);
    var s := After(INITIAL, first);
    var second := PauseFindsNothing(s, y.id);
    RunTwo(INITIAL, first, second);
    events := first + second;
  }

  lemma InsertsTwice(x: Sandbox, y: Sandbox) returns (events: seq<Event>)
    requires x != y && x.id == y.id
    ensures events == [Insert(x), RemoveId(x.id), Insert(y), Exit(x)]
    ensures IsRun(INITIAL, events)
    ensures var s := After(INITIAL, events);
            s.table == map[] && s.mutex == None && s.permits == MAX_PARALLEL_SNAPSHOTTING && s.pauses == map[] &&
            s.inserts == [x, y] && s.exited == {x}
  {
    var s1 := Step(INITIAL, Insert(x));
    var s2 := Step(s1, RemoveId(x.id));
    var s3 := Step(s2, Insert(y));
    events := [];
    RunOne(s3, Exit(x), events);
    events := [Exit(x)] + events;
    RunOne(s2, Insert(y), events);
    events := [Insert(y)] + events;
    RunOne(s1, RemoveId(x.id), events);
    events := [RemoveId(x.id)] + events;
    RunOne(INITIAL, Insert(x), events);
    events := [Insert(x)] + events;
  }

  /** The state of a call that is alone on an empty map. */
  ghost predicate Alone(s: State, p: Pause, inserts: seq<Sandbox>, exited: set<Sandbox>) {
    s.table == map[] && s.pauses == map[0 := p] && s.inserts == inserts && s.exited == exited
  }

  lemma AloneLeaves(s: State, id: SandboxId, inserts: seq<Sandbox>, exited: set<Sandbox>)
    requires Alone(s, Pause(id, Locked, None, 0), inserts, exited)
    ensures IsRun(s, [Get(0)]) && Alone(After(s, [Get(0)]), Pause(id, Leaving, None, 0), inserts, exited)
  {
    RunOne(s, Get(0), []);
    assert [Get(0)] + [] == [Get(0)];
  }

  lemma AloneLocks(s: State, id: SandboxId, inserts: seq<Sandbox>, exited: set<Sandbox>)
    requires Alone(s, Pause(id, Permitted, None, 0), inserts, exited) && s.mutex == None
    ensures IsRun(s, [Lock(0), Get(0)])
    ensures Alone(After(s, [Lock(0), Get(0)]), Pause(id, Leaving, None, 0), inserts, exited)
  {
    AloneLeaves(Step(s, Lock(0)), id, inserts, exited);
    RunOne(s, Lock(0), [Get(0)]);
    assert [Lock(0)] + [Get(0)] == [Lock(0), Get(0)];
  }

  lemma AloneAcquires(s: State, id: SandboxId, inserts: seq<Sandbox>, exited: set<Sandbox>)
    requires Alone(s, Pause(id, Waiting, None, 0), inserts, exited) && s.mutex == None && s.permits > 0
    ensures IsRun(s, [Acquire(0), Lock(0), Get(0)])
    ensures Alone(After(s, [Acquire(0), Lock(0), Get(0)]), Pause(id, Leaving, None, 0), inserts, exited)
  {
    AloneLocks(Step(s, Acquire(0)), id, inserts, exited);
    RunOne(s, Acquire(0), [Lock(0), Get(0)]);
    assert [Acquire(0)] + [Lock(0), Get(0)] == [Acquire(0), Lock(0), Get(0)];
  }

  lemma PauseFindsNothing(s: State, id: SandboxId) returns (events: seq<Event>)
    requires s.table == map[] && s.mutex == None && s.permits > 0 && s.pauses == map[]
    ensures events == [Call(0, id), Acquire(0), Lock(0), Get(0)]
    ensures IsRun(s, events) && Alone(After(s, events), Pause(id, Leaving, None, 0), s.inserts, s.exited)
  {
    AloneAcquires(Step(s, Call(0, id)), id, s.inserts, s.exited);
    events := [Acquire(0), Lock(0), Get(0)];
    RunOne(s, Call(0, id), events);
    events := [Call(0, id)] + events;
  }

  lemma {:induction false} RunTwo(s: State, first: seq<Event>, second: seq<Event>)
    requires IsRun(s, first) && IsRun(After(s, first), second)
    ensures IsRun(s, first + second) && After(s, first + second) == After(After(s, first), second)
    decreases |first|
  {
    if first == [] {
      assert first + second == second;
    } else {
      RunTwo(Step(s, first[0]), first[1..], second);
      assert (first + second)[1..] == first[1..] + second;
    }
  }

  lemma RunOne(s: State, e: Event, events: seq<Event>)
    requires Enabled(s, e) && IsRun(Step(s, e), events)
    ensures IsRun(s, [e] + events) && After(s, [e] + events) == After(Step(s, e), events)
  {
    assert ([e] + events)[1..] == events;
  }

  // ---- What the map holds -------------------------------------------------------------------

  lemma {:induction false} RunSplit(s: State, first: seq<Event>, second: seq<Event>)
    requires IsRun(s, first + second)
    ensures IsRun(s, first) && IsRun(After(s, first), second)
    ensures After(s, first + second) == After(After(s, first), second)
    decreases |first|
  {
    if first == [] {
      assert first + second == second;
    } else {
      assert (first + second)[0] == first[0] && (first + second)[1..] == first[1..] + second;
      RunSplit(Step(s, first[0]), first[1..], second);
    }
  }

  /** The last step of a run. */
  lemma RunLast(front: seq<Event>, e: Event)
    requires IsRun(INITIAL, front + [e])
    ensures IsRun(INITIAL, front) && Enabled(After(INITIAL, front), e)
    ensures After(INITIAL, front + [e]) == Step(After(INITIAL, front), e)
  {
    RunSplit(INITIAL, front, [e]);
    assert [e][1..] == [];
  }

  /** How many steps a call can still make at most. */
  function StepsLeft(pc: Pc): nat {
    match pc
    case Waiting => 9
    case Permitted => 8
    case Locked => 7
    case Found => 6
    case Removed => 5
    case Unlocked => 4
    case Snapshotting => 3
    case Late => 2
    case Leaving => 1
    case Refused => 0
    case Done => 0
  }

  predicate StepOf(e: Event, t: Thread) {
    match e
    case Insert(_) => false
    case Exit(_) => false
    case RemoveId(_) => false
    case _ => e.t == t
  }

  /** What a step means for a call: its own step takes it further, any other leaves it as it is. */
  lemma CallStep(s: State, e: Event, t: Thread)
    requires Enabled(s, e)
    ensures var s' := Step(s, e);
            && (t in s'.pauses <==> t in s.pauses || StepOf(e, t))
            && (t in s.pauses && !StepOf(e, t) ==> s'.pauses[t] == s.pauses[t])
            && (t in s.pauses && StepOf(e, t) ==>
                  StepsLeft(s'.pauses[t].pc) < StepsLeft(s.pauses[t].pc) && s'.pauses[t].id == s.pauses[t].id)
            && (t !in s.pauses && StepOf(e, t) ==> e.Call? && StepsLeft(s'.pauses[t].pc) <= 9 && s'.pauses[t].id == e.id)
  {
  }

  /** Every call has the ID it was made with. */
  lemma {:induction false} CallsKnown(events: seq<Event>, t: Thread, id: SandboxId)
    requires IsRun(INITIAL, events)
    ensures Call(t, id) in events <==> t in After(INITIAL, events).pauses && After(INITIAL, events).pauses[t].id == id
  {
    if events != [] {
      var front, e := events[..|events| - 1], events[|events| - 1];
      assert events == front + [e];
      RunLast(front, e);
      CallsKnown(front, t, id);
      CallStep(After(INITIAL, front), e, t);
      assert Call(t, id) in events <==> Call(t, id) in front || e == Call(t, id);
    }
  }

  /** The j-th event takes an ID out of the map: a delete, an exit, or the removal by a pause called with it. */
  ghost predicate Takes(events: seq<Event>, j: nat, id: SandboxId)
    requires j < |events|
  {
    match events[j]
    case RemoveId(other) => other == id
    case Exit(x) => x.id == id
    case Remove(t) => Call(t, id) in events[..j]
    case _ => false
  }

  ghost predicate PutsAgain(events: seq<Event>, j: nat, id: SandboxId)
    requires j < |events|
  {
    events[j].Insert? && events[j].s.id == id
  }

  /** The k-th event inserts x, and no later one inserts or takes out its ID. */
  ghost predicate StandsSince(events: seq<Event>, k: nat, x: Sandbox) {
    && k < |events|
    && events[k] == Insert(x)
    && forall j {:trigger Takes(events, j, x.id)} :: k < j < |events| ==> !PutsAgain(events, j, x.id) && !Takes(events, j, x.id)
  }

  lemma StandsPush(front: seq<Event>, e: Event, k: nat, x: Sandbox)
    requires k < |front|
    ensures var events := front + [e];
            StandsSince(events, k, x) <==>
            StandsSince(front, k, x) && !PutsAgain(events, |front|, x.id) && !Takes(events, |front|, x.id)
  {
    var events := front + [e];
    forall j: nat | j < |front| ensures Takes(events, j, x.id) == Takes(front, j, x.id) {
      assert events[..j] == front[..j];
    }
    if StandsSince(front, k, x) && !PutsAgain(events, |front|, x.id) && !Takes(events, |front|, x.id) {
      forall j: nat | k < j < |events| ensures !PutsAgain(events, j, x.id) && !Takes(events, j, x.id) {
        assert j < |front| ==> !Takes(front, j, x.id);
      }
    }
    if StandsSince(events, k, x) {
      assert !Takes(events, |front|, x.id);
      forall j: nat | k < j < |front| ensures !PutsAgain(front, j, x.id) && !Takes(front, j, x.id) {
        assert !Takes(events, j, x.id);
      }
    }
  }

  /** What one step does to an object in the map. */
  lemma StepKeeps(s: State, e: Event, x: Sandbox)
    requires Enabled(s, e) && forall id :: id in s.table ==> s.table[id].id == id
    ensures var taken := match e
              case RemoveId(other) => other == x.id
              case Exit(y) => y.id == x.id
              case Remove(t) => s.pauses[t].id == x.id
              case _ => false;
            InTable(Step(s, e), x) <==>
            e == Insert(x) || (InTable(s, x) && !(e.Insert? && e.s.id == x.id) && !taken)
  {
  }

  lemma StepStands(front: seq<Event>, e: Event, x: Sandbox)
    requires IsRun(INITIAL, front) && Enabled(After(INITIAL, front), e)
    ensures var events := front + [e];
            InTable(Step(After(INITIAL, front), e), x) <==>
            e == Insert(x) ||
            (InTable(After(INITIAL, front), x) && !PutsAgain(events, |front|, x.id) && !Takes(events, |front|, x.id))
  {
    InitialInv();
    RunInv(INITIAL, front);
    StepKeeps(After(INITIAL, front), e, x);
    assert (front + [e])[..|front|] == front;
    if e.Remove? {
      CallsKnown(front, e.t, x.id);
    }
  }

  /** In every run the map holds exactly the objects whose insertion is the last under their ID and was followed by no
      delete, exit or pause removal of that ID. */
  lemma {:induction false} TableHoldsLatest(events: seq<Event>, x: Sandbox)
    requires IsRun(INITIAL, events)
    ensures InTable(After(INITIAL, events), x) <==> exists k: nat :: StandsSince(events, k, x)
    decreases |events|
  {
    if events != [] {
      var front, e := events[..|events| - 1], events[|events| - 1];
      assert events == front + [e];
      RunLast(front, e);
      TableHoldsLatest(front, x);
      StepStands(front, e, x);
      forall k: nat | k < |front|
        ensures StandsSince(events, k, x) <==>
                StandsSince(front, k, x) && !PutsAgain(events, |front|, x.id) && !Takes(events, |front|, x.id)
      {
        StandsPush(front, e, k, x);
      }
      if e == Insert(x) {
        assert StandsSince(events, |front|, x);
      }
    }
  }

  /** A lookup hands out the object standing under the call's ID, and sends the call away if there is none. */
  lemma LookupFinds(events: seq<Event>, t: Thread, id: SandboxId)
    requires IsRun(INITIAL, events) && Enabled(After(INITIAL, events), Get(t)) && Call(t, id) in events
    ensures var p := Step(After(INITIAL, events), Get(t)).pauses[t];
            && (forall x: Sandbox :: p.sandbox == Some(x) <==> x.id == id && exists k: nat :: StandsSince(events, k, x))
            && p.pc == if p.sandbox.Some? then Found else Leaving
  {
    CallsKnown(events, t, id);
    var s := After(INITIAL, events);
    InitialInv();
    RunInv(INITIAL, events);
    assert CallInv(s, t);
    forall x: Sandbox
      ensures Step(s, Get(t)).pauses[t].sandbox == Some(x) <==> x.id == id && exists k: nat :: StandsSince(events, k, x)
    {
      TableHoldsLatest(events, x);
    }
  }

  /** After a delete and before the next insertion under its ID, a pause of that ID gets no sandbox. */
  lemma DeletedIsGone(before: seq<Event>, later: seq<Event>, t: Thread, id: SandboxId)
    requires IsRun(INITIAL, before + [RemoveId(id)] + later)
    requires forall e :: e in later && e.Insert? ==> e.s.id != id
    requires Enabled(After(INITIAL, before + [RemoveId(id)] + later), Get(t))
    requires Call(t, id) in before + [RemoveId(id)] + later
    ensures var p := Step(After(INITIAL, before + [RemoveId(id)] + later), Get(t)).pauses[t];
            p.sandbox == None && p.pc == Leaving
  {
    var events := before + [RemoveId(id)] + later;
    LookupFinds(events, t, id);
    forall x: Sandbox, k: nat | x.id == id ensures !StandsSince(events, k, x) {
      if k <= |before| {
        assert events[|before|] == RemoveId(id);
        assert Takes(events, |before|, id);
      } else if k < |events| {
        assert events[k] == later[k - |before| - 1];
      }
    }
  }

  // ---- How far a call can go ----------------------------------------------------------------

  function StepCount(events: seq<Event>, t: Thread): nat {
    if events == [] then 0
    else StepCount(events[..|events| - 1], t) + if StepOf(events[|events| - 1], t) then 1 else 0
  }

  function SnapshotCount(events: seq<Event>): nat {
    if events == [] then 0
    else SnapshotCount(events[..|events| - 1]) + if events[|events| - 1].BeginSnapshot? then 1 else 0
  }

  /** Each snapshot begun is recorded. */
  lemma {:induction false} SnapshotsRecorded(events: seq<Event>)
    requires IsRun(INITIAL, events)
    ensures |After(INITIAL, events).snapshots| == SnapshotCount(events)
  {
    if events != [] {
      var front, e := events[..|events| - 1], events[|events| - 1];
      assert events == front + [e];
      RunLast(front, e);
      SnapshotsRecorded(front);
      if e.BeginSnapshot? {
        InitialInv();
        RunInv(INITIAL, front);
        assert CallInv(After(INITIAL, front), e.t);
      }
    }
  }

  /** Every step takes a call further: in any run a call makes at most ten steps, and it is there from the first on. */
  lemma {:induction false} CallsGoOn(events: seq<Event>, t: Thread)
    requires IsRun(INITIAL, events)
    ensures var s := After(INITIAL, events);
            && (t in s.pauses <==> StepCount(events, t) > 0)
            && (t in s.pauses ==> StepCount(events, t) + StepsLeft(s.pauses[t].pc) <= 10)
  {
    if events != [] {
      var front, e := events[..|events| - 1], events[|events| - 1];
      assert events == front + [e];
      RunLast(front, e);
      CallsGoOn(front, t);
      CallStep(After(INITIAL, front), e, t);
    }
  }
}
