// The network slots of all sandboxes of a node, under any interleaving of creations and clean-ups
// (packages/orchestrator/internal/sandbox/sandbox.go, packages/orchestrator/internal/sandbox/network/pool.go).
module NetworkSlots {
  import opened Prelude
  import opened Host
  import opened Cleanup

  /** A function registered first, and only once, is called last, and only once. */
  lemma FirstIsLast(p: seq<Action>, o: seq<Action>, a: Action)
    requires o != [] && o[0] == a && a !in o[1..] && a !in p
    ensures var l := Reverse(p) + Reverse(o);
            && |l| > 0 && l[|l| - 1] == a && multiset(l)[a] == 1 && multiset(l) == multiset(p) + multiset(o)
  {
    ReverseMultiset(p);
    ReverseMultiset(o);
    OnceInFront(o, a);
    assert a !in multiset(p);
  }

  lemma OnceInFront(o: seq<Action>, a: Action)
    requires o != [] && o[0] == a && a !in o[1..]
    ensures multiset(o)[a] == 1
  {
    assert o == [o[0]] + o[1..];
    assert a !in multiset(o[1..]);
  }

  // ---- All sandboxes of a node --------------------------------------------------------------

  /** A sandbox that took a slot, with its clean-up. */
  datatype Box = Box(slot: Slot, cleaner: Cleaner) {
    /** The slot's function was called. */
    predicate Returned() {
      cleaner.phase == Ordinary(0) || cleaner.phase == Finished
    }

    /** It was called, last of all, and reported an error. */
    predicate Failed() {
      Returned() && |cleaner.log| > 0 && cleaner.log[|cleaner.log| - 1].err.Some?
    }
  }

  /** A slot is free, in the pool or unreserved; or held by a sandbox; or lost, because giving it back failed: its
      network is still there or its key still reserved. */
  datatype Node = Node(free: set<Slot>, lost: set<Slot>, boxes: map<nat, Box>)

  datatype Event =
    | Acquire(id: nat, slot: Slot)
    | Build(id: nat, a: Action, priority: bool)
    | Clean(id: nat, m: Move)

  predicate Possible(n: Node, e: Event) {
    match e
    case Acquire(id, slot) => id !in n.boxes && slot in n.free
    case Build(id, a, _) => id in n.boxes && n.boxes[id].cleaner.phase.Idle? && !a.ReturnSlot?
    case Clean(id, m) => id in n.boxes && !m.Register? && !m.RegisterPriority? && Enabled(n.boxes[id].cleaner, m)
  }

  /** The function a clean-up calls next. */
  function Due(c: Cleaner): Action
    requires Enabled(c, Call(None))
  {
    if c.phase.Priority? then c.priority[c.phase.i - 1] else c.ordinary[c.phase.i - 1]
  }

  function Step(n: Node, e: Event): Node
    requires Possible(n, e)
  {
    match e
    case Acquire(id, slot) =>
      n.(free := n.free - {slot}, boxes := n.boxes[id := Box(slot, NEW.(ordinary := [ReturnSlot(slot)]))])
    case Build(id, a, priority) =>
      var b := n.boxes[id];
      n.(boxes := n.boxes[id := b.(cleaner := Next(b.cleaner, if priority then RegisterPriority(a) else Register(a)))])
    case Clean(id, m) =>
      var b := n.boxes[id];
      var gone := if m.Call? && Due(b.cleaner).ReturnSlot? then {Due(b.cleaner).slot} else {};
      var failed := m.Call? && m.result.Some?;
      Node(if failed then n.free else n.free + gone, if failed then n.lost + gone else n.lost,
           n.boxes[id := b.(cleaner := Next(b.cleaner, m))])
  }

  /** The slot's function was registered first and only once, and nothing is registered once the clean-up runs. */
  ghost predicate BoxInv(b: Box) {
    var c := b.cleaner;
    && Cleanup.Inv(c)
    && c.ordinary != [] && c.ordinary[0] == ReturnSlot(b.slot)
    && (forall i :: 1 <= i < |c.ordinary| ==> !c.ordinary[i].ReturnSlot?)
    && (forall i :: 0 <= i < |c.priority| ==> !c.priority[i].ReturnSlot?)
    && (!c.phase.Idle? ==> c.priorityLen == |c.priority|)
    && (c.phase.Ordinary? || c.phase.Finished? ==> c.ordinaryLen == |c.ordinary|)
  }

  ghost predicate Holds(n: Node, id: nat, s: Slot) {
    id in n.boxes && n.boxes[id].slot == s && !n.boxes[id].Returned()
  }

  ghost predicate LostBy(n: Node, id: nat, s: Slot) {
    id in n.boxes && n.boxes[id].slot == s && n.boxes[id].Failed()
  }

  ghost predicate Held(n: Node, s: Slot) {
    exists id :: Holds(n, id, s)
  }

  ghost predicate Lost(n: Node, s: Slot) {
    exists id :: LostBy(n, id, s)
  }

  ghost predicate BoxesInv(n: Node, all: set<Slot>) {
    forall id :: id in n.boxes ==> BoxInv(n.boxes[id]) && n.boxes[id].slot in all
  }

  ghost predicate SlotsInv(n: Node, all: set<Slot>) {
    && n.free <= all && n.lost <= all && n.free !! n.lost
    && (forall s {:trigger Held(n, s)} :: s in all ==> (Held(n, s) <==> s !in n.free && s !in n.lost))
    && (forall s {:trigger Lost(n, s)} :: s in n.lost <==> Lost(n, s))
    && (forall i, j, s :: Holds(n, i, s) && Holds(n, j, s) ==> i == j)
    && (forall i, j, s :: LostBy(n, i, s) && LostBy(n, j, s) ==> i == j)
  }

  ghost predicate NodeInv(n: Node, all: set<Slot>) {
    BoxesInv(n, all) && SlotsInv(n, all)
  }

  predicate Returning(b: Box, m: Move)
    requires Enabled(b.cleaner, m)
  {
    m.Call? && Due(b.cleaner).ReturnSlot?
  }

  lemma CleanBox(b: Box, m: Move)
    requires BoxInv(b) && !m.Register? && !m.RegisterPriority? && Enabled(b.cleaner, m)
    ensures var b' := b.(cleaner := Next(b.cleaner, m));
            && BoxInv(b')
            && (Returning(b, m) ==>
                  Due(b.cleaner) == ReturnSlot(b.slot) && !b.Returned() && b'.Returned() && (b'.Failed() <==> m.result.Some?))
            && (!Returning(b, m) ==> b.Returned() == b'.Returned() && b.Failed() == b'.Failed())
  {
    Cleanup.NextInv(b.cleaner, m);
  }

  /** Two nodes that agree on who holds and who lost which slot. */
  ghost predicate SameOwners(n: Node, n': Node) {
    && (forall i, s :: Holds(n', i, s) <==> Holds(n, i, s))
    && (forall i, s :: LostBy(n', i, s) <==> LostBy(n, i, s))
  }

  lemma SameOwnersKeep(n: Node, n': Node, all: set<Slot>)
    requires SlotsInv(n, all) && n'.free == n.free && n'.lost == n.lost && SameOwners(n, n')
    ensures SlotsInv(n', all)
  {
    forall s ensures (Held(n', s) <==> Held(n, s)) && (Lost(n', s) <==> Lost(n, s)) {
      if Held(n, s) { var id :| Holds(n, id, s); assert Holds(n', id, s); }
      if Held(n', s) { var id :| Holds(n', id, s); assert Holds(n, id, s); }
      if Lost(n, s) { var id :| LostBy(n, id, s); assert LostBy(n', id, s); }
      if Lost(n', s) { var id :| LostBy(n', id, s); assert LostBy(n, id, s); }
    }
  }

  /** A step of one box that changes neither its hold nor its loss. */
  lemma SameHolds(n: Node, n': Node, id: nat, b: Box, all: set<Slot>)
    requires SlotsInv(n, all) && id in n.boxes
    requires n' == n.(boxes := n.boxes[id := b])
    requires b.slot == n.boxes[id].slot && b.Returned() == n.boxes[id].Returned() && b.Failed() == n.boxes[id].Failed()
    ensures SlotsInv(n', all)
  {
    assert SameOwners(n, n');
    SameOwnersKeep(n, n', all);
  }

  lemma AcquireInv(n: Node, id: nat, slot: Slot, all: set<Slot>)
    requires SlotsInv(n, all) && Possible(n, Acquire(id, slot))
    ensures SlotsInv(Step(n, Acquire(id, slot)), all)
  {
    var n' := Step(n, Acquire(id, slot));
    assert forall i, s :: Holds(n', i, s) <==> Holds(n, i, s) || (i == id && s == slot);
    assert forall i, s :: LostBy(n', i, s) <==> LostBy(n, i, s);
    assert !Held(n, slot);
    forall s ensures (Held(n', s) <==> Held(n, s) || s == slot) && (Lost(n', s) <==> Lost(n, s)) {
      assert Holds(n', id, slot);
      if Held(n, s) { var i :| Holds(n, i, s); assert Holds(n', i, s); }
      if Held(n', s) { var i :| Holds(n', i, s); assert Holds(n, i, s) || s == slot; }
      if Lost(n, s) { var i :| LostBy(n, i, s); assert LostBy(n', i, s); }
      if Lost(n', s) { var i :| LostBy(n', i, s); assert LostBy(n, i, s); }
    }
    forall i, j, s | Holds(n', i, s) && Holds(n', j, s) ensures i == j {
      assert Holds(n, i, s) ==> Held(n, s);
      assert Holds(n, j, s) ==> Held(n, s);
    }
  }

  /** What follows for the slots when one box gives its slot up, losing it or not. */
  lemma ReturnMoves(n: Node, n': Node, id: nat, slot: Slot, failed: bool)
    requires forall i, s :: Holds(n', i, s) <==> Holds(n, i, s) && i != id
    requires forall i, s :: LostBy(n', i, s) <==> LostBy(n, i, s) || (failed && i == id && s == slot)
    requires Holds(n, id, slot) && forall i :: Holds(n, i, slot) ==> i == id
    ensures forall s :: Held(n', s) <==> Held(n, s) && s != slot
    ensures forall s :: Lost(n', s) <==> Lost(n, s) || (failed && s == slot)
  {
    forall s ensures Held(n', s) <==> Held(n, s) && s != slot {
      if Held(n, s) && s != slot { var i :| Holds(n, i, s); assert Holds(n', i, s); }
      if Held(n', s) { var i :| Holds(n', i, s); assert Holds(n, i, s); }
    }
    forall s ensures Lost(n', s) <==> Lost(n, s) || (failed && s == slot) {
      if Lost(n, s) { var i :| LostBy(n, i, s); assert LostBy(n', i, s); }
      if failed { assert LostBy(n', id, slot); }
      if Lost(n', s) { var i :| LostBy(n', i, s); assert LostBy(n, i, s) || s == slot; }
    }
  }

  lemma ReturnInv(n: Node, n': Node, id: nat, b: Box, failed: bool, all: set<Slot>)
    requires SlotsInv(n, all) && id in n.boxes && b.slot == n.boxes[id].slot && b.slot in all
    requires !n.boxes[id].Returned() && b.Returned() && (b.Failed() <==> failed)
    requires n' == Node(if failed then n.free else n.free + {b.slot}, if failed then n.lost + {b.slot} else n.lost,
                        n.boxes[id := b])
    ensures SlotsInv(n', all)
  {
    var slot := b.slot;
    assert Holds(n, id, slot) && Held(n, slot);
    assert forall i, s :: Holds(n', i, s) <==> Holds(n, i, s) && i != id;
    assert forall i, s :: LostBy(n', i, s) <==> LostBy(n, i, s) || (failed && i == id && s == slot);
    ReturnMoves(n, n', id, slot, failed);
    forall i, j, s | LostBy(n', i, s) && LostBy(n', j, s) ensures i == j {
      assert LostBy(n, i, s) ==> Lost(n, s);
      assert LostBy(n, j, s) ==> Lost(n, s);
    }
  }

  lemma StepBoxes(n: Node, e: Event, all: set<Slot>)
    requires BoxesInv(n, all) && n.free <= all && Possible(n, e)
    ensures BoxesInv(Step(n, e), all)
  {
    if e.Clean? {
      CleanBox(n.boxes[e.id], e.m);
    }
  }

  lemma StepInv(n: Node, e: Event, all: set<Slot>)
    requires NodeInv(n, all) && Possible(n, e)
    ensures NodeInv(Step(n, e), all)
  {
    StepBoxes(n, e, all);
    match e
    case Acquire(id, slot) => AcquireInv(n, id, slot, all);
    case Build(id, a, priority) => SameHolds(n, Step(n, e), id, Step(n, e).boxes[id], all);
    case Clean(id, m) => CleanInv(n, id, m, all);
  }

  lemma CleanInv(n: Node, id: nat, m: Move, all: set<Slot>)
    requires NodeInv(n, all) && Possible(n, Clean(id, m))
    ensures SlotsInv(Step(n, Clean(id, m)), all)
  {
    var n' := Step(n, Clean(id, m));
    CleanBox(n.boxes[id], m);
    if Returning(n.boxes[id], m) {
      ReturnInv(n, n', id, n'.boxes[id], m.result.Some?, all);
    } else {
      assert n' == n.(boxes := n.boxes[id := n'.boxes[id]]);
      SameHolds(n, n', id, n'.boxes[id], all);
    }
  }

  ghost predicate IsRun(n: Node, events: seq<Event>)
    decreases |events|
  {
    events == [] || (Possible(n, events[0]) && IsRun(Step(n, events[0]), events[1..]))
  }

  ghost function After(n: Node, events: seq<Event>): Node
    requires IsRun(n, events)
    decreases |events|
  {
    if events == [] then n else After(Step(n, events[0]), events[1..])
  }

  lemma {:induction false} RunInv(n: Node, events: seq<Event>, all: set<Slot>)
    requires NodeInv(n, all) && IsRun(n, events)
    ensures NodeInv(After(n, events), all)
    decreases |events|
  {
    if events != [] {
      StepInv(n, events[0], all);
      RunInv(Step(n, events[0]), events[1..], all);
    }
  }

  /** What one sandbox registers and calls in the course of a run. */
  function Moves(events: seq<Event>, id: nat): seq<Move>
    decreases |events|
  {
    if events == [] then []
    else
      (match events[0]
       case Build(i, a, priority) => if i == id then [if priority then RegisterPriority(a) else Register(a)] else []
       case Clean(i, m) => if i == id then [m] else []
       case Acquire(_, _) => []) + Moves(events[1..], id)
  }

  lemma CleanerRunOne(c: Cleaner, m: Move, moves: seq<Move>)
    requires Enabled(c, m) && Cleanup.IsRun(Next(c, m), moves)
    ensures Cleanup.IsRun(c, [m] + moves) && Cleanup.After(c, [m] + moves) == Cleanup.After(Next(c, m), moves)
  {
    assert ([m] + moves)[1..] == moves;
  }

  /** In every run the clean-up of each sandbox is a run of its own clean-up stack, whatever the others do: it has the
      slot's function first, and from there on exactly what this sandbox registered and called. */
  lemma {:induction false} BoxRunsAlone(n: Node, events: seq<Event>, id: nat)
    requires IsRun(n, events) && id in n.boxes
    ensures id in After(n, events).boxes && After(n, events).boxes[id].slot == n.boxes[id].slot
    ensures Cleanup.IsRun(n.boxes[id].cleaner, Moves(events, id))
    ensures After(n, events).boxes[id].cleaner == Cleanup.After(n.boxes[id].cleaner, Moves(events, id))
    decreases |events|
  {
    if events != [] {
      var e, rest := events[0], events[1..];
      BoxRunsAlone(Step(n, e), rest, id);
      assert [] + Moves(rest, id) == Moves(rest, id);
      match e
      case Build(i, a, priority) =>
        if i == id {
          CleanerRunOne(n.boxes[id].cleaner, if priority then RegisterPriority(a) else Register(a), Moves(rest, id));
        }
      case Clean(i, m) =>
        if i == id {
          CleanerRunOne(n.boxes[id].cleaner, m, Moves(rest, id));
        }
      case Acquire(_, _) =>
    }
  }

  /** A sandbox that takes a slot starts with the slot's function alone. */
  lemma AcquireStarts(n: Node, id: nat, slot: Slot)
    requires Possible(n, Acquire(id, slot))
    ensures var n' := Step(n, Acquire(id, slot));
            && id in n'.boxes && n'.boxes[id].slot == slot
            && n'.boxes[id].cleaner == Next(NEW, Register(ReturnSlot(slot)))
            && slot !in n'.free && n'.free + {slot} == n.free && n'.lost == n.lost
  {
    assert [] + [ReturnSlot(slot)] == [ReturnSlot(slot)];
  }

  ghost predicate ErrorLogged(b: Box) {
    exists i :: 0 <= i < |b.cleaner.log| && IsFailedReturn(b.cleaner.log[i], b.slot)
  }

  predicate IsFailedReturn(e: Execution, slot: Slot) {
    e.action == ReturnSlot(slot) && e.err.Some?
  }

  /** The call giving the slot back was logged by this sandbox with an error. */
  ghost predicate FailureLogged(n: Node, id: nat, s: Slot) {
    id in n.boxes && n.boxes[id].slot == s && ErrorLogged(n.boxes[id])
  }

  lemma LostIsLogged(n: Node, all: set<Slot>, s: Slot)
    requires NodeInv(n, all)
    ensures s in n.lost <==> exists id :: FailureLogged(n, id, s)
  {
    forall id ensures FailureLogged(n, id, s) <==> LostBy(n, id, s) {
      if id in n.boxes {
        FailedIsLogged(n.boxes[id]);
      }
    }
    assert s in n.lost <==> Lost(n, s);
    if Lost(n, s) {
      var id :| LostBy(n, id, s);
      assert FailureLogged(n, id, s);
    }
  }

  /** In every run each slot is exactly one of free, lost, and held by one sandbox; and lost exactly if the call giving
      it back, in one sandbox, reported an error. */
  lemma SlotsConserved(all: set<Slot>, events: seq<Event>, s: Slot)
    requires IsRun(Node(all, {}, map[]), events) && s in all
    ensures var n := After(Node(all, {}, map[]), events);
            && n.free <= all && n.lost <= all && n.free !! n.lost
            && (Held(n, s) <==> s !in n.free && s !in n.lost)
            && (forall i, j :: Holds(n, i, s) && Holds(n, j, s) ==> i == j)
            && (s in n.lost <==> exists id :: FailureLogged(n, id, s))
  {
    RunInv(Node(all, {}, map[]), events, all);
    LostIsLogged(After(Node(all, {}, map[]), events), all, s);
  }

  /** Once all clean-ups are done, all slots are free again exactly if no call giving one back reported an error. */
  lemma AllFreeAgain(all: set<Slot>, events: seq<Event>)
    requires IsRun(Node(all, {}, map[]), events)
    requires forall id :: id in After(Node(all, {}, map[]), events).boxes ==>
               After(Node(all, {}, map[]), events).boxes[id].cleaner.phase.Finished?
    ensures var n := After(Node(all, {}, map[]), events);
            n.free == all <==> forall id, s :: !FailureLogged(n, id, s)
  {
    RunInv(Node(all, {}, map[]), events, all);
    FreeUnlessLogged(After(Node(all, {}, map[]), events), all);
  }

  lemma FreeUnlessLogged(n: Node, all: set<Slot>)
    requires NodeInv(n, all) && forall id :: id in n.boxes ==> n.boxes[id].cleaner.phase.Finished?
    ensures n.free == all <==> forall id, s :: !FailureLogged(n, id, s)
  {
    forall s | s in all ensures s in n.free <==> forall id :: !FailureLogged(n, id, s) {
      assert !Held(n, s);
      LostIsLogged(n, all, s);
    }
    assert forall id, s :: FailureLogged(n, id, s) ==> s in all;
  }

  /** One sandbox comes and goes, and its slot is lost because it could not be released. */
  lemma LosingRun() returns (events: seq<Event>)
    ensures IsRun(Node({7}, {}, map[]), events)
    ensures var n := After(Node({7}, {}, map[]), events);
            n.free == {} && n.lost == {7} && !Held(n, 7) && 0 in n.boxes && n.boxes[0].cleaner.phase.Finished?
  {
    var n0 := Node({7}, {}, map[]);
    var e0, e1, e2, e3, e4 :=
      Acquire(0, 7), Clean(0, Start), Clean(0, NextLevel), Clean(0, Call(Some("failed to release slot"))), Clean(0, Finish);
    var n1 := Step(n0, e0);
    var n2 := Step(n1, e1);
    var n3 := Step(n2, e2);
    var n4 := Step(n3, e3);
    assert n4.boxes[0].cleaner.phase == Ordinary(0) && n4.free == {} && n4.lost == {7};
    events := [];
    RunOne(n4, e4, events);
    events := [e4] + events;
    RunOne(n3, e3, events);
    events := [e3] + events;
    RunOne(n2, e2, events);
    events := [e2] + events;
    RunOne(n1, e1, events);
    events := [e1] + events;
    RunOne(n0, e0, events);
    events := [e0] + events;
  }

  lemma RunOne(n: Node, e: Event, events: seq<Event>)
    requires Possible(n, e) && IsRun(Step(n, e), events)
    ensures IsRun(n, [e] + events) && After(n, [e] + events) == After(Step(n, e), events)
  {
    assert ([e] + events)[1..] == events;
  }

  /** A slot's function is called once and after every other function of its sandbox; the slot is back exactly if that
      call reported no error. */
  lemma SlotReturnedLast(all: set<Slot>, events: seq<Event>, id: nat)
    requires IsRun(Node(all, {}, map[]), events) && id in After(Node(all, {}, map[]), events).boxes
    ensures var b := After(Node(all, {}, map[]), events).boxes[id];
            && (b.Returned() <==> ReturnSlot(b.slot) in Actions(b.cleaner.log))
            && (b.Failed() <==> ErrorLogged(b))
            && (b.Returned() ==>
                  && |b.cleaner.log| > 0
                  && Actions(b.cleaner.log) == Reverse(b.cleaner.priority) + Reverse(b.cleaner.ordinary)
                  && multiset(Actions(b.cleaner.log))[ReturnSlot(b.slot)] == 1
                  && Actions(b.cleaner.log)[|b.cleaner.log| - 1] == ReturnSlot(b.slot))
    ensures var n := After(Node(all, {}, map[]), events);
            n.boxes[id].Returned() && !n.boxes[id].Failed() ==> !Holds(n, id, n.boxes[id].slot) && !LostBy(n, id, n.boxes[id].slot)
  {
    RunInv(Node(all, {}, map[]), events, all);
    var b := After(Node(all, {}, map[]), events).boxes[id];
    BoxReturn(b);
    FailedIsLogged(b);
  }

  lemma FailedIsLogged(b: Box)
    requires BoxInv(b)
    ensures b.Failed() <==> ErrorLogged(b)
  {
    BoxReturn(b);
    if b.Returned() {
      LastDecides(b.cleaner.log, b.slot);
    } else {
      NoReturn(b.cleaner.log, b.slot);
    }
  }

  lemma NoReturn(log: seq<Execution>, slot: Slot)
    requires ReturnSlot(slot) !in Actions(log)
    ensures forall i :: 0 <= i < |log| ==> !IsFailedReturn(log[i], slot)
  {
    forall i | 0 <= i < |log| ensures !IsFailedReturn(log[i], slot) {
      assert Actions(log)[i] in Actions(log);
    }
  }

  lemma LastDecides(log: seq<Execution>, slot: Slot)
    requires |log| > 0 && log[|log| - 1].action == ReturnSlot(slot)
    requires multiset(Actions(log))[ReturnSlot(slot)] == 1
    ensures (exists i :: 0 <= i < |log| && IsFailedReturn(log[i], slot)) <==> log[|log| - 1].err.Some?
  {
    forall i | 0 <= i < |log| - 1 ensures log[i].action != ReturnSlot(slot) {
      if log[i].action == ReturnSlot(slot) {
        CountsTwice(Actions(log), ReturnSlot(slot), i, |log| - 1);
      }
    }
    assert IsFailedReturn(log[|log| - 1], slot) <==> log[|log| - 1].err.Some?;
  }

  lemma CountsTwice(s: seq<Action>, a: Action, i: nat, j: nat)
    requires i < j < |s| && s[i] == a == s[j]
    ensures multiset(s)[a] >= 2
  {
    var left, right := s[..j], s[j..];
    assert s == left + right;
    assert left[i] in multiset(left) && right[0] in multiset(right);
  }

  lemma BoxReturn(b: Box)
    requires BoxInv(b)
    ensures b.Returned() <==> ReturnSlot(b.slot) in Actions(b.cleaner.log)
    ensures b.Returned() ==>
              && |b.cleaner.log| > 0
              && Actions(b.cleaner.log) == Reverse(b.cleaner.priority) + Reverse(b.cleaner.ordinary)
              && multiset(Actions(b.cleaner.log))[ReturnSlot(b.slot)] == 1
              && Actions(b.cleaner.log)[|b.cleaner.log| - 1] == ReturnSlot(b.slot)
  {
    var c, a := b.cleaner, ReturnSlot(b.slot);
    if b.Returned() {
      ReturnedLog(b);
      FirstIsLast(c.priority, c.ordinary, a);
    } else if c.phase.Priority? {
      NotReturned(c.priority[c.phase.i..c.priorityLen], [], a);
    } else if c.phase.Ordinary? {
      NotReturned(c.priority[..c.priorityLen], c.ordinary[c.phase.i..c.ordinaryLen], a);
    }
  }

  lemma ReturnedLog(b: Box)
    requires BoxInv(b) && b.Returned()
    ensures Actions(b.cleaner.log) == Reverse(b.cleaner.priority) + Reverse(b.cleaner.ordinary)
  {
    var c := b.cleaner;
    assert c.priority[..c.priorityLen] == c.priority && c.ordinary[0..c.ordinaryLen] == c.ordinary == c.ordinary[..c.ordinaryLen];
  }

  lemma NotReturned(p: seq<Action>, q: seq<Action>, a: Action)
    requires a !in p && a !in q
    ensures a !in Reverse(p) + Reverse(q)
  {
    ReverseMultiset(p);
    ReverseMultiset(q);
    assert a !in multiset(p) && a !in multiset(q);
    assert a !in multiset(Reverse(p)) && a !in multiset(Reverse(q));
  }
}
