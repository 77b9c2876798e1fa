// Per-node CPU and RAM counters kept by the insert and delete hooks of the instance cache
// (packages/api/internal/orchestrator/cache.go), against the totals GetNodes recomputes
// (packages/api/internal/orchestrator/node.go). The hooks run in goroutines of their own
// (packages/api/internal/cache/instance/instance.go and lifecycle_cache.go), so they are steps of their own.
module Accounting {

  type NodeId = string
  type SandboxId = string

  /** One InstanceInfo object; `serial` stands for its address. */
  datatype Instance = Instance(serial: nat, sandboxId: SandboxId, nodeId: NodeId, vcpu: nat, ramMB: nat)

  datatype Resource = Cpu | Ram | Count

  function Amount(r: Resource, i: Instance): nat {
    match r
    case Cpu => i.vcpu
    case Ram => i.ramMB
    case Count => 1
  }

  function Share(r: Resource, k: NodeId, i: Instance): nat {
    if i.nodeId == k then Amount(r, i) else 0
  }

  /** The total of a resource over the instances of one node. */
  ghost function Sum(s: set<Instance>, r: Resource, k: NodeId): nat {
    if s == {} then 0
    else
      var i :| i in s;
      Share(r, k, i) + Sum(s - {i}, r, k)
  }

  lemma {:induction false} SumRemove(s: set<Instance>, r: Resource, k: NodeId, i: Instance)
    requires i in s
    ensures Sum(s, r, k) == Share(r, k, i) + Sum(s - {i}, r, k)
  {
    var j :| j in s && Sum(s, r, k) == Share(r, k, j) + Sum(s - {j}, r, k);
    if j != i {
      SumRemove(s - {j}, r, k, i);
      SumRemove(s - {i}, r, k, j);
      assert s - {i} - {j} == s - {j} - {i};
    }
  }

  /** What the sums are: nothing for no instances, and one more instance adds its CPUs, its memory and one to its own
      node, and nothing to any other. */
  lemma SumGrows(s: set<Instance>, i: Instance, k: NodeId)
    requires i !in s
    ensures Sum({}, Cpu, k) == Sum({}, Ram, k) == Sum({}, Count, k) == 0
    ensures i.nodeId == k ==>
              && Sum(s + {i}, Cpu, k) == Sum(s, Cpu, k) + i.vcpu
              && Sum(s + {i}, Ram, k) == Sum(s, Ram, k) + i.ramMB
              && Sum(s + {i}, Count, k) == Sum(s, Count, k) + 1
    ensures i.nodeId != k ==> forall r: Resource :: Sum(s + {i}, r, k) == Sum(s, r, k)
  {
    assert s + {i} - {i} == s;
    forall r: Resource ensures Sum(s + {i}, r, k) == Share(r, k, i) + Sum(s, r, k) {
      SumRemove(s + {i}, r, k, i);
    }
  }

  lemma {:induction false} SumUnion(s: set<Instance>, t: set<Instance>, r: Resource, k: NodeId)
    requires s !! t
    ensures Sum(s + t, r, k) == Sum(s, r, k) + Sum(t, r, k)
  {
    if s == {} {
      assert s + t == t;
    } else {
      var i :| i in s;
      SumRemove(s, r, k, i);
      SumRemove(s + t, r, k, i);
      assert s + t - {i} == (s - {i}) + t;
      SumUnion(s - {i}, t, r, k);
    }
  }

  lemma SumSplit(s: set<Instance>, t: set<Instance>, r: Resource, k: NodeId)
    ensures Sum(s, r, k) == Sum(s * t, r, k) + Sum(s - t, r, k)
  {
    assert s == s * t + (s - t);
    SumUnion(s * t, s - t, r, k);
  }

  // ---- The runs of the cache ----------------------------------------------------------------

  datatype Usage = Usage(cpu: int, ram: int) {
    function Get(r: Resource): int
      requires r != Count
    {
      if r == Cpu then cpu else ram
    }
  }

  /** The cache, the counters, and which objects were added, evicted, and seen by each hook. */
  datatype State = State(running: map<SandboxId, Instance>, usage: map<NodeId, Usage>,
                         added: set<Instance>, evicted: set<Instance>, inserted: set<Instance>, deleted: set<Instance>)

  datatype Event =
    | Add(i: Instance)            // SetIfAbsent, which starts the insert hook if it stored the object
    | InsertHook(i: Instance)
    | Evict(sandboxId: SandboxId) // RemoveCb of the eviction loop, which starts the delete hook
    | DeleteHook(i: Instance)

  predicate Enabled(s: State, e: Event) {
    match e
    case Add(i) => i !in s.added
    case InsertHook(i) => i in s.added && i !in s.inserted
    case Evict(id) => id in s.running
    case DeleteHook(i) => i in s.evicted && i !in s.deleted
  }

  /** The delete hook of an object runs only after its insert hook. */
  predicate InOrder(s: State, e: Event) {
    e.DeleteHook? ==> e.i in s.inserted
  }

  function Bump(usage: map<NodeId, Usage>, i: Instance, sign: int): map<NodeId, Usage> {
    if i.nodeId in usage
    then usage[i.nodeId := Usage(usage[i.nodeId].cpu + sign * i.vcpu, usage[i.nodeId].ram + sign * i.ramMB)]
    else usage
  }

  function Step(s: State, e: Event): State
    requires Enabled(s, e)
  {
    match e
    case Add(i) => if i.sandboxId in s.running then s else s.(running := s.running[i.sandboxId := i], added := s.added + {i})
    case InsertHook(i) => s.(usage := Bump(s.usage, i, 1), inserted := s.inserted + {i})
    case Evict(id) => s.(running := s.running - {id}, evicted := s.evicted + {s.running[id]})
    case DeleteHook(i) => s.(usage := Bump(s.usage, i, -1), deleted := s.deleted + {i})
  }

  function Initial(nodes: set<NodeId>): State {
    State(map[], map k | k in nodes :: Usage(0, 0), {}, {}, {}, {})
  }

  ghost predicate IsRun(s: State, events: seq<Event>, ordered: bool)
    decreases |events|
  {
    events == [] || (Enabled(s, events[0]) && (ordered ==> InOrder(s, events[0])) && IsRun(Step(s, events[0]), events[1..], ordered))
  }

  ghost function After(s: State, events: seq<Event>): State
    requires IsRun(s, events, false)
    decreases |events|
  {
    if events == [] then s else After(Step(s, events[0]), events[1..])
  }

  ghost predicate Inv(s: State) {
    && s.deleted <= s.evicted <= s.added && s.inserted <= s.added
    && (forall id :: id in s.running ==> s.running[id].sandboxId == id)
    && (forall i :: i in s.added <==> i in s.evicted || (i.sandboxId in s.running && s.running[i.sandboxId] == i))
    && (forall i :: i in s.evicted ==> !(i.sandboxId in s.running && s.running[i.sandboxId] == i))
    && forall k, r: Resource :: k in s.usage && r != Count ==> s.usage[k].Get(r) == Sum(s.inserted, r, k) - Sum(s.deleted, r, k)
  }

  lemma BumpShare(usage: map<NodeId, Usage>, i: Instance, sign: int, k: NodeId, r: Resource)
    requires k in usage && r != Count
    ensures k in Bump(usage, i, sign) && Bump(usage, i, sign)[k].Get(r) == usage[k].Get(r) + sign * Share(r, k, i)
  {
  }

  lemma StepInv(s: State, e: Event)
    requires Inv(s) && Enabled(s, e)
    ensures Inv(Step(s, e)) && Step(s, e).usage.Keys == s.usage.Keys
  {
    if e.InsertHook? || e.DeleteHook? {
      forall k, r: Resource | k in s.usage && r != Count
        ensures Step(s, e).usage[k].Get(r) == Sum(Step(s, e).inserted, r, k) - Sum(Step(s, e).deleted, r, k)
      {
        var set' := if e.InsertHook? then s.inserted + {e.i} else s.deleted + {e.i};
        SumRemove(set', r, k, e.i);
        assert set' - {e.i} == if e.InsertHook? then s.inserted else s.deleted;
        BumpShare(s.usage, e.i, if e.InsertHook? then 1 else -1, k, r);
      }
    }
  }

  lemma {:induction false} RunInv(s: State, events: seq<Event>)
    requires Inv(s) && IsRun(s, events, false)
    ensures Inv(After(s, events)) && After(s, events).usage.Keys == s.usage.Keys
    decreases |events|
  {
    if events != [] {
      StepInv(s, events[0]);
      RunInv(Step(s, events[0]), events[1..]);
    }
  }

  /** In every reachable state a counter is the sum over the cached instances, corrected by the hooks still to run. */
  lemma CountersAgree(nodes: set<NodeId>, events: seq<Event>, k: NodeId, r: Resource)
    requires IsRun(Initial(nodes), events, false) && k in nodes && r != Count
    ensures var s := After(Initial(nodes), events);
            && k in s.usage
            && s.usage[k].Get(r) == Sum(s.running.Values, r, k) - Sum(s.added - s.inserted, r, k) + Sum(s.evicted - s.deleted, r, k)
            && (s.inserted == s.added && s.deleted == s.evicted ==> s.usage[k].Get(r) == Sum(s.running.Values, r, k))
  {
    RunInv(Initial(nodes), events);
    var s := After(Initial(nodes), events);
    assert s.running.Values == s.added - s.evicted;
    SumSplit(s.added, s.evicted, r, k);
    SumSplit(s.added, s.inserted, r, k);
    SumSplit(s.evicted, s.deleted, r, k);
    assert s.added * s.evicted == s.evicted && s.added * s.inserted == s.inserted && s.evicted * s.deleted == s.deleted;
    if s.inserted == s.added && s.deleted == s.evicted {
      assert s.added - s.inserted == {} && s.evicted - s.deleted == {};
    }
  }

  /** A counter is negative exactly when objects deleted before being inserted outweigh those inserted and not deleted. */
  lemma CounterSign(nodes: set<NodeId>, events: seq<Event>, k: NodeId, r: Resource)
    requires IsRun(Initial(nodes), events, false) && k in nodes && r != Count
    ensures var s := After(Initial(nodes), events);
            k in s.usage && (s.usage[k].Get(r) < 0 <==> Sum(s.inserted - s.deleted, r, k) < Sum(s.deleted - s.inserted, r, k))
  {
    RunInv(Initial(nodes), events);
    var s := After(Initial(nodes), events);
    SumSplit(s.inserted, s.deleted, r, k);
    SumSplit(s.deleted, s.inserted, r, k);
    assert s.inserted * s.deleted == s.deleted * s.inserted;
  }

  lemma {:induction false} OrderedRun(s: State, events: seq<Event>)
    requires IsRun(s, events, true) && s.deleted <= s.inserted
    ensures IsRun(s, events, false) && After(s, events).deleted <= After(s, events).inserted
    decreases |events|
  {
    if events != [] {
      OrderedRun(Step(s, events[0]), events[1..]);
    }
  }

  ghost predicate NonNegative(s: State) {
    forall k, r: Resource :: k in s.usage && r != Count ==> s.usage[k].Get(r) >= 0
  }

  /** The counters never go negative in any run exactly if no delete hook may overtake its insert hook. */
  lemma NeverNegativeIffOrdered(ordered: bool)
    ensures ordered <==> forall nodes: set<NodeId>, events: seq<Event> ::
              IsRun(Initial(nodes), events, ordered) && IsRun(Initial(nodes), events, false) ==>
                NonNegative(After(Initial(nodes), events))
  {
    if ordered {
      forall nodes: set<NodeId>, events: seq<Event> | IsRun(Initial(nodes), events, true) && IsRun(Initial(nodes), events, false)
        ensures NonNegative(After(Initial(nodes), events))
      {
        OrderedRun(Initial(nodes), events);
        RunInv(Initial(nodes), events);
        var s := After(Initial(nodes), events);
        forall k, r: Resource | k in s.usage && r != Count ensures s.usage[k].Get(r) >= 0 {
          CounterSign(nodes, events, k, r);
          assert s.deleted - s.inserted == {};
        }
      }
    } else {
      var events := OvertakingRun();
      assert !NonNegative(After(Initial({"n"}), events));
    }
  }

  /** A sandbox evicted before its insert hook got to run leaves its node at minus its CPUs. */
  lemma OvertakingRun() returns (events: seq<Event>)
    ensures IsRun(Initial({"n"}), events, false)
    ensures var s := After(Initial({"n"}), events); "n" in s.usage && s.usage["n"].Get(Cpu) == -2
  {
    var i := Instance(0, "s", "n", 2, 512);
    var s0 := Initial({"n"});
    var s1 := Step(s0, Add(i));
    var s2 := Step(s1, Evict("s"));
    var s3 := Step(s2, DeleteHook(i));
    events := [Add(i)] + ([Evict("s")] + [DeleteHook(i)]);
    RunOne(s2, DeleteHook(i), []);
    RunOne(s1, Evict("s"), [DeleteHook(i)]);
    RunOne(s0, Add(i), [Evict("s")] + [DeleteHook(i)]);
    assert [DeleteHook(i)] + [] == [DeleteHook(i)];
    assert After(s0, events) == s3;
  }

  lemma RunOne(s: State, e: Event, events: seq<Event>)
    requires Enabled(s, e) && IsRun(Step(s, e), events, false)
    ensures IsRun(s, [e] + events, false) && After(s, [e] + events) == After(Step(s, e), events)
  {
    assert ([e] + events)[1..] == events;
  }

  // ---- The hooks and the recomputation ------------------------------------------------------

  /** The value of a 32-bit integer: the one in its range that differs by a multiple of 2^32. */
  function Wrap32(x: int): (r: int)
    ensures -0x8000_0000 <= r < 0x8000_0000
    ensures -0x8000_0000 <= x < 0x8000_0000 ==> r == x
  {
    (x + 0x8000_0000) % 0x1_0000_0000 - 0x8000_0000
  }

  /** Wrapping takes away a multiple of 2^32, which wrapping again does not notice. */
  lemma WrapMoves(a: int) returns (q: int)
    ensures Wrap32(a) == a - q * 0x1_0000_0000
  {
    q := (a + 0x8000_0000) / 0x1_0000_0000;
  }

  lemma WrapIgnores(a: int, q: int)
    ensures Wrap32(a - q * 0x1_0000_0000) == Wrap32(a)
  {
    assert a - q * 0x1_0000_0000 + 0x8000_0000 == (a + 0x8000_0000) - q * 0x1_0000_0000;
  }

  lemma WrapAdd(a: int, b: int)
    ensures Wrap32(Wrap32(a) + Wrap32(b)) == Wrap32(a + b)
  {
    var q := WrapMoves(a);
    var p := WrapMoves(b);
    WrapIgnores(a + b, q + p);
  }

  datatype Totals = Totals(allocatedCpu: int, allocatedMemory: int, sandboxCount: nat)

  ghost function TotalsOf(s: set<Instance>, k: NodeId): Totals {
    Totals(Wrap32(Sum(s, Cpu, k)), Wrap32(Sum(s, Ram, k)), Sum(s, Count, k))
  }

  /** The totals are the plain sums where those fit in 32 bits. */
  ghost predicate FitsPlainly(t: Totals, s: set<Instance>, k: NodeId) {
    && (Sum(s, Cpu, k) < 0x8000_0000 ==> t.allocatedCpu == Sum(s, Cpu, k))
    && (Sum(s, Ram, k) < 0x8000_0000 ==> t.allocatedMemory == Sum(s, Ram, k))
    && t.sandboxCount == Sum(s, Count, k)
  }

  lemma TotalsPush(s: set<Instance>, i: Instance, k: NodeId)
    requires i !in s
    ensures var t := TotalsOf(s, k);
            TotalsOf(s + {i}, k) == if k != i.nodeId then t
                                    else Totals(Wrap32(t.allocatedCpu + Wrap32(i.vcpu)), Wrap32(t.allocatedMemory + Wrap32(i.ramMB)), t.sandboxCount + 1)
  {
    SumGrows(s, i, k);
    WrapAdd(Sum(s, Cpu, k), i.vcpu);
    WrapAdd(Sum(s, Ram, k), i.ramMB);
  }

  /** One instance added to the totals of its node, if that node is known. */
  function Tally(totals: map<NodeId, Totals>, i: Instance): map<NodeId, Totals> {
    if i.nodeId in totals then
      var t := totals[i.nodeId];
      totals[i.nodeId := Totals(Wrap32(t.allocatedCpu + Wrap32(i.vcpu)), Wrap32(t.allocatedMemory + Wrap32(i.ramMB)), t.sandboxCount + 1)]
    else totals
  }

  ghost predicate Tallied(totals: map<NodeId, Totals>, s: set<Instance>) {
    forall k :: k in totals ==> totals[k] == TotalsOf(s, k)
  }

  lemma TallyPush(totals: map<NodeId, Totals>, s: set<Instance>, i: Instance)
    requires Tallied(totals, s) && i !in s
    ensures Tallied(Tally(totals, i), s + {i}) && Tally(totals, i).Keys == totals.Keys
  {
    forall k | k in totals ensures Tally(totals, i)[k] == TotalsOf(s + {i}, k) {
      TotalsPush(s, i, k);
    }
  }

  lemma WrapEqual(a: int, b: int)
    ensures Wrap32(a + b) == Wrap32(a) <==> b % 0x1_0000_0000 == 0
  {
    var m := 0x1_0000_0000;
    var q, p := (a + 0x8000_0000) / m, (a + b + 0x8000_0000) / m;
    assert Wrap32(a + b) - Wrap32(a) == b - (p - q) * m;
  }

  /** The instance cache with its counters. `expired` is what the clock says at the moment of a query. */
  class InstanceCache {
    var running: map<SandboxId, Instance>
    var usage: map<NodeId, Usage>
    ghost var added: set<Instance>
    ghost var evicted: set<Instance>
    ghost var inserted: set<Instance>
    ghost var deleted: set<Instance>

    constructor (nodes: set<NodeId>)
      ensures Now() == Initial(nodes)
    {
      running := map[];
      usage := map k | k in nodes :: Usage(0, 0);
      added, evicted, inserted, deleted := {}, {}, {}, {};
    }

    ghost function Now(): State
      reads this
    {
      State(running, usage, added, evicted, inserted, deleted)
    }

    /** Stores the object unless the sandbox is already cached; the caller starts the insert hook if it was stored. */
    method SetIfAbsent(i: Instance) returns (stored: bool)
      requires Enabled(Now(), Add(i))
      modifies this
      ensures Now() == Step(old(Now()), Add(i))
      ensures stored <==> i in Now().added
    {
      stored := i.sandboxId !in running;
      if stored {
        running := running[i.sandboxId := i];
        added := added + {i};
      }
    }

    method InsertInstance(i: Instance)
      requires Enabled(Now(), InsertHook(i))
      modifies this
      ensures Now() == Step(old(Now()), InsertHook(i))
    {
      if i.nodeId in usage {
        var u := usage[i.nodeId];
        usage := usage[i.nodeId := Usage(u.cpu + i.vcpu, u.ram + i.ramMB)];
      }
      inserted := inserted + {i};
    }

    /** Removes whatever is cached under the key; the caller starts the delete hook with it. */
    method RemoveForEviction(sandboxId: SandboxId) returns (i: Instance)
      requires Enabled(Now(), Evict(sandboxId))
      modifies this
      ensures Now() == Step(old(Now()), Evict(sandboxId)) && i in Now().evicted
    {
      i := running[sandboxId];
      running := running - {sandboxId};
      evicted := evicted + {i};
    }

    method DeleteInstance(i: Instance)
      requires Enabled(Now(), DeleteHook(i))
      modifies this
      ensures Now() == Step(old(Now()), DeleteHook(i))
    {
      if i.nodeId in usage {
        var u := usage[i.nodeId];
        usage := usage[i.nodeId := Usage(u.cpu - i.vcpu, u.ram - i.ramMB)];
      }
      deleted := deleted + {i};
    }

    /** Adds up the unexpired instances node by node, in 32-bit arithmetic. */
    method GetNodes(expired: set<Instance>) returns (totals: map<NodeId, Totals>)
      ensures totals.Keys == usage.Keys
      ensures Tallied(totals, running.Values - expired)
      ensures forall k :: k in totals ==> FitsPlainly(totals[k], running.Values - expired, k)
    {
      totals := map k | k in usage :: Totals(0, 0, 0);
      var items := running.Values - expired;
      var rest := items;
      assert items - rest == {};
      while rest != {}
        invariant rest <= items && totals.Keys == usage.Keys
        invariant Tallied(totals, items - rest)
        decreases |rest|
      {
        var i :| i in rest;
        TallyPush(totals, items - rest, i);
        assert items - (rest - {i}) == (items - rest) + {i};
        totals := Tally(totals, i);
        rest := rest - {i};
      }
      assert items - {} == items;
    }
  }

  /** With no hook pending, the recomputed total is the counter's 32-bit value exactly if the expired
      instances still cached on the node add up to a multiple of 2^32, in particular if there are none. */
  lemma RecomputationAgrees(nodes: set<NodeId>, events: seq<Event>, expired: set<Instance>, k: NodeId, r: Resource)
    requires IsRun(Initial(nodes), events, false) && k in nodes && r != Count
    requires var s := After(Initial(nodes), events); s.inserted == s.added && s.deleted == s.evicted
    ensures var s := After(Initial(nodes), events);
            && k in s.usage
            && s.usage[k].Get(r) == Sum(s.running.Values - expired, r, k) + Sum(s.running.Values * expired, r, k)
            && (Wrap32(s.usage[k].Get(r)) == Wrap32(Sum(s.running.Values - expired, r, k)) <==>
                  Sum(s.running.Values * expired, r, k) % 0x1_0000_0000 == 0)
  {
    CountersAgree(nodes, events, k, r);
    var s := After(Initial(nodes), events);
    SumSplit(s.running.Values, expired, r, k);
    WrapEqual(Sum(s.running.Values - expired, r, k), Sum(s.running.Values * expired, r, k));
  }
}
