// Choosing a node for a new sandbox and retrying on failure
// (packages/api/internal/orchestrator/create_instance.go).
module Placement {
  import opened Prelude

  const MAX_NODE_RETRIES := 3
  const MAX_STARTING_PER_NODE := 3
  const MAX_TEMPLATE_CPU := 8

  type NodeId = string
  type SandboxId = string

  datatype Starting = Starting(memory: int, cpus: nat)

  // ---- The scan over values -----------------------------------------------------------------

  /** What the scan reads of one node. */
  datatype NodeLoad = NodeLoad(id: NodeId, ready: bool, cpuUsage: int, starting: map<SandboxId, Starting>) {
    ghost predicate Eligible(excluded: set<NodeId>) {
      ready && id !in excluded && |starting| <= MAX_STARTING_PER_NODE
    }
    ghost function Total(): int { cpuUsage + StartingCpus(starting) }
  }

  /** CPUs of the sandboxes being started, independent of the order of iteration. */
  ghost function StartingCpus(m: map<SandboxId, Starting>): nat
    decreases |m|
  {
    if m == map[] then 0
    else
      var k :| k in m;
      m[k].cpus + StartingCpus(m - {k})
  }

  lemma {:induction false} StartingCpusRemove(m: map<SandboxId, Starting>, k: SandboxId)
    requires k in m
    ensures StartingCpus(m) == m[k].cpus + StartingCpus(m - {k})
    decreases |m|
  {
    var j :| j in m && StartingCpus(m) == m[j].cpus + StartingCpus(m - {j});
    if j != k {
      StartingCpusRemove(m - {j}, k);
      StartingCpusRemove(m - {k}, j);
      assert m - {j} - {k} == m - {k} - {j};
    }
  }

  lemma {:induction false} StartingCpusBound(m: map<SandboxId, Starting>)
    requires forall k :: k in m ==> m[k].cpus <= MAX_TEMPLATE_CPU
    ensures StartingCpus(m) <= |m| * MAX_TEMPLATE_CPU
    decreases |m|
  {
    if m != map[] {
      var k :| k in m && StartingCpus(m) == m[k].cpus + StartingCpus(m - {k});
      StartingCpusBound(m - {k});
      assert |m - {k}| == |m| - 1;
    }
  }

  /** The comparison counts the starting CPUs of the candidate but not those of the incumbent. */
  ghost function Better(best: Option<NodeLoad>, l: NodeLoad, excluded: set<NodeId>): Option<NodeLoad> {
    if l.Eligible(excluded) && (best.None? || l.Total() < best.value.cpuUsage) then Some(l) else best
  }

  ghost function ScanFrom(best: Option<NodeLoad>, loads: seq<NodeLoad>, excluded: set<NodeId>): Option<NodeLoad>
    decreases |loads|
  {
    if loads == [] then best else ScanFrom(Better(best, loads[0], excluded), loads[1..], excluded)
  }

  ghost function Scan(loads: seq<NodeLoad>, excluded: set<NodeId>): Option<NodeLoad> {
    ScanFrom(None, loads, excluded)
  }

  lemma {:induction false} ScanFromPush(best: Option<NodeLoad>, loads: seq<NodeLoad>, l: NodeLoad, excluded: set<NodeId>)
    ensures ScanFrom(best, loads + [l], excluded) == Better(ScanFrom(best, loads, excluded), l, excluded)
    decreases |loads|
  {
    if loads == [] {
      assert (loads + [l])[1..] == [];
    } else {
      assert (loads + [l])[1..] == loads[1..] + [l];
      ScanFromPush(Better(best, loads[0], excluded), loads[1..], l, excluded);
    }
  }

  /** n may be returned: it is eligible and no eligible node, counted in full, is below its settled usage. */
  ghost predicate Choosable(n: NodeLoad, loads: seq<NodeLoad>, excluded: set<NodeId>) {
    n in loads && n.Eligible(excluded)
    && forall m :: m in loads && m.Eligible(excluded) ==> n.cpuUsage <= m.Total()
  }

  lemma {:induction false} ScanFromChoosable(best: Option<NodeLoad>, loads: seq<NodeLoad>, excluded: set<NodeId>)
    ensures var r := ScanFrom(best, loads, excluded);
            && (r.None? <==> best.None? && forall m :: m in loads ==> !m.Eligible(excluded))
            && (r.Some? ==> r == best || (r.value in loads && r.value.Eligible(excluded)))
            && (r.Some? && best.Some? ==> r.value.cpuUsage <= best.value.cpuUsage)
            && (r.Some? ==> forall m :: m in loads && m.Eligible(excluded) ==> r.value.cpuUsage <= m.Total())
    decreases |loads|
  {
    if loads != [] {
      ScanFromChoosable(Better(best, loads[0], excluded), loads[1..], excluded);
      assert loads == [loads[0]] + loads[1..];
    }
  }

  lemma {:induction false} ScanFromKeeps(n: NodeLoad, loads: seq<NodeLoad>, excluded: set<NodeId>)
    requires forall m :: m in loads && m.Eligible(excluded) ==> n.cpuUsage <= m.Total()
    ensures ScanFrom(Some(n), loads, excluded) == Some(n)
  {
    if loads != [] {
      ScanFromKeeps(n, loads[1..], excluded);
    }
  }

  lemma SameNodes(order: seq<NodeLoad>, loads: seq<NodeLoad>, m: NodeLoad)
    requires multiset(order) == multiset(loads)
    ensures m in order <==> m in loads
  {
    assert m in order <==> m in multiset(order);
    assert m in loads <==> m in multiset(loads);
  }

  /** An order in which the scan returns a given choosable node: that node first. */
  lemma FirstIsKept(loads: seq<NodeLoad>, excluded: set<NodeId>, n: NodeLoad) returns (order: seq<NodeLoad>)
    requires Choosable(n, loads, excluded)
    ensures multiset(order) == multiset(loads) && Scan(order, excluded) == Some(n)
  {
    var i :| 0 <= i < |loads| && loads[i] == n;
    var rest := loads[..i] + loads[i + 1..];
    order := [n] + rest;
    assert loads == loads[..i] + [n] + loads[i + 1..];
    assert order[1..] == rest;
    ScanFromKeeps(n, rest, excluded);
  }

  /** Over all iteration orders of the node map, the nodes that can be returned are exactly the choosable ones. */
  lemma ScanChoices(loads: seq<NodeLoad>, excluded: set<NodeId>, n: NodeLoad)
    ensures (exists order: seq<NodeLoad> :: multiset(order) == multiset(loads) && Scan(order, excluded) == Some(n))
       <==> Choosable(n, loads, excluded)
  {
    if order: seq<NodeLoad> :| multiset(order) == multiset(loads) && Scan(order, excluded) == Some(n) {
      ScanFromChoosable(None, order, excluded);
      forall m ensures m in order <==> m in loads { SameNodes(order, loads, m); }
    }
    if Choosable(n, loads, excluded) {
      var order := FirstIsKept(loads, excluded, n);
    }
  }

  /** The returned node's full load exceeds the least full load by at most its own starting CPUs, hence by 24. */
  lemma ScanBound(loads: seq<NodeLoad>, excluded: set<NodeId>, m: NodeLoad)
    requires m in loads && m.Eligible(excluded)
    ensures var r := Scan(loads, excluded);
            && r.Some? && Choosable(r.value, loads, excluded)
            && r.value.Total() <= m.Total() + StartingCpus(r.value.starting)
            && ((forall k :: k in r.value.starting ==> r.value.starting[k].cpus <= 8) ==>
                  r.value.Total() <= m.Total() + 24)
  {
    ScanFromChoosable(None, loads, excluded);
    var r := Scan(loads, excluded).value;
    if forall k :: k in r.starting ==> r.starting[k].cpus <= MAX_TEMPLATE_CPU {
      StartingCpusBound(r.starting);
    }
  }

  lemma ThreeStarting(e: Starting) returns (m: map<SandboxId, Starting>)
    ensures |m| == 3 && StartingCpus(m) == 3 * e.cpus
  {
    var one: map<SandboxId, Starting> := map["a" := e];
    var two, three := one["b" := e], one["b" := e]["c" := e];
    StartingCpusRemove(one, "a");
    StartingCpusRemove(two, "b");
    StartingCpusRemove(three, "c");
    assert one - {"a"} == map[] && two - {"b"} == one && three - {"c"} == two;
    m := three;
  }

  /** The scan returns a node whose full load exceeds that of an eligible node by the whole bound. */
  ghost predicate MissesByBound(loads: seq<NodeLoad>, m: NodeLoad) {
    && m in loads && m.Eligible({}) && Scan(loads, {}).Some?
    && Scan(loads, {}).value.Total() == m.Total() + 24
  }

  lemma ScanOfTwo(first: NodeLoad, second: NodeLoad)
    requires Better(None, first, {}) == Some(first) && Better(Some(first), second, {}) == Some(first)
    ensures Scan([first, second], {}) == Some(first)
  {
    assert [first, second][1..] == [second] && [second][1..] == [];
    assert ScanFrom(Some(first), [second], {}) == ScanFrom(Some(first), [], {});
  }

  /** The bound of 24 is reached: the node returned is not the one with the least full load. */
  lemma ScanBoundReached()
    ensures exists loads: seq<NodeLoad>, m: NodeLoad :: MissesByBound(loads, m)
  {
    var starting := ThreeStarting(Starting(512, MAX_TEMPLATE_CPU));
    var busy, idle := NodeLoad("n1", true, 0, starting), NodeLoad("n2", true, 0, map[]);
    assert busy.Eligible({}) && Better(None, busy, {}) == Some(busy);
    assert idle.Total() == 0 && busy.Total() == 24 && Better(Some(busy), idle, {}) == Some(busy);
    ScanOfTwo(busy, idle);
    assert [busy, idle][1] == idle;
    assert MissesByBound([busy, idle], idle);
  }

  // ---- The nodes and the scan over them -----------------------------------------------------

  class Node {
    const id: NodeId
    var ready: bool
    var cpuUsage: int
    var starting: map<SandboxId, Starting>
    var createFails: nat

    constructor (id: NodeId)
      ensures this.id == id && ready && cpuUsage == 0 && starting == map[] && createFails == 0
    {
      this.id, ready, cpuUsage, starting, createFails := id, true, 0, map[], 0;
    }

    ghost function Load(): NodeLoad
      reads this
    {
      NodeLoad(id, ready, cpuUsage, starting)
    }
  }

  ghost function Loads(order: seq<Node>): seq<NodeLoad>
    reads order
  {
    seq(|order|, i requires 0 <= i < |order| reads order => order[i].Load())
  }

  /** The node map is keyed by the nodes' own IDs. */
  ghost predicate Keyed(nodes: map<NodeId, Node>) {
    forall k :: k in nodes ==> nodes[k].id == k
  }

  /** The nodes in some order, each once where the map is keyed by their IDs: what ranging over the node map yields. */
  method Items(nodes: map<NodeId, Node>) returns (order: seq<Node>)
    ensures forall n :: n in order <==> n in nodes.Values
    ensures Keyed(nodes) ==> NoDuplicates(order)
  {
    var keys := nodes.Keys;
    order := [];
    while keys != {}
      invariant keys <= nodes.Keys
      invariant forall n :: n in order <==> exists k :: k in nodes && k !in keys && nodes[k] == n
      invariant Keyed(nodes) ==> NoDuplicates(order)
      decreases |keys|
    {
      var k :| k in keys;
      assert Keyed(nodes) ==> nodes[k] !in order;
      order := order + [nodes[k]];
      keys := keys - {k};
    }
  }

  method SumStarting(m: map<SandboxId, Starting>) returns (cpus: int)
    ensures cpus == StartingCpus(m)
  {
    cpus := 0;
    var rest := m;
    while rest != map[]
      invariant cpus + StartingCpus(rest) == StartingCpus(m)
      decreases |rest|
    {
      var k :| k in rest;
      StartingCpusRemove(rest, k);
      cpus := cpus + rest[k].cpus;
      rest := rest - {k};
    }
  }

  /** The loop's comparison is that of the scan. */
  lemma ScanRound(front: seq<Node>, best: Node?, node: Node, excluded: set<NodeId>)
    requires best == null ==> Scan(Loads(front), excluded) == None
    requires best != null ==> Scan(Loads(front), excluded) == Some(best.Load())
    ensures Scan(Loads(front + [node]), excluded) ==
            if node.Load().Eligible(excluded) && (best == null || node.Load().Total() < best.cpuUsage)
            then Some(node.Load()) else Scan(Loads(front), excluded)
  {
    ScanFromPush(None, Loads(front), node.Load(), excluded);
    assert Loads(front + [node]) == Loads(front) + [node.Load()];
  }

  /** One pass over the nodes in the given order. */
  method ScanNodes(order: seq<Node>, excluded: set<NodeId>) returns (best: Node?)
    ensures best == null ==> Scan(Loads(order), excluded) == None
    ensures best != null ==> best in order && Scan(Loads(order), excluded) == Some(best.Load())
  {
    best := null;
    for i := 0 to |order|
      invariant best == null ==> Scan(Loads(order[..i]), excluded) == None
      invariant best != null ==> best in order && Scan(Loads(order[..i]), excluded) == Some(best.Load())
    {
      var node := order[i];
      ScanRound(order[..i], best, node, excluded);
      assert order[..i + 1] == order[..i] + [node];
      if !node.ready {
        continue;
      }
      if node.id in excluded {
        continue;
      }
      if |node.starting| > MAX_STARTING_PER_NODE {
        continue;
      }
      var cpus := SumStarting(node.starting);
      if best == null || node.cpuUsage + cpus < best.cpuUsage {
        best := node;
      }
    }
    assert order[..|order|] == order;
  }

  ghost predicate ChosenFrom(was: map<NodeId, NodeState>, excluded: set<NodeId>, id: NodeId) {
    && id in was && was[id].load.Eligible(excluded)
    && forall k :: k in was && was[k].load.Eligible(excluded) ==> was[id].load.cpuUsage <= was[k].load.Total()
  }

  /** Scans again and again until a node is found or the wait ends, after a number of scans not in the model's hands. */
  method GetLeastBusyNode(nodes: map<NodeId, Node>, excluded: set<NodeId>, scans: nat) returns (best: Node?)
    requires Keyed(nodes)
    ensures best != null ==>
              best.id in nodes && nodes[best.id] == best && ChosenFrom(States(nodes), excluded, best.id)
    ensures best != null ==> best.ready && best.id !in excluded && |best.starting| <= 3
    ensures best == null <==> scans == 0 || NoneEligible(States(nodes), excluded)
    ensures best == null && scans > 0 ==>
              forall k :: k in nodes ==> !nodes[k].ready || k in excluded || |nodes[k].starting| > 3
  {
    best := null;
    for round := 0 to scans
      invariant best == null
      invariant round > 0 ==> NoneEligible(States(nodes), excluded)
    {
      var order := Items(nodes);
      best := ScanNodes(order, excluded);
      ScanFromChoosable(None, Loads(order), excluded);
      ItemsLoads(nodes, order);
      if best != null {
        return;
      }
    }
    assert scans > 0 ==> forall k :: k in nodes ==> !States(nodes)[k].load.Eligible(excluded);
  }

  /** No node can take the sandbox. */
  ghost predicate NoneEligible(states: map<NodeId, NodeState>, excluded: set<NodeId>) {
    forall k :: k in states ==> !states[k].load.Eligible(excluded)
  }

  /** In the words of the source: the node is ready, not excluded and starts at most three sandboxes, and what it settled
      on is at most what any such node would come to with those it starts. */
  lemma ChosenMeans(was: map<NodeId, NodeState>, excluded: set<NodeId>, id: NodeId)
    requires forall k :: k in was ==> was[k].load.id == k
    ensures ChosenFrom(was, excluded, id) <==>
              && id in was && was[id].load.ready && id !in excluded && |was[id].load.starting| <= 3
              && forall k :: k in was && was[k].load.ready && k !in excluded && |was[k].load.starting| <= 3 ==>
                   was[id].load.cpuUsage <= was[k].load.cpuUsage + StartingCpus(was[k].load.starting)
  {
  }

  lemma ItemsLoads(nodes: map<NodeId, Node>, order: seq<Node>)
    requires forall n :: n in order <==> n in nodes.Values
    ensures forall k :: k in nodes ==> nodes[k].Load() in Loads(order)
    ensures forall l :: l in Loads(order) ==> exists k :: k in nodes && nodes[k].Load() == l
  {
    forall k | k in nodes ensures nodes[k].Load() in Loads(order) {
      assert nodes[k] in order;
      var i :| 0 <= i < |order| && order[i] == nodes[k];
      assert Loads(order)[i] == nodes[k].Load();
    }
    forall l | l in Loads(order) ensures exists k :: k in nodes && nodes[k].Load() == l {
      var i :| 0 <= i < |order| && Loads(order)[i] == l;
      assert order[i] in nodes.Values;
    }
  }

  // ---- CreateSandbox ------------------------------------------------------------------------

  datatype CreateError = CreateFailed | NoNode

  /** What one node looks like to this request: its load and its failure counter. */
  datatype NodeState = NodeState(load: NodeLoad, fails: nat) {
    ghost function Begin(sandboxId: SandboxId, demand: Starting): NodeState {
      this.(load := load.(starting := load.starting[sandboxId := demand]))
    }
    ghost function End(sandboxId: SandboxId): NodeState {
      this.(load := load.(starting := load.starting - {sandboxId}))
    }
    ghost function Fail(): NodeState {
      this.(fails := fails + 1)
    }
  }

  ghost function States(nodes: map<NodeId, Node>): map<NodeId, NodeState>
    reads nodes.Values
  {
    map k | k in nodes :: NodeState(nodes[k].Load(), nodes[k].createFails)
  }

  ghost predicate Member(nodes: map<NodeId, Node>, node: Node) {
    node.id in nodes && nodes[node.id] == node
  }

  method InsertStarting(nodes: map<NodeId, Node>, node: Node, sandboxId: SandboxId, demand: Starting)
    requires Keyed(nodes) && Member(nodes, node)
    modifies node
    ensures States(nodes) == old(States(nodes)[node.id := States(nodes)[node.id].Begin(sandboxId, demand)])
    ensures node.starting == old(node.starting)[sandboxId := demand]
    ensures node.ready == old(node.ready) && node.cpuUsage == old(node.cpuUsage) && node.createFails == old(node.createFails)
  {
    node.starting := node.starting[sandboxId := demand];
  }

  method RemoveStarting(nodes: map<NodeId, Node>, node: Node, sandboxId: SandboxId)
    requires Keyed(nodes) && Member(nodes, node)
    modifies node
    ensures States(nodes) == old(States(nodes)[node.id := States(nodes)[node.id].End(sandboxId)])
    ensures node.starting == old(node.starting) - {sandboxId}
    ensures node.ready == old(node.ready) && node.cpuUsage == old(node.cpuUsage) && node.createFails == old(node.createFails)
  {
    node.starting := node.starting - {sandboxId};
  }

  method AddCreateFail(nodes: map<NodeId, Node>, node: Node)
    requires Keyed(nodes) && Member(nodes, node)
    modifies node
    ensures States(nodes) == old(States(nodes)[node.id := States(nodes)[node.id].Fail()])
    ensures node.createFails == old(node.createFails) + 1
    ensures node.ready == old(node.ready) && node.cpuUsage == old(node.cpuUsage) && node.starting == old(node.starting)
  {
    node.createFails := node.createFails + 1;
  }

  /** From index `from` on, each tried node was eligible and choosable among the nodes not tried before it. */
  ghost predicate Picked(tried: seq<NodeId>, was: map<NodeId, NodeState>, from: nat) {
    forall i {:trigger PickedAt(tried, was, i)} :: from <= i < |tried| ==> PickedAt(tried, was, i)
  }

  ghost predicate PickedAt(tried: seq<NodeId>, was: map<NodeId, NodeState>, i: nat)
    requires i < |tried|
  {
    ChosenFrom(was, (set k | k in tried[..i]), tried[i])
  }

  /** A node after this request is done with it: the sandbox's entry is gone and a refusal is counted. */
  ghost function Settled(s: NodeState, sandboxId: SandboxId, tried: bool, failed: bool): NodeState {
    var t := if tried then s.End(sandboxId) else s;
    if failed then t.Fail() else t
  }

  ghost function AllSettled(was: map<NodeId, NodeState>, sandboxId: SandboxId, tried: seq<NodeId>, failed: seq<NodeId>): map<NodeId, NodeState> {
    map k | k in was :: Settled(was[k], sandboxId, k in tried, k in failed)
  }

  /** What holds whenever no node is being asked: the nodes in `tried` refused, and nothing else happened. */
  ghost predicate Retrying(tried: seq<NodeId>, excluded: set<NodeId>, was: map<NodeId, NodeState>, sandboxId: SandboxId,
                           now: map<NodeId, NodeState>, from: nat) {
    && NoDuplicates(tried) && (forall k :: k in excluded <==> k in tried) && excluded <= was.Keys
    && now == AllSettled(was, sandboxId, tried, tried)
    && Picked(tried, was, from)
  }

  /** What holds at the end: the nodes in `tried` were asked, and those in `failed` refused. */
  ghost predicate Retried(tried: seq<NodeId>, failed: seq<NodeId>, was: map<NodeId, NodeState>, sandboxId: SandboxId,
                          now: map<NodeId, NodeState>, from: nat) {
    && NoDuplicates(tried) && (forall k :: k in tried ==> k in was)
    && now == AllSettled(was, sandboxId, tried, failed)
    && Picked(tried, was, from)
  }

  lemma SettlePush(was: map<NodeId, NodeState>, sandboxId: SandboxId, tried: seq<NodeId>, id: NodeId, demand: Starting)
    requires id in was && id !in tried
    ensures var m0 := AllSettled(was, sandboxId, tried, tried);
            var m1 := m0[id := m0[id].Begin(sandboxId, demand)];
            var m2 := m1[id := m1[id].End(sandboxId)];
            && m2 == AllSettled(was, sandboxId, tried + [id], tried)
            && m2[id := m2[id].Fail()] == AllSettled(was, sandboxId, tried + [id], tried + [id])
  {
    assert was[id].load.starting[sandboxId := demand] - {sandboxId} == was[id].load.starting - {sandboxId};
  }

  lemma PickedPush(tried: seq<NodeId>, excluded: set<NodeId>, was: map<NodeId, NodeState>, sandboxId: SandboxId,
                   m0: map<NodeId, NodeState>, from: nat, id: NodeId)
    requires (forall k :: k in was ==> was[k].load.id == k) && id in was
    requires Retrying(tried, excluded, was, sandboxId, m0, from)
    requires (tried == [] && from == 1) || ChosenFrom(m0, excluded, id)
    ensures Picked(tried + [id], was, from) && id !in tried
  {
    var all := tried + [id];
    assert excluded == set k | k in tried;
    forall i | from <= i < |all| ensures PickedAt(all, was, i) {
      if i < |tried| {
        assert PickedAt(tried, was, i) && all[..i] == tried[..i];
      } else {
        assert all[..i] == tried;
        forall k | k in was && was[k].load.Eligible(excluded) ensures m0[k] == was[k] { }
      }
    }
  }

  /** Asking one more node, which accepts or refuses. Nodes not tried yet still have the load they had at first,
      so choosing among them now is choosing among them then. */
  lemma AskNode(tried: seq<NodeId>, excluded: set<NodeId>, was: map<NodeId, NodeState>, sandboxId: SandboxId,
                m0: map<NodeId, NodeState>, from: nat, id: NodeId, demand: Starting)
    requires (forall k :: k in was ==> was[k].load.id == k) && id in was
    requires Retrying(tried, excluded, was, sandboxId, m0, from)
    requires (tried == [] && from == 1) || ChosenFrom(m0, excluded, id)
    ensures var m1 := m0[id := m0[id].Begin(sandboxId, demand)];
            var m2 := m1[id := m1[id].End(sandboxId)];
            && Retried(tried + [id], tried, was, sandboxId, m2, from)
            && Retrying(tried + [id], excluded + {id}, was, sandboxId, m2[id := m2[id].Fail()], from)
  {
    PickedPush(tried, excluded, was, sandboxId, m0, from, id);
    SettlePush(was, sandboxId, tried, id, demand);
  }

  /** Asks one node: its entry is in progress while the node answers, and a refusal is counted. */
  method TryNode(nodes: map<NodeId, Node>, node: Node, sandboxId: SandboxId, demand: Starting, ghost tried: seq<NodeId>,
                 ghost excluded: set<NodeId>, ghost was: map<NodeId, NodeState>, ghost from: nat, accepted: bool)
    requires Keyed(nodes) && Member(nodes, node) && was.Keys == nodes.Keys
    requires forall k :: k in was ==> was[k].load.id == k
    requires Retrying(tried, excluded, was, sandboxId, States(nodes), from)
    requires (tried == [] && from == 1) || ChosenFrom(States(nodes), excluded, node.id)
    modifies node
    ensures accepted ==> Retried(tried + [node.id], tried, was, sandboxId, States(nodes), from)
    ensures !accepted ==> Retrying(tried + [node.id], excluded + {node.id}, was, sandboxId, States(nodes), from)
  {
    AskNode(tried, excluded, was, sandboxId, States(nodes), from, node.id, demand);
    InsertStarting(nodes, node, sandboxId, demand);
    // on success the removal is deferred until the instance is in the cache
    RemoveStarting(nodes, node, sandboxId);
    if !accepted {
      AddCreateFail(nodes, node);
    }
  }

  /** What the outside decides in one attempt: whether the request has ended before it, how often the nodes are
      scanned before waiting for one ends, and whether the node asked accepts. */
  datatype Attempt = Attempt(ended: bool, scans: nat, accepts: bool)

  /** The first n attempts all went to a node that refused. */
  ghost predicate AllRefused(world: seq<Attempt>, n: int) {
    n <= |world| && forall a :: 0 <= a < n ==> !world[a].ended && !world[a].accepts
  }

  /** One attempt: the node found is asked, unless none is found. */
  method PickAndTry(nodes: map<NodeId, Node>, first: Node?, sandboxId: SandboxId, demand: Starting,
                    ghost tried: seq<NodeId>, excluded: set<NodeId>, ghost was: map<NodeId, NodeState>,
                    ghost from: nat, attempt: Attempt)
    returns (node: Node?)
    requires Keyed(nodes) && was.Keys == nodes.Keys && forall k :: k in was ==> was[k].load.id == k
    requires Retrying(tried, excluded, was, sandboxId, States(nodes), from)
    requires first != null ==> Member(nodes, first) && tried == [] && from == 1
    modifies nodes.Values
    ensures first != null ==> node == first
    ensures node == null ==> States(nodes) == old(States(nodes))
    ensures node == null ==> attempt.scans == 0 || NoneEligible(States(nodes), (set k | k in tried))
    ensures node != null ==>
              if attempt.accepts then Retried(tried + [node.id], tried, was, sandboxId, States(nodes), from)
              else Retrying(tried + [node.id], excluded + {node.id}, was, sandboxId, States(nodes), from)
  {
    node := first;
    if node == null {
      node := GetLeastBusyNode(nodes, excluded, attempt.scans);
      if node == null {
        assert excluded == set k | k in tried;
        return;
      }
    }
    TryNode(nodes, node, sandboxId, demand, tried, excluded, was, from, attempt.accepts);
  }

  ghost predicate AcceptedAt(world: seq<Attempt>, n: int) {
    0 < n <= |world| && world[n - 1].accepts
  }

  lemma NextAttempt(world: seq<Attempt>, n: nat)
    requires n < |world| && AllRefused(world, n) && !world[n].ended
    ensures if world[n].accepts then AcceptedAt(world, n + 1) else AllRefused(world, n + 1)
  {
  }

  /** At most three nodes are asked. All refused but the last one of a success, which accepted; a failure has its
      reason: three refusals, the request's end, or no node to be found among those not tried. */
  ghost predicate Explained(r: Result<NodeId, CreateError>, tried: seq<NodeId>, world: seq<Attempt>,
                            states: map<NodeId, NodeState>)
    requires |world| > MAX_NODE_RETRIES
  {
    && |tried| <= 3
    && match r
       case Success(id) =>
         tried != [] && id == tried[|tried| - 1] && AcceptedAt(world, |tried|) && AllRefused(world, |tried| - 1)
       case Failure(CreateFailed) =>
         (|tried| == 3 || world[|tried|].ended) && AllRefused(world, |tried|)
       case Failure(NoNode) =>
         (world[|tried|].scans == 0 || NoneEligible(states, (set k | k in tried))) && AllRefused(world, |tried|)
  }

  method FirstChoice(nodes: map<NodeId, Node>, isResume: bool, clientId: Option<NodeId>) returns (node: Node?)
    requires Keyed(nodes)
    ensures node != null <==> isResume && clientId.Some? && clientId.value in nodes && nodes[clientId.value].ready
    ensures node != null ==> node.id == clientId.value
    ensures node != null ==> isResume && Member(nodes, node)
  {
    node := null;
    if isResume && clientId.Some? {
      if clientId.value in nodes {
        node := nodes[clientId.value];
      }
      if node != null && !node.ready {
        node := null;
      }
    }
  }

  /** One round of the retry loop, with some nodes tried; it ends the loop with a result or adds a refusing node. */
  method Round(nodes: map<NodeId, Node>, node: Node?, sandboxId: SandboxId, demand: Starting, world: seq<Attempt>,
               attempt: nat, tried: seq<NodeId>, excluded: set<NodeId>, ghost was: map<NodeId, NodeState>, ghost from: nat)
    returns (r: Option<Result<NodeId, CreateError>>, more: seq<NodeId>)
    requires Keyed(nodes) && was.Keys == nodes.Keys && (forall k :: k in was ==> was[k].load.id == k)
    requires |world| > MAX_NODE_RETRIES && attempt == |tried| + 1 <= MAX_NODE_RETRIES + 1
    requires Retrying(tried, excluded, was, sandboxId, States(nodes), from) && AllRefused(world, |tried|)
    requires node != null ==> Member(nodes, node) && tried == [] && from == 1
    modifies nodes.Values
    ensures more == tried || (|more| == |tried| + 1 && more[..|tried|] == tried)
    ensures node != null && more != [] ==> more[0] == node.id
    ensures r.Some? ==> Explained(r.value, more, world, States(nodes))
    ensures r.Some? ==> Retried(more, if r.value.Success? then more[..|more| - 1] else more, was, sandboxId, States(nodes), from)
    ensures r.None? ==> |tried| < |more| <= MAX_NODE_RETRIES && AllRefused(world, |more|)
    ensures r.None? ==> Retrying(more, excluded + {more[|more| - 1]}, was, sandboxId, States(nodes), from)
  {
    if world[attempt - 1].ended {
      return Some(Failure(CreateFailed)), tried;
    }
    if attempt > MAX_NODE_RETRIES {
      return Some(Failure(CreateFailed)), tried;
    }
    NextAttempt(world, |tried|);
    var picked := PickAndTry(nodes, node, sandboxId, demand, tried, excluded, was, from, world[attempt - 1]);
    if picked == null {
      return Some(Failure(NoNode)), tried;
    }
    more := tried + [picked.id];
    r := if world[attempt - 1].accepts then Some(Success(picked.id)) else None;
  }

  /** The retry loop: nodes are tried until one accepts, starting with the first choice of a resume. */
  method Retry(nodes: map<NodeId, Node>, first: Node?, sandboxId: SandboxId, demand: Starting, world: seq<Attempt>,
               ghost was: map<NodeId, NodeState>, ghost from: nat)
    returns (r: Result<NodeId, CreateError>, tried: seq<NodeId>)
    requires Keyed(nodes) && |world| > MAX_NODE_RETRIES && was == States(nodes)
    requires first != null ==> Member(nodes, first) && from == 1
    modifies nodes.Values
    ensures Explained(r, tried, world, States(nodes))
    ensures Retried(tried, if r.Success? then tried[..|tried| - 1] else tried, was, sandboxId, States(nodes), from)
    ensures first != null && tried != [] ==> tried[0] == first.id
  {
    var node := first;
    tried := [];
    var attempt: nat := 1;
    var excluded: set<NodeId> := {};
    assert States(nodes) == AllSettled(was, sandboxId, [], []);
    while true
      invariant attempt == |tried| + 1 <= MAX_NODE_RETRIES + 1
      invariant Retrying(tried, excluded, was, sandboxId, States(nodes), from) && AllRefused(world, |tried|)
      invariant if tried == [] then node == first else node == null && (first != null ==> tried[0] == first.id)
      decreases MAX_NODE_RETRIES + 1 - attempt
    {
      var done;
      done, tried := Round(nodes, node, sandboxId, demand, world, attempt, tried, excluded, was, from);
      if done.Some? {
        return done.value, tried;
      }
      excluded := excluded + {tried[|tried| - 1]};
      node := null;
      attempt := attempt + 1;
    }
  }

  /** Places a sandbox; `tried` lists the nodes asked, in order. */
  method CreateSandbox(nodes: map<NodeId, Node>, sandboxId: SandboxId, demand: Starting, isResume: bool,
                       clientId: Option<NodeId>, world: seq<Attempt>)
    returns (r: Result<NodeId, CreateError>, tried: seq<NodeId>)
    requires Keyed(nodes) && |world| > MAX_NODE_RETRIES
    modifies nodes.Values
    ensures Explained(r, tried, world, States(nodes))
    ensures Retried(tried, if r.Success? then tried[..|tried| - 1] else tried, old(States(nodes)), sandboxId,
                    States(nodes), if isResume && clientId.Some? && clientId.value in nodes && old(nodes[clientId.value].ready)
                                   then 1 else 0)
    ensures tried != [] && isResume && clientId.Some? && clientId.value in nodes && old(nodes[clientId.value].ready) ==>
              tried[0] == clientId.value
    ensures |tried| <= 3
  {
    var node := FirstChoice(nodes, isResume, clientId);
    r, tried := Retry(nodes, node, sandboxId, demand, world, States(nodes), if node == null then 0 else 1);
  }

  lemma {:induction false} DistinctSize(s: seq<NodeId>)
    requires NoDuplicates(s)
    ensures |set k | k in s| == |s|
  {
    if s != [] {
      var front, last := s[..|s| - 1], s[|s| - 1];
      DistinctSize(front);
      assert s == front + [last];
      assert (set k | k in s) == (set k | k in front) + {last};
    }
  }

  /** The nodes whose failure counter grew are exactly the refusing ones, one each, and no counter grew by more. */
  lemma FailuresCounted(tried: seq<NodeId>, failed: seq<NodeId>, was: map<NodeId, NodeState>, sandboxId: SandboxId,
                        now: map<NodeId, NodeState>, from: nat)
    requires Retried(tried, failed, was, sandboxId, now, from) && failed <= tried
    ensures now.Keys == was.Keys
    ensures |set k | k in was && now[k].fails != was[k].fails| == |failed|
    ensures forall k :: k in was ==> was[k].fails <= now[k].fails <= was[k].fails + 1
    ensures forall k :: k in was && k in failed ==> now[k].fails == was[k].fails + 1
    ensures forall k :: k in was && k in tried ==> sandboxId !in now[k].load.starting
    ensures forall k, other :: k in was && other != sandboxId && other in was[k].load.starting ==>
              other in now[k].load.starting && now[k].load.starting[other] == was[k].load.starting[other]
    ensures forall k :: k in was ==> now[k].load.starting.Keys <= was[k].load.starting.Keys
    ensures forall k :: k in was ==> now[k].load.id == was[k].load.id && now[k].load.ready == was[k].load.ready
                                     && now[k].load.cpuUsage == was[k].load.cpuUsage
    ensures forall k :: k in was && k !in tried ==> now[k] == was[k]
  {
    assert NoDuplicates(failed);
    DistinctSize(failed);
    forall k | k in was ensures now[k].fails == was[k].fails + if k in failed then 1 else 0 {
      assert now[k] == Settled(was[k], sandboxId, k in tried, k in failed);
    }
    assert (set k | k in was && now[k].fails != was[k].fails) == set k | k in failed;
  }
}
