// Loading the edges of many envs with one query each (packages/shared/pkg/models/env_query.go):
// collect the keys, ask once with an IN list, and hand the rows out through a map.
module EdgeLoading {
  import opened Prelude

  type Key = string

  datatype User = User(id: Key)
  datatype EnvBuild = EnvBuild(id: Key, envId: Option<Key>)

  class Env {
    const id: Key
    const createdBy: Option<Key>
    var creator: Option<User>
    var builds: seq<EnvBuild>

    constructor (id: Key, createdBy: Option<Key>)
      ensures this.id == id && this.createdBy == createdBy && creator == None && builds == []
    {
      this.id, this.createdBy, creator, builds := id, createdBy, None, [];
    }
  }

  // ---- To-one: loadCreator (loadTeam is the case without nil keys) ----------------------------

  /** The last row with the given key, if any. */
  function LastWith(rows: seq<User>, key: Option<Key>, default: Option<User>): Option<User> {
    if rows == [] then default
    else if Some(rows[|rows| - 1].id) == key then Some(rows[|rows| - 1])
    else LastWith(rows[..|rows| - 1], key, default)
  }

  /** The row at i has the key, and no later one does. */
  ghost predicate LastAt(rows: seq<User>, i: nat, key: Key) {
    i < |rows| && rows[i].id == key && forall j :: i < j < |rows| ==> rows[j].id != key
  }

  /** What the last row with a key means. */
  lemma {:induction false} LastWithIsLast(rows: seq<User>, key: Key, default: Option<User>, i: nat)
    ensures LastAt(rows, i, key) ==> LastWith(rows, Some(key), default) == Some(rows[i])
    ensures (forall n :: n in rows ==> n.id != key) ==> LastWith(rows, Some(key), default) == default
    ensures LastWith(rows, None, default) == default
  {
    if rows != [] {
      var front := rows[..|rows| - 1];
      LastWithIsLast(front, key, default, i);
      assert LastAt(rows, i, key) && i < |front| ==> LastAt(front, i, key);
      assert rows[|rows| - 1] in rows;
    }
  }

  ghost predicate HasKey(nodes: seq<Env>, upto: nat, k: Key)
    requires upto <= |nodes|
  {
    exists i :: 0 <= i < upto && nodes[i].createdBy == Some(k)
  }

  /** The keys asked for: each key some env has, once. */
  ghost predicate AskedKeys(ids: seq<Key>, nodes: seq<Env>, upto: nat)
    requires upto <= |nodes|
  {
    NoDuplicates(ids) && forall k :: k in ids <==> HasKey(nodes, upto, k)
  }

  /** The envs waiting for each key. */
  ghost predicate Groups(nodeids: map<Key, seq<Env>>, nodes: seq<Env>, upto: nat)
    requires upto <= |nodes|
  {
    && (forall k :: k in nodeids <==> HasKey(nodes, upto, k))
    && (forall k, e :: k in nodeids && e in nodeids[k] ==> e in nodes && e.createdBy == Some(k))
    && (forall i :: 0 <= i < upto && nodes[i].createdBy.Some? ==> Waits(nodeids, nodes[i]))
  }

  ghost predicate Waits(nodeids: map<Key, seq<Env>>, e: Env)
    requires e.createdBy.Some?
  {
    e.createdBy.value in nodeids && e in nodeids[e.createdBy.value]
  }

  function Enqueue(nodeids: map<Key, seq<Env>>, fk: Key, e: Env): map<Key, seq<Env>> {
    nodeids[fk := (if fk in nodeids then nodeids[fk] else []) + [e]]
  }

  lemma HasKeyPush(nodes: seq<Env>, i: nat)
    requires i < |nodes|
    ensures forall k :: HasKey(nodes, i + 1, k) <==> HasKey(nodes, i, k) || nodes[i].createdBy == Some(k)
  {
  }

  lemma AskedPush(ids: seq<Key>, nodes: seq<Env>, i: nat, fk: Key)
    requires i < |nodes| && nodes[i].createdBy == Some(fk) && AskedKeys(ids, nodes, i)
    ensures AskedKeys(if fk in ids then ids else ids + [fk], nodes, i + 1)
  {
    HasKeyPush(nodes, i);
  }

  lemma GroupsPush(nodeids: map<Key, seq<Env>>, nodes: seq<Env>, i: nat, fk: Key)
    requires i < |nodes| && nodes[i].createdBy == Some(fk) && Groups(nodeids, nodes, i)
    ensures Groups(Enqueue(nodeids, fk, nodes[i]), nodes, i + 1)
  {
    HasKeyPush(nodes, i);
    var next := Enqueue(nodeids, fk, nodes[i]);
    forall j | 0 <= j < i + 1 && nodes[j].createdBy.Some? ensures Waits(next, nodes[j]) {
      assert j < i ==> Waits(nodeids, nodes[j]);
    }
  }

  lemma CollectStep(ids: seq<Key>, nodeids: map<Key, seq<Env>>, nodes: seq<Env>, i: nat)
    requires i < |nodes| && AskedKeys(ids, nodes, i) && Groups(nodeids, nodes, i)
    ensures nodes[i].createdBy.None? ==> AskedKeys(ids, nodes, i + 1) && Groups(nodeids, nodes, i + 1)
    ensures nodes[i].createdBy.Some? ==>
              var fk := nodes[i].createdBy.value;
              && AskedKeys(if fk in nodeids then ids else ids + [fk], nodes, i + 1)
              && Groups(Enqueue(nodeids, fk, nodes[i]), nodes, i + 1)
  {
    HasKeyPush(nodes, i);
    if nodes[i].createdBy.Some? {
      AskedPush(ids, nodes, i, nodes[i].createdBy.value);
      GroupsPush(nodeids, nodes, i, nodes[i].createdBy.value);
    }
  }

  /** First pass: the keys to ask for, and the envs waiting for each. */
  method CollectCreators(nodes: seq<Env>) returns (ids: seq<Key>, nodeids: map<Key, seq<Env>>)
    ensures AskedKeys(ids, nodes, |nodes|) && Groups(nodeids, nodes, |nodes|)
  {
    ids := [];
    nodeids := map[];
    for i := 0 to |nodes|
      invariant AskedKeys(ids, nodes, i) && Groups(nodeids, nodes, i)
    {
      CollectStep(ids, nodeids, nodes, i);
      if nodes[i].createdBy.None? {
        continue;
      }
      var fk := nodes[i].createdBy.value;
      if fk !in nodeids {
        ids := ids + [fk];
      }
      nodeids := Enqueue(nodeids, fk, nodes[i]);
    }
  }

  lemma GroupMembers(nodeids: map<Key, seq<Env>>, nodes: seq<Env>, k: Key)
    requires Groups(nodeids, nodes, |nodes|) && k in nodeids
    ensures forall e :: e in nodeids[k] ==> e in nodes
    ensures forall e :: e in nodes ==> (e in nodeids[k] <==> e.createdBy == Some(k))
  {
    forall e | e in nodes && e.createdBy == Some(k) ensures e in nodeids[k] {
      var i :| 0 <= i < |nodes| && nodes[i] == e;
      assert Waits(nodeids, nodes[i]);
    }
  }

  /** Second pass: each row answered goes to the envs waiting for it; a row nobody waits for is an error. */
  method AssignCreators(nodes: seq<Env>, nodeids: map<Key, seq<Env>>, neighbors: seq<User>) returns (ok: bool)
    requires Groups(nodeids, nodes, |nodes|)
    modifies nodes
    ensures ok <==> forall n :: n in neighbors ==> n.id in nodeids
    ensures ok ==> forall e :: e in nodes ==> e.creator == LastWith(neighbors, e.createdBy, old(e.creator))
    ensures forall e :: e in nodes ==> e.builds == old(e.builds)
  {
    for j := 0 to |neighbors|
      invariant forall n :: n in neighbors[..j] ==> n.id in nodeids
      invariant forall e :: e in nodes ==> e.creator == LastWith(neighbors[..j], e.createdBy, old(e.creator))
      invariant forall e :: e in nodes ==> e.builds == old(e.builds)
    {
      var n := neighbors[j];
      assert neighbors[..j + 1] == neighbors[..j] + [n] && neighbors[..j + 1][..j] == neighbors[..j];
      if n.id !in nodeids {
        return false;
      }
      GroupMembers(nodeids, nodes, n.id);
      AssignGroup(nodes, nodeids[n.id], n);
    }
    assert neighbors[..|neighbors|] == neighbors;
    return true;
  }

  /** `all` is the database's answer to the query with the given IN list. Every env gets the last row answered
      for its key; an answer with a key nobody asked for is an error. */
  method LoadCreator(nodes: seq<Env>, all: seq<Key> -> Option<seq<User>>) returns (ok: bool, ids: seq<Key>)
    modifies nodes
    ensures AskedKeys(ids, nodes, |nodes|)
    ensures ids == [] ==> ok && forall e :: e in nodes ==> e.creator == old(e.creator)
    ensures ids != [] ==> (ok <==> all(ids).Some? && forall n :: n in all(ids).value ==> n.id in ids)
    ensures ids != [] && ok ==>
              forall e :: e in nodes ==> e.creator == LastWith(all(ids).value, e.createdBy, old(e.creator))
    ensures forall e :: e in nodes ==> e.builds == old(e.builds)
  {
    var nodeids;
    ids, nodeids := CollectCreators(nodes);
    if |ids| == 0 {
      return true, ids;
    }
    var answer := all(ids);
    if answer.None? {
      return false, ids;
    }
    ok := AssignCreators(nodes, nodeids, answer.value);
  }

  /** The inner loop: the row becomes the edge of every env of its group. */
  method AssignGroup(ghost nodes: seq<Env>, group: seq<Env>, n: User)
    requires forall e :: e in group ==> e in nodes
    modifies nodes
    ensures forall e :: e in nodes ==> e.creator == (if e in group then Some(n) else old(e.creator)) && e.builds == old(e.builds)
  {
    for k := 0 to |group|
      invariant forall e :: e in nodes ==>
                  e.creator == (if e in group[..k] then Some(n) else old(e.creator)) && e.builds == old(e.builds)
    {
      assert group[k] in nodes;
      group[k].creator := Some(n);
    }
  }

  // The reference: one query per row.

  function Lookup(table: seq<User>, key: Option<Key>): Option<User> {
    if table == [] then None else if Some(table[0].id) == key then Some(table[0]) else Lookup(table[1..], key)
  }

  lemma {:induction false} LastWithIn(rows: seq<User>, key: Option<Key>, default: Option<User>)
    ensures var r := LastWith(rows, key, default);
            if exists n :: n in rows && Some(n.id) == key then r.Some? && r.value in rows && Some(r.value.id) == key else r == default
  {
    if rows != [] {
      var front, last := rows[..|rows| - 1], rows[|rows| - 1];
      LastWithIn(front, key, default);
      assert last in rows && forall n :: n in rows <==> n in front || n == last;
    }
  }

  lemma {:induction false} LookupIn(table: seq<User>, key: Option<Key>)
    ensures var r := Lookup(table, key);
            if exists n :: n in table && Some(n.id) == key then r.Some? && r.value in table && Some(r.value.id) == key else r == None
  {
    if table != [] {
      LookupIn(table[1..], key);
    }
  }

  /** An answer to the query, in whatever order: the rows with a key in the list. */
  ghost predicate AnswersQuery(rows: seq<User>, table: seq<User>, ids: seq<Key>) {
    forall n :: n in rows <==> n in table && n.id in ids
  }

  /** The batched load of to-one edges is the per-row lookup, whatever the order of the answer: no foreign-key error,
      shared and missing keys included. */
  lemma CreatorsJoin(table: seq<User>, rows: seq<User>, ids: seq<Key>, nodes: seq<Env>, e: Env)
    requires forall m, n :: m in table && n in table && m.id == n.id ==> m == n
    requires AskedKeys(ids, nodes, |nodes|) && e in nodes && AnswersQuery(rows, table, ids)
    ensures forall n :: n in rows ==> n.id in ids
    ensures LastWith(rows, e.createdBy, None) == Lookup(table, e.createdBy)
  {
    LastWithIn(rows, e.createdBy, None);
    LookupIn(table, e.createdBy);
    if n :| n in table && Some(n.id) == e.createdBy {
      assert n.id in ids;
      assert n in rows;
    }
  }

  /** Loading from a table by one query gives every env what its own query would give. */
  method LoadCreatorFrom(nodes: seq<Env>, table: seq<User>, all: seq<Key> -> seq<User>) returns (ok: bool)
    requires forall m, n :: m in table && n in table && m.id == n.id ==> m == n
    requires forall ids :: AnswersQuery(all(ids), table, ids)
    requires forall e :: e in nodes ==> e.creator == None
    modifies nodes
    ensures ok && forall e :: e in nodes ==> e.creator == Lookup(table, e.createdBy) && e.builds == old(e.builds)
  {
    var ids;
    ok, ids := LoadCreator(nodes, ids => Some(all(ids)));
    assert AnswersQuery(all(ids), table, ids);
    forall e | e in nodes ensures LastWith(all(ids), e.createdBy, None) == Lookup(table, e.createdBy) {
      CreatorsJoin(table, all(ids), ids, nodes, e);
    }
    if ids == [] {
      NobodyAsks(nodes, table);
    }
  }

  lemma NobodyAsks(nodes: seq<Env>, table: seq<User>)
    requires AskedKeys([], nodes, |nodes|)
    ensures forall e :: e in nodes ==> Lookup(table, e.createdBy) == None
  {
    forall e | e in nodes ensures Lookup(table, e.createdBy) == None {
      LookupIn(table, e.createdBy);
      if e.createdBy.Some? {
        HasItsKey(nodes, e);
      }
    }
  }

  lemma HasItsKey(nodes: seq<Env>, e: Env)
    requires e in nodes && e.createdBy.Some?
    ensures HasKey(nodes, |nodes|, e.createdBy.value)
  {
    var i :| 0 <= i < |nodes| && nodes[i] == e;
    assert nodes[i].createdBy == e.createdBy;
  }

  // ---- To-many: loadBuilds (loadEnvAliases and loadSnapshots are the case without nil keys) ---

  function Of(rows: seq<EnvBuild>, env: Key): seq<EnvBuild> {
    if rows == [] then []
    else Of(rows[..|rows| - 1], env) + if rows[|rows| - 1].envId == Some(env) then [rows[|rows| - 1]] else []
  }

  /** The rows of an env are those naming it, in the order given. */
  lemma {:induction false} OfReads(rows: seq<EnvBuild>, env: Key) returns (at: seq<nat>)
    ensures ReadsOff(Of(rows, env), rows, at)
    ensures forall i: nat :: i in at <==> i < |rows| && rows[i].envId == Some(env)
  {
    if rows == [] {
      at := [];
    } else {
      var front, last := rows[..|rows| - 1], rows[|rows| - 1];
      at := OfReads(front, env);
      ReadsOffPush(Of(front, env), front, at, last);
      assert rows == front + [last];
      if last.envId == Some(env) {
        at := at + [|front|];
      } else {
        assert Of(rows, env) == Of(front, env);
      }
    }
  }

  predicate IsLast(nodes: seq<Env>, i: nat)
    requires i < |nodes|
  {
    forall j :: i < j < |nodes| ==> nodes[j].id != nodes[i].id
  }

  ghost predicate Indexed(nodeids: map<Key, Env>, nodes: seq<Env>, upto: nat)
    requires upto <= |nodes|
  {
    && (forall k :: k in nodeids ==> exists i :: 0 <= i < upto && LastBelow(nodes, i, upto) && nodes[i].id == k && nodeids[k] == nodes[i])
    && (forall i :: 0 <= i < upto ==> nodes[i].id in nodeids)
  }

  ghost predicate LastBelow(nodes: seq<Env>, i: nat, upto: nat)
    requires i < upto <= |nodes|
  {
    forall j :: i < j < upto ==> nodes[j].id != nodes[i].id
  }

  method InitBuilds(nodes: seq<Env>) returns (fks: seq<Key>, nodeids: map<Key, Env>)
    modifies (set e | e in nodes)`builds
    ensures |fks| == |nodes| && forall i :: 0 <= i < |nodes| ==> fks[i] == nodes[i].id
    ensures Indexed(nodeids, nodes, |nodes|)
    ensures forall e :: e in nodes ==> e.builds == []
  {
    fks := [];
    nodeids := map[];
    for i := 0 to |nodes|
      invariant |fks| == i && forall j :: 0 <= j < i ==> fks[j] == nodes[j].id
      invariant Indexed(nodeids, nodes, i)
      invariant forall j :: 0 <= j < i ==> nodes[j].builds == []
    {
      IndexPush(nodeids, nodes, i);
      fks := fks + [nodes[i].id];
      nodeids := nodeids[nodes[i].id := nodes[i]];
      nodes[i].builds := [];
    }
  }

  /** What an env has been given of the rows so far. */
  ghost function Given(nodes: seq<Env>, i: nat, rows: seq<EnvBuild>): seq<EnvBuild>
    requires i < |nodes|
  {
    if IsLast(nodes, i) then Of(rows, nodes[i].id) else []
  }

  /** A row goes to the env the index names, and to no other. */
  lemma GivenPush(nodes: seq<Env>, nodeids: map<Key, Env>, rows: seq<EnvBuild>, n: EnvBuild, i: nat)
    requires NoDuplicates(nodes) && Indexed(nodeids, nodes, |nodes|) && i < |nodes|
    requires n.envId.Some? && n.envId.value in nodeids
    ensures Given(nodes, i, rows + [n]) == Given(nodes, i, rows) + if nodes[i] == nodeids[n.envId.value] then [n] else []
    ensures nodeids[n.envId.value] in nodes
  {
    assert (rows + [n])[..|rows|] == rows;
    var k := n.envId.value;
    var j :| 0 <= j < |nodes| && LastBelow(nodes, j, |nodes|) && nodes[j].id == k && nodeids[k] == nodes[j];
    if i != j {
      assert nodes[i] != nodes[j];
      assert nodes[i].id == k ==> !IsLast(nodes, i);
    }
  }

  /** The assign callback of loadBuilds, on the env the index names. */
  method AppendBuild(nodes: seq<Env>, nodeids: map<Key, Env>, n: EnvBuild, ghost rows: seq<EnvBuild>)
    requires NoDuplicates(nodes) && Indexed(nodeids, nodes, |nodes|)
    requires n.envId.Some? && n.envId.value in nodeids
    requires forall i :: 0 <= i < |nodes| ==> nodes[i].builds == Given(nodes, i, rows)
    modifies (set e | e in nodes)`builds
    ensures forall i :: 0 <= i < |nodes| ==> nodes[i].builds == Given(nodes, i, rows + [n])
  {
    var node := nodeids[n.envId.value];
    forall i | 0 <= i < |nodes|
      ensures Given(nodes, i, rows + [n]) == Given(nodes, i, rows) + (if nodes[i] == node then [n] else [])
      ensures node in nodes
    {
      GivenPush(nodes, nodeids, rows, n, i);
    }
    assert node in nodes;
    node.builds := node.builds + [n];
  }

  /** Every row names an env that was asked for. */
  ghost predicate AllKnown(rows: seq<EnvBuild>, nodeids: map<Key, Env>) {
    forall n :: n in rows ==> IsKnown(n, nodeids)
  }

  predicate IsKnown(n: EnvBuild, nodeids: map<Key, Env>) {
    n.envId.Some? && n.envId.value in nodeids
  }

  lemma AllKnownPush(rows: seq<EnvBuild>, j: nat, nodeids: map<Key, Env>)
    requires j < |rows|
    ensures AllKnown(rows[..j + 1], nodeids) <==> AllKnown(rows[..j], nodeids) && IsKnown(rows[j], nodeids)
    ensures AllKnown(rows, nodeids) ==> IsKnown(rows[j], nodeids)
  {
    assert rows[..j + 1] == rows[..j] + [rows[j]];
    assert rows[j] in rows && rows[j] in rows[..j + 1];
  }

  method AssignBuilds(nodes: seq<Env>, nodeids: map<Key, Env>, neighbors: seq<EnvBuild>) returns (ok: bool)
    requires NoDuplicates(nodes) && Indexed(nodeids, nodes, |nodes|)
    requires forall e :: e in nodes ==> e.builds == []
    modifies (set e | e in nodes)`builds
    ensures ok <==> AllKnown(neighbors, nodeids)
    ensures ok ==> forall i :: 0 <= i < |nodes| ==> nodes[i].builds == Given(nodes, i, neighbors)
  {
    for j := 0 to |neighbors|
      invariant AllKnown(neighbors[..j], nodeids)
      invariant forall i :: 0 <= i < |nodes| ==> nodes[i].builds == Given(nodes, i, neighbors[..j])
    {
      var n := neighbors[j];
      assert neighbors[..j + 1] == neighbors[..j] + [n];
      AllKnownPush(neighbors, j, nodeids);
      if n.envId.None? {
        return false;
      }
      if n.envId.value !in nodeids {
        return false;
      }
      AppendBuild(nodes, nodeids, n, neighbors[..j]);
    }
    assert neighbors[..|neighbors|] == neighbors;
    return true;
  }

  /** Every env gets the rows answered for its ID, in the answer's order; of several envs with one ID only the last
      does. Nothing else of an env changes. */
  method LoadBuilds(nodes: seq<Env>, all: seq<Key> -> Option<seq<EnvBuild>>) returns (ok: bool, fks: seq<Key>)
    requires NoDuplicates(nodes)
    modifies (set e | e in nodes)`builds
    ensures |fks| == |nodes| && forall i :: 0 <= i < |nodes| ==> fks[i] == nodes[i].id
    ensures ok <==> all(fks).Some? && forall n :: n in all(fks).value ==> n.envId.Some? && n.envId.value in fks
    ensures ok ==> forall i :: 0 <= i < |nodes| ==> nodes[i].builds == Given(nodes, i, all(fks).value)
  {
    var nodeids;
    fks, nodeids := InitBuilds(nodes);
    var answer := all(fks);
    if answer.None? {
      return false, fks;
    }
    IndexedKeys(nodeids, nodes, fks);
    ok := AssignBuilds(nodes, nodeids, answer.value);
  }

  lemma IndexedKeys(nodeids: map<Key, Env>, nodes: seq<Env>, fks: seq<Key>)
    requires Indexed(nodeids, nodes, |nodes|)
    requires |fks| == |nodes| && forall i :: 0 <= i < |nodes| ==> fks[i] == nodes[i].id
    ensures forall k :: k in nodeids <==> k in fks
  {
    forall k | k in nodeids ensures k in fks {
      var i :| 0 <= i < |nodes| && LastBelow(nodes, i, |nodes|) && nodes[i].id == k && nodeids[k] == nodes[i];
      assert fks[i] == k;
    }
  }

  lemma IndexPush(nodeids: map<Key, Env>, nodes: seq<Env>, i: nat)
    requires i < |nodes| && Indexed(nodeids, nodes, i)
    ensures Indexed(nodeids[nodes[i].id := nodes[i]], nodes, i + 1)
  {
    var after := nodeids[nodes[i].id := nodes[i]];
    forall k | k in after
      ensures exists j :: 0 <= j < i + 1 && LastBelow(nodes, j, i + 1) && nodes[j].id == k && after[k] == nodes[j]
    {
      if k == nodes[i].id {
        assert LastBelow(nodes, i, i + 1);
      } else {
        var j :| 0 <= j < i && LastBelow(nodes, j, i) && nodes[j].id == k && nodeids[k] == nodes[j];
        assert LastBelow(nodes, j, i + 1);
      }
    }
  }

  /** An answer to the query, in whatever order: the rows whose env is in the list. */
  ghost predicate AnswersBuilds(rows: seq<EnvBuild>, table: seq<EnvBuild>, fks: seq<Key>) {
    forall n :: multiset(rows)[n] == if n.envId.Some? && n.envId.value in fks then multiset(table)[n] else 0
  }

  /** An env's rows, counted. */
  lemma {:induction false} OfCount(rows: seq<EnvBuild>, env: Key, n: EnvBuild)
    ensures multiset(Of(rows, env))[n] == if n.envId == Some(env) then multiset(rows)[n] else 0
  {
    if rows != [] {
      OfCount(rows[..|rows| - 1], env, n);
      assert rows == rows[..|rows| - 1] + [rows[|rows| - 1]];
    }
  }

  lemma AnswerIsClean(rows: seq<EnvBuild>, table: seq<EnvBuild>, fks: seq<Key>)
    requires AnswersBuilds(rows, table, fks)
    ensures forall n :: n in rows ==> n.envId.Some? && n.envId.value in fks
  {
    forall n | n in rows ensures n.envId.Some? && n.envId.value in fks {
      assert n in multiset(rows);
    }
  }

  /** The batched load of to-many edges is the per-row query, whatever the order of the answer: no foreign-key error,
      and each env's rows, each as often as in the table. */
  lemma BuildsJoin(table: seq<EnvBuild>, rows: seq<EnvBuild>, fks: seq<Key>, env: Key)
    requires env in fks && AnswersBuilds(rows, table, fks)
    ensures forall n :: n in rows ==> n.envId.Some? && n.envId.value in fks
    ensures multiset(Of(rows, env)) == multiset(Of(table, env))
  {
    AnswerIsClean(rows, table, fks);
    forall n ensures multiset(Of(rows, env))[n] == multiset(Of(table, env))[n] {
      OfCount(rows, env, n);
      OfCount(table, env, n);
    }
  }

  /** The answer that keeps the table's order. */
  function SelectBuilds(table: seq<EnvBuild>, fks: seq<Key>): seq<EnvBuild> {
    if table == [] then []
    else SelectBuilds(table[..|table| - 1], fks)
         + if table[|table| - 1].envId.Some? && table[|table| - 1].envId.value in fks then [table[|table| - 1]] else []
  }

  lemma {:induction false} SelectAnswers(table: seq<EnvBuild>, fks: seq<Key>)
    ensures AnswersBuilds(SelectBuilds(table, fks), table, fks)
  {
    if table != [] {
      SelectAnswers(table[..|table| - 1], fks);
      assert table == table[..|table| - 1] + [table[|table| - 1]];
    }
  }

  /** From an answer that keeps the table's order, each env gets its rows in that order. */
  lemma {:induction false} BuildsInOrder(table: seq<EnvBuild>, fks: seq<Key>, env: Key)
    requires env in fks
    ensures Of(SelectBuilds(table, fks), env) == Of(table, env)
  {
    if table != [] {
      var front, last := table[..|table| - 1], table[|table| - 1];
      BuildsInOrder(front, fks, env);
      var rows := SelectBuilds(front, fks);
      if last.envId.Some? && last.envId.value in fks {
        assert (rows + [last])[..|rows|] == rows;
      } else {
        assert rows + [] == rows;
      }
    }
  }

  /** So every env of a batch gets its own rows exactly if it is the last with its ID, or has no rows. */
  lemma BuildsJoinIff(table: seq<EnvBuild>, rows: seq<EnvBuild>, nodes: seq<Env>, fks: seq<Key>, i: nat)
    requires i < |nodes| == |fks| && forall j :: 0 <= j < |nodes| ==> fks[j] == nodes[j].id
    requires AnswersBuilds(rows, table, fks)
    ensures multiset(Given(nodes, i, rows)) == multiset(Of(table, nodes[i].id)) <==>
              IsLast(nodes, i) || Of(table, nodes[i].id) == []
  {
    assert fks[i] in fks;
    BuildsJoin(table, rows, fks, nodes[i].id);
    assert |multiset(Of(table, nodes[i].id))| == |Of(table, nodes[i].id)|;
  }

  /** Loading from a table by one query gives every env what its own query would give, in the order of the answer; but
      of several envs with one ID only the last. */
  method LoadBuildsFrom(nodes: seq<Env>, table: seq<EnvBuild>, all: seq<Key> -> seq<EnvBuild>) returns (ok: bool)
    requires NoDuplicates(nodes)
    requires forall fks :: AnswersBuilds(all(fks), table, fks)
    modifies (set e | e in nodes)`builds
    ensures ok
    ensures forall i :: 0 <= i < |nodes| ==>
              (multiset(nodes[i].builds) == multiset(Of(table, nodes[i].id)) <==>
                 IsLast(nodes, i) || Of(table, nodes[i].id) == [])
    ensures forall i :: 0 <= i < |nodes| && !IsLast(nodes, i) ==> nodes[i].builds == []
  {
    var fks;
    ok, fks := LoadBuilds(nodes, fks => Some(all(fks)));
    AnswerIsClean(all(fks), table, fks);
    forall i | 0 <= i < |nodes|
      ensures multiset(Given(nodes, i, all(fks))) == multiset(Of(table, nodes[i].id)) <==>
                IsLast(nodes, i) || Of(table, nodes[i].id) == []
    {
      BuildsJoinIff(table, all(fks), nodes, fks, i);
    }
  }
}
