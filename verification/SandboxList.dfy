// Listing a team's running sandboxes: parsing the metadata query, filtering the instances in place and building
// the sorted answer (packages/api/internal/handlers/sandboxes_list.go).
module SandboxList {
  import opened Prelude

  type Team = string
  type BuildID = string
  type Metadata = map<string, string>

  datatype Build = Build(vcpu: int, ramMB: int)

  datatype Info = Info(
    sandbox: string,
    team: Option<Team>,
    build: Option<BuildID>,
    metadata: Option<Metadata>,
    startTime: int,
    endTime: int)

  datatype RunningSandbox = RunningSandbox(
    sandbox: string,
    startedAt: int,
    endAt: int,
    cpuCount: int,
    memoryMB: int,
    metadata: Option<Metadata>)

  /** Decoding of percent-escapes, which may refuse its input. */
  type Unescape = string -> Option<string>

  // ---- Parsing the query --------------------------------------------------------------------

  /** A filter is a key and a value around exactly one equals sign, both decodable. */
  function ParsePair(filter: string, unescape: Unescape): Option<(string, string)> {
    var parts := SplitOn(filter, '=');
    if |parts| != 2 then None
    else
      match (unescape(parts[0]), unescape(parts[1]))
      case (Some(key), Some(value)) => Some((key, value))
      case _ => None
  }

  /** The last of the filters that sets the key. */
  function LastValue(filters: seq<string>, key: string, unescape: Unescape): Option<string>
    decreases |filters|
  {
    if filters == [] then None
    else
      match ParsePair(filters[|filters| - 1], unescape)
      case Some(pair) => if pair.0 == key then Some(pair.1) else LastValue(filters[..|filters| - 1], key, unescape)
      case None => LastValue(filters[..|filters| - 1], key, unescape)
  }

  ghost predicate AllParse(filters: seq<string>, unescape: Unescape) {
    forall i :: 0 <= i < |filters| ==> ParsePair(filters[i], unescape).Some?
  }

  function Lookup(m: Metadata, key: string): Option<string> {
    if key in m then Some(m[key]) else None
  }

  lemma LastValuePush(filters: seq<string>, filter: string, key: string, unescape: Unescape)
    requires ParsePair(filter, unescape).Some?
    ensures var pair := ParsePair(filter, unescape).value;
            LastValue(filters + [filter], key, unescape) ==
            if pair.0 == key then Some(pair.1) else LastValue(filters, key, unescape)
  {
    assert (filters + [filter])[..|filters|] == filters;
  }

  /** The filter at i sets the key to the value, and no later one sets the key. */
  ghost predicate SetsLast(filters: seq<string>, i: nat, key: string, value: string, unescape: Unescape) {
    && i < |filters|
    && ParsePair(filters[i], unescape) == Some((key, value))
    && forall j :: i < j < |filters| ==> !SetsKey(filters[j], key, unescape)
  }

  predicate SetsKey(filter: string, key: string, unescape: Unescape) {
    ParsePair(filter, unescape).Some? && ParsePair(filter, unescape).value.0 == key
  }

  lemma SetsLastPush(filters: seq<string>, i: nat, key: string, value: string, unescape: Unescape)
    requires filters != [] && i < |filters| - 1
    ensures SetsLast(filters, i, key, value, unescape) <==>
            (SetsLast(filters[..|filters| - 1], i, key, value, unescape) &&
             !SetsKey(filters[|filters| - 1], key, unescape))
  {
    var front := filters[..|filters| - 1];
    assert forall j :: 0 <= j < |front| ==> front[j] == filters[j];
  }

  /** What the last value means: some filter sets the key to it, and none after that sets the key again. */
  lemma {:induction false} LastValueIsLast(filters: seq<string>, key: string, value: string, unescape: Unescape)
    ensures LastValue(filters, key, unescape) == Some(value) <==>
            exists i: nat :: SetsLast(filters, i, key, value, unescape)
    decreases |filters|
  {
    if filters != [] {
      var n := |filters| - 1;
      LastValueIsLast(filters[..n], key, value, unescape);
      forall i: nat | i < n
        ensures SetsLast(filters, i, key, value, unescape) <==>
                (SetsLast(filters[..n], i, key, value, unescape) && !SetsKey(filters[n], key, unescape))
      {
        SetsLastPush(filters, i, key, value, unescape);
      }
      assert SetsLast(filters, n, key, value, unescape) <==> ParsePair(filters[n], unescape) == Some((key, value));
    }
  }

  /** The text is a key and a value around an equals sign, and neither has another one. */
  ghost predicate IsPair(filter: string, key: string, value: string) {
    filter == key + ['='] + value && '=' !in key && '=' !in value
  }

  /** A piece sets a key to a value exactly if it is of the form key=value and both sides decode to them. */
  lemma PairMeans(filter: string, unescape: Unescape, key: string, value: string)
    ensures ParsePair(filter, unescape) == Some((key, value)) <==>
            exists k, v :: IsPair(filter, k, v) && unescape(k) == Some(key) && unescape(v) == Some(value)
  {
    var parts := SplitOn(filter, '=');
    if |parts| == 2 {
      SplitJoins(filter, '=');
      SplitNoSeparator(filter, '=');
      assert parts[..1] == [parts[0]];
      assert IsPair(filter, parts[0], parts[1]);
    }
    forall k, v | IsPair(filter, k, v) ensures parts == [k, v] {
      SplitConcat(k, v, '=');
      SplitPlain(k, '=');
      SplitPlain(v, '=');
    }
  }

  method ParseFilters(query: string, unescape: Unescape) returns (r: Option<Metadata>)
    ensures r.Some? <==> AllParse(SplitOn(query, '&'), unescape)
    ensures r.Some? ==> forall key :: Lookup(r.value, key) == LastValue(SplitOn(query, '&'), key, unescape)
  {
    var pieces := SplitOn(query, '&');
    var filters: Metadata := map[];
    for i := 0 to |pieces|
      invariant AllParse(pieces[..i], unescape)
      invariant forall key :: Lookup(filters, key) == LastValue(pieces[..i], key, unescape)
    {
      var pair := ParsePair(pieces[i], unescape);
      if pair.None? {
        return None;
      }
      assert pieces[..i + 1] == pieces[..i] + [pieces[i]];
      ghost var before := filters;
      filters := filters[pair.value.0 := pair.value.1];
      forall key ensures Lookup(filters, key) == LastValue(pieces[..i + 1], key, unescape) {
        assert Lookup(before, key) == LastValue(pieces[..i], key, unescape);
        LastValuePush(pieces[..i], pieces[i], key, unescape);
      }
    }
    assert pieces[..|pieces|] == pieces;
    return Some(filters);
  }

  // ---- Filtering in place -------------------------------------------------------------------

  predicate Agrees(m: Metadata, filters: Metadata) {
    forall key :: key in filters ==> key in m && m[key] == filters[key]
  }

  /** Without metadata an instance matches nothing, not even the empty filter. */
  predicate Matches(info: Info, filters: Metadata) {
    info.metadata.Some? && Agrees(info.metadata.value, filters)
  }

  function Keep(infos: seq<Info>, filters: Metadata): seq<Info> {
    if infos == [] then []
    else
      Keep(infos[..|infos| - 1], filters) +
      if Matches(infos[|infos| - 1], filters) then [infos[|infos| - 1]] else []
  }

  /** The positions of the matching instances, in order. */
  ghost function Positions(infos: seq<Info>, filters: Metadata): seq<nat> {
    if infos == [] then []
    else
      Positions(infos[..|infos| - 1], filters) +
      if Matches(infos[|infos| - 1], filters) then [|infos| - 1] else []
  }

  lemma {:induction false} PositionsExact(infos: seq<Info>, filters: Metadata, i: nat)
    ensures i in Positions(infos, filters) <==> i < |infos| && Matches(infos[i], filters)
  {
    if infos != [] {
      PositionsExact(infos[..|infos| - 1], filters, i);
    }
  }

  lemma {:induction false} PositionsAscend(infos: seq<Info>, filters: Metadata)
    ensures forall j, k :: 0 <= j < k < |Positions(infos, filters)| ==>
              Positions(infos, filters)[j] < Positions(infos, filters)[k]
  {
    if infos != [] {
      var front := infos[..|infos| - 1];
      var at := Positions(front, filters);
      PositionsAscend(front, filters);
      forall j: nat | j < |at| ensures at[j] < |front| {
        PositionsExact(front, filters, at[j]);
      }
      assert Positions(infos, filters) == at + [|infos| - 1] || Positions(infos, filters) == at;
    }
  }

  lemma {:induction false} KeepReadsPositions(infos: seq<Info>, filters: Metadata, k: nat)
    ensures |Keep(infos, filters)| == |Positions(infos, filters)|
    ensures k < |Keep(infos, filters)| ==>
              Positions(infos, filters)[k] < |infos| && Keep(infos, filters)[k] == infos[Positions(infos, filters)[k]]
  {
    if infos != [] {
      KeepReadsPositions(infos[..|infos| - 1], filters, k);
    }
  }

  /** Keeping is exact and keeps the order: the result reads off the matching positions, ascending. */
  lemma {:induction false} KeepIsSubsequence(infos: seq<Info>, filters: Metadata)
    ensures var at := Positions(infos, filters);
            && |Keep(infos, filters)| == |at|
            && (forall k: nat :: k < |at| ==> at[k] < |infos| && Keep(infos, filters)[k] == infos[at[k]])
            && (forall j, k :: 0 <= j < k < |at| ==> at[j] < at[k])
            && (forall i: nat :: i in at <==> i < |infos| && Matches(infos[i], filters))
  {
    PositionsAscend(infos, filters);
    KeepReadsPositions(infos, filters, 0);
    forall k: nat | k < |Positions(infos, filters)|
      ensures Positions(infos, filters)[k] < |infos| &&
              Keep(infos, filters)[k] == infos[Positions(infos, filters)[k]]
    {
      KeepReadsPositions(infos, filters, k);
    }
    forall i: nat ensures i in Positions(infos, filters) <==> i < |infos| && Matches(infos[i], filters) {
      PositionsExact(infos, filters, i);
    }
  }

  method MatchesAll(info: Info, filters: Metadata) returns (r: bool)
    ensures r <==> Matches(info, filters)
    ensures r <==> info.metadata.Some? &&
                   forall key :: key in filters ==> key in info.metadata.value && info.metadata.value[key] == filters[key]
  {
    if info.metadata.None? {
      return false;
    }
    var left := filters.Keys;
    while left != {}
      invariant left <= filters.Keys
      invariant forall key :: key in filters && key !in left ==>
        key in info.metadata.value && info.metadata.value[key] == filters[key]
    {
      var key :| key in left;
      if key !in info.metadata.value || info.metadata.value[key] != filters[key] {
        return false;
      }
      left := left - {key};
    }
    return true;
  }

  /** The compaction: what is kept moves to the front, and nothing from there on is overwritten. */
  method FilterInPlace(infos: array<Info>, filters: Metadata) returns (n: nat)
    modifies infos
    ensures n <= infos.Length
    ensures infos[..n] == Keep(old(infos[..]), filters)
    ensures infos[n..] == old(infos[n..])
  {
    n := 0;
    for i := 0 to infos.Length
      invariant n <= i
      invariant infos[..n] == Keep(old(infos[..i]), filters)
      invariant forall k :: n <= k < infos.Length ==> infos[k] == old(infos[k])
    {
      assert old(infos[..i + 1])[..i] == old(infos[..i]);
      var matches := MatchesAll(infos[i], filters);
      if matches {
        infos[n] := infos[i];
        n := n + 1;
      }
    }
    assert old(infos[..infos.Length]) == old(infos[..]);
  }

  // ---- Building the answer ------------------------------------------------------------------

  datatype Listing = Listed(sandboxes: seq<RunningSandbox>) | BadQuery | DatabaseError | NilDereference

  predicate OfTeam(info: Info, team: Team) {
    info.team == Some(team)
  }

  /** The build of the instance is set and the database has it. */
  predicate HasBuild(info: Info, builds: map<BuildID, Build>) {
    info.build.Some? && info.build.value in builds
  }

  function Row(info: Info, builds: map<BuildID, Build>): RunningSandbox
    requires HasBuild(info, builds)
  {
    var build := builds[info.build.value];
    RunningSandbox(info.sandbox, info.startTime, info.endTime, build.vcpu, build.ramMB, info.metadata)
  }

  ghost predicate Complete(infos: seq<Info>, team: Team, builds: map<BuildID, Build>) {
    forall i :: 0 <= i < |infos| && OfTeam(infos[i], team) ==> HasBuild(infos[i], builds)
  }

  ghost function Rows(infos: seq<Info>, team: Team, builds: map<BuildID, Build>): seq<RunningSandbox>
    requires Complete(infos, team, builds)
  {
    if infos == [] then []
    else
      var last := infos[|infos| - 1];
      assert OfTeam(last, team) ==> HasBuild(last, builds);
      Rows(infos[..|infos| - 1], team, builds) + if OfTeam(last, team) then [Row(last, builds)] else []
  }

  predicate Ascending(s: seq<RunningSandbox>) {
    forall i, j :: 0 <= i < j < |s| ==> s[i].startedAt <= s[j].startedAt
  }

  /** The build IDs the database is asked for; an instance of the team without one is a nil dereference. */
  method CollectBuildIDs(infos: seq<Info>, team: Team) returns (r: Option<seq<BuildID>>)
    ensures r.Some? <==> forall i :: 0 <= i < |infos| && OfTeam(infos[i], team) ==> infos[i].build.Some?
    ensures r.Some? ==> forall b :: b in r.value <==>
                          exists i :: 0 <= i < |infos| && OfTeam(infos[i], team) && infos[i].build == Some(b)
  {
    var ids := [];
    for i := 0 to |infos|
      invariant forall k :: 0 <= k < i && OfTeam(infos[k], team) ==> infos[k].build.Some?
      invariant forall b :: b in ids <==> exists k :: 0 <= k < i && OfTeam(infos[k], team) && infos[k].build == Some(b)
    {
      if OfTeam(infos[i], team) {
        if infos[i].build.None? {
          return None;
        }
        ids := ids + [infos[i].build.value];
      }
    }
    return Some(ids);
  }

  /** The loop over the instances; an unknown build is a nil dereference. */
  method CollectRows(infos: seq<Info>, team: Team, builds: map<BuildID, Build>)
    returns (r: Option<seq<RunningSandbox>>)
    requires forall i :: 0 <= i < |infos| && OfTeam(infos[i], team) ==> infos[i].build.Some?
    ensures r.Some? <==> Complete(infos, team, builds)
    ensures r.Some? ==> r.value == Rows(infos, team, builds)
  {
    var rows := [];
    for i := 0 to |infos|
      invariant Complete(infos[..i], team, builds)
      invariant rows == Rows(infos[..i], team, builds)
    {
      assert infos[..i + 1][..i] == infos[..i] && infos[..i + 1][i] == infos[i];
      if OfTeam(infos[i], team) {
        if !HasBuild(infos[i], builds) {
          return None;
        }
        rows := rows + [Row(infos[i], builds)];
      }
    }
    assert infos[..|infos|] == infos;
    return Some(rows);
  }

  function Insert(s: seq<RunningSandbox>, x: RunningSandbox): seq<RunningSandbox> {
    if s == [] || s[|s| - 1].startedAt <= x.startedAt then s + [x]
    else Insert(s[..|s| - 1], x) + [s[|s| - 1]]
  }

  lemma AscendingPush(s: seq<RunningSandbox>, x: RunningSandbox)
    requires Ascending(s) && forall y :: y in s ==> y.startedAt <= x.startedAt
    ensures Ascending(s + [x])
  {
    forall i | 0 <= i < |s| ensures s[i].startedAt <= x.startedAt { assert s[i] in s; }
  }

  lemma {:induction false} InsertSorts(s: seq<RunningSandbox>, x: RunningSandbox)
    requires Ascending(s)
    ensures Ascending(Insert(s, x))
    ensures multiset(Insert(s, x)) == multiset(s) + multiset{x}
    ensures forall y :: y in Insert(s, x) ==> y in s || y == x
  {
    if s == [] || s[|s| - 1].startedAt <= x.startedAt {
      AscendingPush(s, x);
    } else {
      var front, last := s[..|s| - 1], s[|s| - 1];
      InsertSorts(front, x);
      AscendingPush(Insert(front, x), last);
      assert s == front + [last];
    }
  }

  /** The library sort promises order and contents; equal start times may come in any order. */
  method SortByStart(rows: seq<RunningSandbox>) returns (r: seq<RunningSandbox>)
    ensures Ascending(r) && multiset(r) == multiset(rows)
  {
    r := [];
    for i := 0 to |rows|
      invariant Ascending(r) && multiset(r) == multiset(rows[..i])
    {
      InsertSorts(r, rows[i]);
      r := Insert(r, rows[i]);
      assert rows[..i + 1] == rows[..i] + [rows[i]];
    }
    assert rows[..|rows|] == rows;
  }

  /** What the query selects; without one, everything. */
  ghost function Selected(infos: seq<Info>, query: Option<string>, filters: Metadata): seq<Info> {
    if query.None? then infos else Keep(infos, filters)
  }

  ghost predicate QueryParses(query: Option<string>, unescape: Unescape) {
    query.Some? ==> unescape(query.value).Some? && AllParse(SplitOn(unescape(query.value).value, '&'), unescape)
  }

  /** The filters are those of the query, the last value winning for each key. */
  ghost predicate FiltersOf(query: Option<string>, unescape: Unescape, filters: Metadata) {
    && QueryParses(query, unescape)
    && (query.Some? ==>
          forall key ::
            Lookup(filters, key) == LastValue(SplitOn(unescape(query.value).value, '&'), key, unescape))
  }

  ghost predicate BuildsNamed(infos: seq<Info>, team: Team) {
    forall i :: 0 <= i < |infos| && OfTeam(infos[i], team) ==> infos[i].build.Some?
  }

  /** The whole handler. It fails on a nil dereference exactly when a selected instance of the team lacks its build
      (known before the database is asked, or after), and otherwise lists exactly the selected instances of the
      team, earliest first. */
  method GetSandboxes(infos: array<Info>, team: Team, query: Option<string>, unescape: Unescape,
                      builds: map<BuildID, Build>, databaseDown: bool)
    returns (r: Listing, ghost filters: Metadata)
    modifies infos
    ensures r.BadQuery? <==> !QueryParses(query, unescape)
    ensures !r.BadQuery? ==> FiltersOf(query, unescape, filters)
    ensures !r.BadQuery? ==>
              var selected := Selected(old(infos[..]), query, filters);
              && (r.DatabaseError? <==> databaseDown && BuildsNamed(selected, team))
              && (r.NilDereference? <==>
                    !BuildsNamed(selected, team) || (!databaseDown && !Complete(selected, team, builds)))
              && (r.Listed? ==>
                    && Complete(selected, team, builds)
                    && multiset(r.sandboxes) == multiset(Rows(selected, team, builds))
                    && forall i, j :: 0 <= i < j < |r.sandboxes| ==> r.sandboxes[i].startedAt <= r.sandboxes[j].startedAt)
  {
    filters := map[];
    var n := infos.Length;
    if query.Some? {
      var decoded := unescape(query.value);
      if decoded.None? {
        return BadQuery, filters;
      }
      var parsed := ParseFilters(decoded.value, unescape);
      if parsed.None? {
        return BadQuery, filters;
      }
      filters := parsed.value;
      n := FilterInPlace(infos, parsed.value);
    }
    ghost var selected := Selected(old(infos[..]), query, filters);
    assert infos[..n] == selected;
    r := List(infos[..n], team, builds, databaseDown);
  }

  method List(infos: seq<Info>, team: Team, builds: map<BuildID, Build>, databaseDown: bool) returns (r: Listing)
    ensures !r.BadQuery?
    ensures r.DatabaseError? <==> databaseDown && BuildsNamed(infos, team)
    ensures r.NilDereference? <==>
              !BuildsNamed(infos, team) || (!databaseDown && !Complete(infos, team, builds))
    ensures r.Listed? ==>
              && Complete(infos, team, builds)
              && multiset(r.sandboxes) == multiset(Rows(infos, team, builds))
              && Ascending(r.sandboxes)
  {
    var ids := CollectBuildIDs(infos, team);
    if ids.None? {
      return NilDereference;
    }
    if databaseDown {
      return DatabaseError;
    }
    // The rows the IN query returns.
    var found := map b | b in builds && b in ids.value :: builds[b];
    FoundSuffices(infos, team, builds, ids.value, found);
    var rows := CollectRows(infos, team, found);
    if rows.None? {
      return NilDereference;
    }
    var sorted := SortByStart(rows.value);
    return Listed(sorted);
  }

  /** Asking for the builds in the list is as good as having the whole table. */
  lemma {:induction false} FoundSuffices(infos: seq<Info>, team: Team, builds: map<BuildID, Build>, ids: seq<BuildID>,
                                         found: map<BuildID, Build>)
    requires found == map b | b in builds && b in ids :: builds[b]
    requires forall i :: 0 <= i < |infos| && OfTeam(infos[i], team) ==>
               infos[i].build.Some? && infos[i].build.value in ids
    ensures Complete(infos, team, found) <==> Complete(infos, team, builds)
    ensures Complete(infos, team, builds) ==> Rows(infos, team, found) == Rows(infos, team, builds)
  {
    if infos != [] {
      var front, last := infos[..|infos| - 1], infos[|infos| - 1];
      FoundSuffices(front, team, builds, ids, found);
      assert OfTeam(last, team) ==> (HasBuild(last, found) <==> HasBuild(last, builds));
      assert Complete(infos, team, builds) ==> Complete(front, team, builds);
      assert Complete(infos, team, found) ==> Complete(front, team, found);
    }
  }

  /** A row says of an instance what the answer lists: its times and metadata, and the resources of its build. */
  ghost predicate RowOf(row: RunningSandbox, info: Info, builds: map<BuildID, Build>) {
    && info.build.Some? && info.build.value in builds
    && row.sandbox == info.sandbox && row.metadata == info.metadata
    && row.startedAt == info.startTime && row.endAt == info.endTime
    && row.cpuCount == builds[info.build.value].vcpu && row.memoryMB == builds[info.build.value].ramMB
  }

  /** The rows are those of the instances at the given positions, in order. */
  ghost predicate RowsAt(rows: seq<RunningSandbox>, infos: seq<Info>, at: seq<nat>, builds: map<BuildID, Build>) {
    && |rows| == |at|
    && (forall k :: 0 <= k < |at| ==> at[k] < |infos| && RowOf(rows[k], infos[at[k]], builds))
    && (forall j, k :: 0 <= j < k < |at| ==> at[j] < at[k])
  }

  lemma RowsAtPush(rows: seq<RunningSandbox>, infos: seq<Info>, at: seq<nat>, builds: map<BuildID, Build>,
                   row: RunningSandbox, info: Info)
    requires RowsAt(rows, infos, at, builds)
    ensures RowsAt(rows, infos + [info], at, builds)
    ensures RowOf(row, info, builds) ==> RowsAt(rows + [row], infos + [info], at + [|infos|], builds)
  {
  }

  /** The rows are those of the team's instances, one each, in order. */
  lemma {:induction false} RowsRead(infos: seq<Info>, team: Team, builds: map<BuildID, Build>) returns (at: seq<nat>)
    requires Complete(infos, team, builds)
    ensures RowsAt(Rows(infos, team, builds), infos, at, builds)
    ensures forall i: nat :: i in at <==> i < |infos| && infos[i].team == Some(team)
  {
    if infos == [] {
      at := [];
    } else {
      var front, last := infos[..|infos| - 1], infos[|infos| - 1];
      at := RowsRead(front, team, builds);
      var rows := Rows(front, team, builds);
      assert infos == front + [last];
      if last.team == Some(team) {
        assert HasBuild(last, builds);
        RowsAtPush(rows, front, at, builds, Row(last, builds), last);
        at := at + [|front|];
      } else {
        assert Rows(infos, team, builds) == rows;
        RowsAtPush(rows, front, at, builds, RunningSandbox("", 0, 0, 0, 0, None), last);
      }
    }
  }

  /** The answer is decided by what is asked for: a selected instance of the team appears, no other does. */
  lemma {:induction false} RowsExact(infos: seq<Info>, team: Team, builds: map<BuildID, Build>, row: RunningSandbox)
    requires Complete(infos, team, builds)
    ensures row in Rows(infos, team, builds) <==>
            exists i :: 0 <= i < |infos| && OfTeam(infos[i], team) && HasBuild(infos[i], builds) &&
              row == Row(infos[i], builds)
  {
    if infos != [] {
      var front := infos[..|infos| - 1];
      RowsExact(front, team, builds, row);
      assert forall i :: 0 <= i < |front| ==> front[i] == infos[i];
    }
  }
}
