// Requesting a template build: one transaction over the env, alias and build tables
// (packages/api/internal/handlers/template_request_build.go), and the lookup by alias or ID
// (packages/shared/pkg/db/envs.go).
module TemplateBuild {
  import opened Prelude

  const MIN_CPU := 1
  const MAX_CPU := 8
  const DEFAULT_CPU := 2
  const MIN_MEMORY := 128
  const MAX_MEMORY := 8192
  const DEFAULT_MEMORY := 1024

  type EnvId = string
  type TeamId = string
  type BuildId = string

  datatype Status = Waiting | Building | Failed | Built | Uploaded
  datatype Env = Env(team: TeamId, buildCount: int)
  datatype Alias = Alias(envId: EnvId, renamable: bool)
  datatype Build = Build(envId: EnvId, status: Status, vcpu: int, ramMB: int)
  datatype Tables = Tables(envs: map<EnvId, Env>, aliases: map<EnvId, Alias>, builds: map<BuildId, Build>)

  /** An alias as sent, after cleaning: absent, rejected by the cleaning, or a name. */
  datatype AliasRequest = NoAlias | InvalidAlias | Named(name: EnvId)

  datatype Request = Request(templateId: EnvId, isNew: bool, team: TeamId, buildId: BuildId,
                             cpuCount: Option<int>, memoryMB: Option<int>, alias: AliasRequest)

  datatype Response = Accepted | Rejected(code: int)

  // ---- CPU and RAM --------------------------------------------------------------------------

  function GetCPUAndRAM(cpuCount: Option<int>, memoryMB: Option<int>): (r: Result<(int, int), int>)
    ensures r.Success? <==> ((cpuCount.Some? ==> 1 <= cpuCount.value <= 8)
              && (memoryMB.Some? ==> 128 <= memoryMB.value <= 8192 && memoryMB.value % 2 == 0))
    ensures r.Success? ==> r.value.0 == (if cpuCount.Some? then cpuCount.value else 2)
    ensures r.Success? ==> r.value.1 == (if memoryMB.Some? then memoryMB.value else 1024)
    ensures r.Success? ==> 1 <= r.value.0 <= 8 && 128 <= r.value.1 <= 8192 && r.value.1 % 2 == 0
    ensures r.Failure? ==> r.error == 400
  {
    if cpuCount.Some? && (cpuCount.value < MIN_CPU || cpuCount.value > MAX_CPU) then Failure(400)
    else if memoryMB.Some? && (memoryMB.value < MIN_MEMORY || memoryMB.value > MAX_MEMORY) then Failure(400)
    else if memoryMB.Some? && memoryMB.value % 2 != 0 then Failure(400)
    else Success((if cpuCount.Some? then cpuCount.value else DEFAULT_CPU,
                  if memoryMB.Some? then memoryMB.value else DEFAULT_MEMORY))
  }

  // ---- What a committed request does --------------------------------------------------------

  predicate AccessOk(t: Tables, q: Request) {
    q.isNew || (q.templateId in t.envs && t.envs[q.templateId].team == q.team)
  }

  predicate WellFormed(q: Request) {
    GetCPUAndRAM(q.cpuCount, q.memoryMB).Success? && !q.alias.InvalidAlias?
  }

  /** The name asked for is no env's ID, and no other env's alias. */
  predicate AliasFree(t: Tables, q: Request) {
    q.alias.Named? ==>
      && q.alias.name !in t.envs && q.alias.name != q.templateId
      && (q.alias.name in t.aliases ==> t.aliases[q.alias.name].envId == q.templateId)
  }

  predicate Acceptable(t: Tables, q: Request) {
    WellFormed(q) && q.buildId !in t.builds && AliasFree(t, q)
  }

  function Committed(t: Tables, q: Request): Tables
    requires WellFormed(q)
  {
    var (cpu, ram) := GetCPUAndRAM(q.cpuCount, q.memoryMB).value;
    Tables(
      if q.templateId in t.envs then t.envs[q.templateId := Env(t.envs[q.templateId].team, t.envs[q.templateId].buildCount + 1)]
      else t.envs[q.templateId := Env(q.team, 1)],
      if q.alias.Named? && q.alias.name !in t.aliases
      then (map a | a in t.aliases && !IsRenamable(t.aliases[a], q.templateId) :: t.aliases[a])
           [q.alias.name := Alias(q.templateId, true)]
      else t.aliases,
      (map b | b in t.builds :: if IsWaiting(t.builds[b], q.templateId) then t.builds[b].(status := Failed) else t.builds[b])
      [q.buildId := Build(q.templateId, Waiting, cpu, ram)])
  }

  /** Field by field, what a commit does to the envs: its own is new, with the request's team, or counts one more. */
  lemma CommitEnvs(t: Tables, q: Request)
    requires WellFormed(q)
    ensures var envs := Committed(t, q).envs;
            && envs.Keys == t.envs.Keys + {q.templateId}
            && (forall e :: e in t.envs && e != q.templateId ==> envs[e] == t.envs[e])
            && (if q.templateId in t.envs
                then envs[q.templateId].team == t.envs[q.templateId].team &&
                     envs[q.templateId].buildCount == t.envs[q.templateId].buildCount + 1
                else envs[q.templateId].team == q.team && envs[q.templateId].buildCount == 1)
  {
  }

  /** What it does to the builds: the env's waiting ones become failed and keep everything else, the new one waits with
      the CPUs and the memory asked for or the defaults, and all others stay as they are. */
  lemma CommitsBuilds(t: Tables, q: Request)
    requires WellFormed(q)
    ensures var builds := Committed(t, q).builds;
            && builds.Keys == t.builds.Keys + {q.buildId}
            && (forall b :: b in t.builds && b != q.buildId && t.builds[b].envId == q.templateId && t.builds[b].status == Waiting ==>
                  && builds[b].status == Failed && builds[b].envId == t.builds[b].envId
                  && builds[b].vcpu == t.builds[b].vcpu && builds[b].ramMB == t.builds[b].ramMB)
            && (forall b :: b in t.builds && b != q.buildId && (t.builds[b].envId != q.templateId || t.builds[b].status != Waiting) ==>
                  builds[b] == t.builds[b])
            && builds[q.buildId].envId == q.templateId && builds[q.buildId].status == Waiting
            && builds[q.buildId].vcpu == (if q.cpuCount.Some? then q.cpuCount.value else 2)
            && builds[q.buildId].ramMB == (if q.memoryMB.Some? then q.memoryMB.value else 1024)
  {
  }

  /** What it does to the aliases: a new name takes the place of the env's renamable ones, and all others stay. */
  lemma CommitsAliases(t: Tables, q: Request)
    requires WellFormed(q)
    ensures var aliases := Committed(t, q).aliases;
            if q.alias.Named? && q.alias.name !in t.aliases then
              && aliases.Keys == {q.alias.name} +
                   set a | a in t.aliases && !(t.aliases[a].envId == q.templateId && t.aliases[a].renamable)
              && aliases[q.alias.name].envId == q.templateId && aliases[q.alias.name].renamable
              && (forall a :: a in aliases && a != q.alias.name ==> aliases[a] == t.aliases[a])
            else aliases == t.aliases
  {
  }

  predicate IsWaiting(b: Build, e: EnvId) {
    b.envId == e && b.status == Waiting
  }

  predicate IsRenamable(a: Alias, e: EnvId) {
    a.envId == e && a.renamable
  }

  // ---- The transaction ----------------------------------------------------------------------

  /** The statements that may fail for reasons outside the model. */
  datatype Statement = Access | Begin | Upsert | FailWaiting | InsertBuild | QueryEnv | QueryAlias | DeleteAliases | InsertAlias | Commit

  /** A transaction's own view of the tables; after a failed statement everything fails. */
  datatype Tx = Tx(work: Tables, poisoned: bool) {
    function Exec(fails: bool, effect: Tables): Tx {
      if poisoned || fails then this.(poisoned := true) else Tx(effect, false)
    }
  }

  class Database {
    var tables: Tables

    constructor ()
      ensures tables == Tables(map[], map[], map[])
    {
      tables := Tables(map[], map[], map[]);
    }

    /** Whatever other requests do in between. */
    method Others()
      modifies this
    {
      tables := *;
    }

    /** `start` is what the tables hold when the transaction begins, after the access check. */
    method TemplateRequestBuild(q: Request, faults: set<Statement>) returns (r: Response, start: Tables)
      modifies this
      ensures tables == if r.Accepted? && WellFormed(q) then Committed(start, q) else start
      ensures r.Accepted? ==> AccessOk(old(tables), q) && Acceptable(start, q)
      ensures r.Accepted? && !q.isNew ==>
                q.templateId in old(tables).envs && old(tables).envs[q.templateId].team == q.team
      ensures r.Accepted? ==> q.buildId !in start.builds && !q.alias.InvalidAlias?
      ensures r.Accepted? && q.alias.Named? ==>
                && q.alias.name !in start.envs && q.alias.name != q.templateId
                && (q.alias.name in start.aliases ==> start.aliases[q.alias.name].envId == q.templateId)
      ensures faults == {} && AccessOk(old(tables), q) && Acceptable(start, q) ==> r.Accepted?
      ensures faults == {} && r.Rejected? ==>
                match r.code
                case 400 => !WellFormed(q)
                case 404 => !AccessOk(old(tables), q)
                case 409 => q.alias.Named? && (q.alias.name in start.envs || q.alias.name == q.templateId)
                case 403 => q.alias.Named? && q.alias.name in start.aliases && start.aliases[q.alias.name].envId != q.templateId
                case 500 => q.buildId in start.builds
                case _ => false
    {
      if !q.isNew {
        if Access in faults || q.templateId !in tables.envs || tables.envs[q.templateId].team != q.team {
          return Rejected(404), tables;
        }
      }
      var resources := GetCPUAndRAM(q.cpuCount, q.memoryMB);
      if resources.Failure? {
        return Rejected(resources.error), tables;
      }
      if q.alias.InvalidAlias? {
        return Rejected(400), tables;
      }
      Others();
      start := tables;
      if Begin in faults {
        return Rejected(500), start;
      }
      var tx := Tx(tables, false);
      var t := tx.work;
      // upsert the env
      var env := if q.templateId in t.envs
                 then Env(t.envs[q.templateId].team, t.envs[q.templateId].buildCount + 1) else Env(q.team, 1);
      tx := tx.Exec(Upsert in faults, t.(envs := t.envs[q.templateId := env]));
      if tx.poisoned {
        return Rejected(500), start;
      }
      // mark builds that have not started as failed
      t := tx.work;
      tx := tx.Exec(FailWaiting in faults, t.(builds := map b | b in t.builds ::
              if IsWaiting(t.builds[b], q.templateId) then t.builds[b].(status := Failed) else t.builds[b]));
      if tx.poisoned {
        return Rejected(500), start;
      }
      // insert the new build; the error is not looked at
      t := tx.work;
      tx := tx.Exec(InsertBuild in faults || q.buildId in t.builds,
                    t.(builds := t.builds[q.buildId := Build(q.templateId, Waiting, resources.value.0, resources.value.1)]));
      if q.alias.Named? {
        t := tx.work;
        tx := tx.Exec(QueryEnv in faults, t);
        if tx.poisoned {
          return Rejected(500), start;
        }
        if q.alias.name in t.envs {
          return Rejected(409), start;
        }
        tx := tx.Exec(QueryAlias in faults, t);
        if tx.poisoned {
          return Rejected(500), start;
        }
        if q.alias.name !in t.aliases {
          tx := tx.Exec(DeleteAliases in faults, t.(aliases := map a
                  | a in t.aliases && !IsRenamable(t.aliases[a], q.templateId) :: t.aliases[a]));
          if tx.poisoned {
            return Rejected(500), start;
          }
          t := tx.work;
          tx := tx.Exec(InsertAlias in faults, t.(aliases := t.aliases[q.alias.name := Alias(q.templateId, true)]));
          if tx.poisoned {
            return Rejected(500), start;
          }
        } else if t.aliases[q.alias.name].envId != q.templateId {
          return Rejected(403), start;
        }
      }
      if tx.poisoned || Commit in faults {
        return Rejected(500), start;
      }
      tables := tx.work;
      return Accepted, start;
    }
  }

  // ---- Invariants of the tables -------------------------------------------------------------

  /** Foreign keys point to existing envs. */
  ghost predicate Linked(t: Tables) {
    (forall a :: a in t.aliases ==> t.aliases[a].envId in t.envs) && (forall b :: b in t.builds ==> t.builds[b].envId in t.envs)
  }

  /** No alias is also the ID of an env. */
  ghost predicate Separate(t: Tables) {
    forall a :: a in t.aliases ==> a !in t.envs
  }

  ghost predicate OneWaiting(t: Tables) {
    forall e, b, c :: b in t.builds && c in t.builds && IsWaiting(t.builds[b], e) && IsWaiting(t.builds[c], e) ==> b == c
  }

  ghost predicate OneRenamable(t: Tables) {
    forall e, a, b :: a in t.aliases && b in t.aliases && IsRenamable(t.aliases[a], e) && IsRenamable(t.aliases[b], e) ==> a == b
  }

  ghost predicate Inv(t: Tables) {
    Linked(t) && Separate(t) && OneWaiting(t) && OneRenamable(t)
  }

  lemma CommitBuilds(t: Tables, q: Request)
    requires OneWaiting(t) && Acceptable(t, q)
    ensures var t' := Committed(t, q);
            OneWaiting(t') && forall b :: b in t'.builds && IsWaiting(t'.builds[b], q.templateId) <==> b == q.buildId
  {
    var t' := Committed(t, q);
    assert forall b, e :: b in t'.builds && b != q.buildId && IsWaiting(t'.builds[b], e) ==>
             b in t.builds && IsWaiting(t.builds[b], e) && e != q.templateId;
  }

  lemma CommitAliases(t: Tables, q: Request)
    requires OneRenamable(t) && Acceptable(t, q)
    ensures OneRenamable(Committed(t, q))
    ensures q.alias.Named? ==> q.alias.name in Committed(t, q).aliases && Committed(t, q).aliases[q.alias.name].envId == q.templateId
  {
  }

  /** A committed request keeps foreign keys and uniqueness, and its build is the env's only waiting one. */
  lemma CommitKeeps(t: Tables, q: Request)
    requires Linked(t) && OneWaiting(t) && OneRenamable(t) && Acceptable(t, q)
    ensures var t' := Committed(t, q);
            && Linked(t') && OneWaiting(t') && OneRenamable(t')
            && (forall b :: b in t'.builds && IsWaiting(t'.builds[b], q.templateId) <==> b == q.buildId)
            && (q.alias.Named? ==> q.alias.name in t'.aliases && t'.aliases[q.alias.name].envId == q.templateId)
  {
    CommitBuilds(t, q);
    CommitAliases(t, q);
  }

  /** It keeps aliases apart from env IDs exactly if its own ID is an existing env's, or at least not an alias. */
  lemma CommitSeparates(t: Tables, q: Request)
    requires Linked(t) && Separate(t) && Acceptable(t, q)
    ensures Separate(Committed(t, q)) <==> q.templateId in t.envs || q.templateId !in t.aliases
  {
    var t' := Committed(t, q);
    if q.templateId !in t.envs && q.templateId in t.aliases {
      assert t.aliases[q.templateId].envId in t.envs;
      assert q.templateId in t'.aliases && q.templateId in t'.envs;
    }
  }

  // ---- The lookup by alias or ID ------------------------------------------------------------

  ghost predicate Matches(t: Tables, key: string, e: EnvId) {
    && e in t.envs
    && (e == key || exists a :: a in t.aliases && a == key && t.aliases[a].envId == e)
    && exists b :: b in t.builds && t.builds[b].envId == e && t.builds[b].status.Uploaded?
  }

  /** A commit makes nothing findable: whatever the lookup finds afterwards had an uploaded build before, which it
      keeps. Nor does any build of another env stop being uploaded. */
  lemma CommitFindsNoMore(t: Tables, q: Request, key: string, e: EnvId)
    requires Acceptable(t, q)
    ensures forall b :: b in Committed(t, q).builds && Committed(t, q).builds[b].status == Uploaded <==>
                        b in t.builds && t.builds[b].status == Uploaded
    ensures Matches(Committed(t, q), key, e) ==>
              exists b :: b in t.builds && t.builds[b].envId == e && t.builds[b].status == Uploaded
    ensures Matches(t, key, e) && key == e ==> Matches(Committed(t, q), key, e)
  {
    CommitsBuilds(t, q);
    CommitEnvs(t, q);
    var t' := Committed(t, q);
    forall b ensures (b in t'.builds && t'.builds[b].status == Uploaded <==> b in t.builds && t.builds[b].status == Uploaded)
    {
    }
    if Matches(t', key, e) {
      var b :| b in t'.builds && t'.builds[b].envId == e && t'.builds[b].status.Uploaded?;
      assert b in t.builds && t.builds[b].envId == e;
    }
    if Matches(t, key, e) {
      var b :| b in t.builds && t.builds[b].envId == e && t.builds[b].status.Uploaded?;
      assert t'.builds[b] == t.builds[b];
    }
  }

  /** Deleting an env makes it unfindable and leaves every lookup of the others as it was. */
  lemma DeleteForgets(t: Tables, e: EnvId, key: string, f: EnvId)
    requires e in t.envs
    ensures !Matches(Step(t, DeleteEnv(e)), key, e)
    ensures f != e ==> (Matches(Step(t, DeleteEnv(e)), key, f) <==> Matches(t, key, f))
  {
    var t' := Step(t, DeleteEnv(e));
    if f != e {
      assert forall a :: a in t'.aliases && t'.aliases[a].envId == f <==> a in t.aliases && t.aliases[a].envId == f;
      if Matches(t, key, f) {
        var b :| b in t.builds && t.builds[b].envId == f && t.builds[b].status.Uploaded?;
        assert b in t'.builds && t'.builds[b] == t.builds[b];
      }
    }
  }

  /** An uploaded build makes its env findable by ID and by each alias, and changes nothing else. */
  lemma UploadFinds(t: Tables, b: BuildId, key: string)
    requires Linked(t) && b in t.builds
    ensures var e, t' := t.builds[b].envId, Step(t, Progress(b, Uploaded));
            && Matches(t', e, e)
            && (key in t.aliases && t.aliases[key].envId == e ==> Matches(t', key, e))
            && t'.envs == t.envs && t'.aliases == t.aliases && t'.builds.Keys == t.builds.Keys
            && forall c :: c in t.builds && c != b ==> t'.builds[c] == t.builds[c]
  {
    var t' := Step(t, Progress(b, Uploaded));
    assert t'.builds[b].envId == t.builds[b].envId && t'.builds[b].status.Uploaded?;
  }

  lemma LookupSingle(t: Tables, key: string, e: EnvId, f: EnvId)
    requires Separate(t) && Matches(t, key, e) && Matches(t, key, f)
    ensures e == f
  {
  }

  // ---- All runs -----------------------------------------------------------------------------

  datatype Event =
    | RequestBuild(q: Request)             // a committed request; an aborted one changes nothing
    | Progress(b: BuildId, status: Status) // a build leaves the waiting state, or moves on
    | DeleteEnv(e: EnvId)                  // with its aliases and builds

  predicate Enabled(t: Tables, e: Event) {
    match e
    case RequestBuild(q) => Acceptable(t, q)
    case Progress(b, status) => b in t.builds && !status.Waiting?
    case DeleteEnv(e) => e in t.envs
  }

  /** New templates get IDs that are no alias, and a rebuilt template still exists when its transaction begins. */
  predicate Timely(t: Tables, e: Event) {
    e.RequestBuild? ==> if e.q.isNew then e.q.templateId !in t.aliases else e.q.templateId in t.envs
  }

  function Step(t: Tables, e: Event): Tables
    requires Enabled(t, e)
  {
    match e
    case RequestBuild(q) => Committed(t, q)
    case Progress(b, status) => t.(builds := t.builds[b := t.builds[b].(status := status)])
    case DeleteEnv(e) => Tables(t.envs - {e}, map a | a in t.aliases && t.aliases[a].envId != e :: t.aliases[a],
                                map b | b in t.builds && t.builds[b].envId != e :: t.builds[b])
  }

  ghost predicate IsRun(t: Tables, events: seq<Event>, timely: bool)
    decreases |events|
  {
    events == [] || (Enabled(t, events[0]) && (timely ==> Timely(t, events[0])) && IsRun(Step(t, events[0]), events[1..], timely))
  }

  ghost function After(t: Tables, events: seq<Event>, timely: bool): Tables
    requires IsRun(t, events, timely)
    decreases |events|
  {
    if events == [] then t else After(Step(t, events[0]), events[1..], timely)
  }

  lemma StepInv(t: Tables, e: Event)
    requires Inv(t) && Enabled(t, e) && Timely(t, e)
    ensures Inv(Step(t, e))
  {
    match e
    case RequestBuild(q) =>
      CommitKeeps(t, q);
      CommitSeparates(t, q);
    case Progress(_, _) =>
    case DeleteEnv(_) =>
  }

  lemma {:induction false} RunInv(t: Tables, events: seq<Event>)
    requires Inv(t) && IsRun(t, events, true)
    ensures Inv(After(t, events, true))
    decreases |events|
  {
    if events != [] {
      StepInv(t, events[0]);
      RunInv(Step(t, events[0]), events[1..]);
    }
  }

  const EMPTY := Tables(map[], map[], map[])

  /** Every alias-or-ID lookup finds at most one env. */
  ghost predicate SingleValued(t: Tables) {
    forall key, e, f :: Matches(t, key, e) && Matches(t, key, f) ==> e == f
  }

  /** In every timely run the lookup is single-valued and each env has at most one waiting build and one renamable alias. */
  lemma RunsSingleValued(events: seq<Event>)
    requires IsRun(EMPTY, events, true)
    ensures Inv(After(EMPTY, events, true)) && SingleValued(After(EMPTY, events, true))
  {
    RunInv(EMPTY, events);
    var t := After(EMPTY, events, true);
    forall key, e, f | Matches(t, key, e) && Matches(t, key, f) ensures e == f {
      LookupSingle(t, key, e, f);
    }
  }

  const NEW_X := RequestBuild(Request("x", true, "t", "b1", None, None, NoAlias))
  const NEW_Y := RequestBuild(Request("y", true, "t", "b2", None, None, NoAlias))
  const CLAIM_X := RequestBuild(Request("y", false, "t", "b3", None, None, Named("x")))
  const REBUILD_X := RequestBuild(Request("x", false, "t", "b4", None, None, NoAlias))

  /** Without timeliness the lookup can find two envs: after two requests a rebuild of x passes the access check, x is
      deleted, y takes "x" as its alias, and the rebuild's transaction then creates x again. */
  lemma StaleRebuild() returns (events: seq<Event>)
    ensures events == [NEW_X, NEW_Y] + [DeleteEnv("x"), CLAIM_X, REBUILD_X, Progress("b3", Uploaded), Progress("b4", Uploaded)]
    ensures IsRun(EMPTY, [NEW_X, NEW_Y], false) && AccessOk(After(EMPTY, [NEW_X, NEW_Y], false), REBUILD_X.q)
    ensures IsRun(EMPTY, events, false) && !SingleValued(After(EMPTY, events, false))
  {
    TwoNew([]);
    assert [NEW_X, NEW_Y] + [] == [NEW_X, NEW_Y];
    var later := DeleteAndClaim();
    TwoNew(later);
    events := [NEW_X, NEW_Y] + later;
  }

  /** Both envs exist, and nothing has an alias yet. */
  const X_AND_Y := Tables(map["x" := Env("t", 1), "y" := Env("t", 1)], map[],
                          map["b1" := Build("x", Waiting, 2, 1024), "b2" := Build("y", Waiting, 2, 1024)])

  lemma TwoNew(later: seq<Event>)
    requires IsRun(X_AND_Y, later, false)
    ensures IsRun(EMPTY, [NEW_X, NEW_Y] + later, false)
    ensures After(EMPTY, [NEW_X, NEW_Y] + later, false) == After(X_AND_Y, later, false)
  {
    var t1 := Step(EMPTY, NEW_X);
    assert Step(t1, NEW_Y) == X_AND_Y;
    RunOne(t1, NEW_Y, later);
    RunOne(EMPTY, NEW_X, [NEW_Y] + later);
    assert [NEW_X] + ([NEW_Y] + later) == [NEW_X, NEW_Y] + later;
  }

  lemma DeleteAndClaim() returns (events: seq<Event>)
    ensures events == [DeleteEnv("x"), CLAIM_X, REBUILD_X, Progress("b3", Uploaded), Progress("b4", Uploaded)]
    ensures IsRun(X_AND_Y, events, false) && !SingleValued(After(X_AND_Y, events, false))
  {
    var t3 := Step(X_AND_Y, DeleteEnv("x"));
    var t4 := Step(t3, CLAIM_X);
    events := RecreateX(t4);
    RunOne(t3, CLAIM_X, events);
    events := [CLAIM_X] + events;
    RunOne(X_AND_Y, DeleteEnv("x"), events);
    events := [DeleteEnv("x")] + events;
  }

  lemma RecreateX(t: Tables) returns (events: seq<Event>)
    requires "y" in t.envs && "x" in t.aliases && t.aliases["x"].envId == "y"
    requires "b3" in t.builds && t.builds["b3"].envId == "y" && "b4" !in t.builds
    ensures events == [REBUILD_X, Progress("b3", Uploaded), Progress("b4", Uploaded)]
    ensures IsRun(t, events, false) && !SingleValued(After(t, events, false))
  {
    var t5 := Step(t, REBUILD_X);
    var t6 := Step(t5, Progress("b3", Uploaded));
    var t7 := Step(t6, Progress("b4", Uploaded));
    events := [];
    RunOne(t6, Progress("b4", Uploaded), events);
    events := [Progress("b4", Uploaded)] + events;
    RunOne(t5, Progress("b3", Uploaded), events);
    events := [Progress("b3", Uploaded)] + events;
    RunOne(t, REBUILD_X, events);
    events := [REBUILD_X] + events;
    assert t7.aliases["x"].envId == "y" && t7.builds["b3"].envId == "y" && t7.builds["b4"].envId == "x";
    assert Matches(t7, "x", "x") && Matches(t7, "x", "y");
  }

  lemma RunOne(t: Tables, e: Event, events: seq<Event>)
    requires Enabled(t, e) && IsRun(Step(t, e), events, false)
    ensures IsRun(t, [e] + events, false) && After(t, [e] + events, false) == After(Step(t, e), events, false)
  {
    assert ([e] + events)[1..] == events;
  }
}
