// Counting sandbox spawns per template and flushing the counts to the database
// (packages/api/internal/utils/counter.go).
module SpawnCounter {

  type TemplateID = string

  /** A positive number of increments and the time of the last one. */
  datatype Count = Count(count: int, lastUpdate: int)

  /** One database update; a failed one is only logged. */
  datatype Update = Update(template: TemplateID, count: Count, applied: bool)

  /** The live counters, the batch the flush has taken out but not sent yet, and the updates sent so far. */
  datatype State = State(pending: map<TemplateID, Count>, taken: map<TemplateID, Count>, sent: seq<Update>)

  datatype Event = Increment(template: TemplateID, time: int) | Swap | Send(template: TemplateID, applied: bool)

  // ---- The counters over every interleaving -------------------------------------------------

  /** One goroutine flushes, so it takes a batch only after sending the previous one. */
  predicate Enabled(s: State, e: Event) {
    match e
    case Increment(_, _) => true
    case Swap => s.taken == map[]
    case Send(template, _) => template in s.taken
  }

  function Counted(m: map<TemplateID, Count>, template: TemplateID): int {
    if template in m then m[template].count else 0
  }

  function Apply(s: State, e: Event): State
    requires Enabled(s, e)
  {
    match e
    case Increment(template, time) =>
      s.(pending := s.pending[template := Count(Counted(s.pending, template) + 1, time)])
    case Swap =>
      s.(pending := map[], taken := map t | t in s.pending && s.pending[t].count > 0 :: s.pending[t])
    case Send(template, applied) =>
      s.(taken := s.taken - {template}, sent := s.sent + [Update(template, s.taken[template], applied)])
  }

  const EMPTY := State(map[], map[], [])

  ghost predicate IsRun(events: seq<Event>)
    decreases |events|, 0
  {
    events == [] ||
    (var front := events[..|events| - 1];
     IsRun(front) && Enabled(After(front), events[|events| - 1]))
  }

  ghost function After(events: seq<Event>): State
    requires IsRun(events)
    decreases |events|, 1
  {
    if events == [] then EMPTY
    else Apply(After(events[..|events| - 1]), events[|events| - 1])
  }

  /** When the template was incremented, in order. */
  function Times(events: seq<Event>, template: TemplateID): seq<int>
    decreases |events|
  {
    if events == [] then []
    else
      var e := events[|events| - 1];
      Times(events[..|events| - 1], template) +
      if e.Increment? && e.template == template then [e.time] else []
  }

  function SentTotal(sent: seq<Update>, template: TemplateID): int
    decreases |sent|
  {
    if sent == [] then 0
    else
      var u := sent[|sent| - 1];
      SentTotal(sent[..|sent| - 1], template) + if u.template == template then u.count.count else 0
  }

  /** The increments are cut into the sent updates, the taken batch and the live counter, in this order: a record
      ending at the n-th increment carries that increment's time. */
  ghost predicate EndsAt(times: seq<int>, n: int, c: Count) {
    c.count > 0 && c.count <= n <= |times| && c.lastUpdate == times[n - 1]
  }

  ghost predicate SentInOrder(times: seq<int>, sent: seq<Update>, template: TemplateID) {
    forall k :: 0 <= k < |sent| && sent[k].template == template ==>
      EndsAt(times, SentTotal(sent[..k + 1], template), sent[k].count)
  }

  ghost predicate Inv(times: seq<int>, s: State, template: TemplateID) {
    var sent := SentTotal(s.sent, template);
    var taken := sent + Counted(s.taken, template);
    && 0 <= sent
    && taken + Counted(s.pending, template) == |times|
    && (template in s.taken ==> EndsAt(times, taken, s.taken[template]))
    && (template in s.pending ==> EndsAt(times, |times|, s.pending[template]))
    && SentInOrder(times, s.sent, template)
  }

  lemma LongerTimes(times: seq<int>, time: int, sent: seq<Update>, template: TemplateID)
    requires SentInOrder(times, sent, template)
    ensures SentInOrder(times + [time], sent, template)
  {
    forall k | 0 <= k < |sent| && sent[k].template == template
      ensures EndsAt(times + [time], SentTotal(sent[..k + 1], template), sent[k].count)
    {
      assert EndsAt(times, SentTotal(sent[..k + 1], template), sent[k].count);
    }
  }

  lemma SentPush(times: seq<int>, sent: seq<Update>, u: Update, template: TemplateID)
    requires SentInOrder(times, sent, template)
    requires u.template == template ==> EndsAt(times, SentTotal(sent, template) + u.count.count, u.count)
    ensures SentInOrder(times, sent + [u], template)
    ensures SentTotal(sent + [u], template) ==
            SentTotal(sent, template) + if u.template == template then u.count.count else 0
  {
    var longer := sent + [u];
    assert longer[..|sent|] == sent;
    forall k | 0 <= k < |longer| && longer[k].template == template
      ensures EndsAt(times, SentTotal(longer[..k + 1], template), longer[k].count)
    {
      if k < |sent| {
        assert longer[..k + 1] == sent[..k + 1];
      } else {
        assert longer[..k + 1] == longer;
      }
    }
  }

  lemma StepInv(times: seq<int>, s: State, e: Event, template: TemplateID)
    requires Inv(times, s, template) && Enabled(s, e)
    ensures Inv(times + if e.Increment? && e.template == template then [e.time] else [], Apply(s, e), template)
  {
    match e
    case Increment(t, time) =>
      if t == template {
        LongerTimes(times, time, s.sent, template);
      } else {
        assert times + [] == times;
      }
    case Swap =>
      assert times + [] == times;
    case Send(t, applied) =>
      assert times + [] == times;
      SentPush(times, s.sent, Update(t, s.taken[t], applied), template);
  }

  /** In every run and for every template: what was sent, applied or not, plus what is taken plus what is pending
      is the number of increments, and every record carries the time of the last increment it counts. */
  lemma {:induction false} RunInv(events: seq<Event>, template: TemplateID)
    requires IsRun(events)
    ensures Inv(Times(events, template), After(events), template)
    decreases |events|
  {
    if events != [] {
      var front, e := events[..|events| - 1], events[|events| - 1];
      RunInv(front, template);
      StepInv(Times(front, template), After(front), e, template);
    }
  }

  lemma IncrementsConserved(events: seq<Event>, template: TemplateID)
    requires IsRun(events)
    ensures var s := After(events);
            SentTotal(s.sent, template) + Counted(s.taken, template) + Counted(s.pending, template)
            == |Times(events, template)|
  {
    RunInv(events, template);
  }

  /** The templates sent, with what came of each, in order. */
  function Sends(events: seq<Event>): seq<(TemplateID, bool)> {
    if events == [] then []
    else
      var e := events[|events| - 1];
      Sends(events[..|events| - 1]) + if e.Send? then [(e.template, e.applied)] else []
  }

  /** In every run the updates made are the sends, in order, each with its outcome. */
  lemma {:induction false} SentInTurn(events: seq<Event>)
    requires IsRun(events)
    ensures |After(events).sent| == |Sends(events)|
    ensures forall k :: 0 <= k < |Sends(events)| ==>
              (After(events).sent[k].template, After(events).sent[k].applied) == Sends(events)[k]
    decreases |events|
  {
    if events != [] {
      SentInTurn(events[..|events| - 1]);
    }
  }

  /** Until the next swap, whatever else happens, a batch keeps exactly the entries not sent yet, as they were. */
  lemma {:induction false} TakenOnlyShrinks(before: seq<Event>, later: seq<Event>, template: TemplateID)
    requires IsRun(before + later) && forall e :: e in later ==> !e.Swap?
    ensures IsRun(before)
    ensures var was, now := After(before).taken, After(before + later).taken;
            && (template in now <==> template in was && forall e :: e in later ==> !(e.Send? && e.template == template))
            && (template in now ==> now[template] == was[template])
    decreases |later|
  {
    if later == [] {
      assert before + later == before;
    } else {
      var front, e := later[..|later| - 1], later[|later| - 1];
      assert later == front + [e];
      assert (before + later)[..|before + later| - 1] == before + front;
      TakenOnlyShrinks(before, front, template);
    }
  }

  /** Skipping zero counts at the swap drops nothing: no live counter is ever zero. */
  lemma SwapTakesAll(events: seq<Event>)
    requires IsRun(events) && Enabled(After(events), Swap)
    ensures Apply(After(events), Swap).taken == After(events).pending
  {
    forall t | t in After(events).pending ensures After(events).pending[t].count > 0 {
      RunInv(events, t);
    }
  }

  // ---- The counter objects ------------------------------------------------------------------

  class TemplateCounter {
    var count: int
    var lastUpdate: int

    constructor ()
      ensures count == 0
    {
      count, lastUpdate := 0, 0;
    }
  }

  ghost function Values(m: map<TemplateID, TemplateCounter>): map<TemplateID, Count>
    reads m.Values
  {
    map t | t in m :: Count(m[t].count, m[t].lastUpdate)
  }

  /** The shared counters; the batch a flush is sending is kept beside them. */
  class TemplateSpawnCounter {
    var counters: map<TemplateID, TemplateCounter>
    var updates: map<TemplateID, TemplateCounter>
    var sent: seq<Update>

    /** No two entries share an object, and none lies in both maps. */
    ghost predicate Valid()
      reads this
    {
      && (forall t, u :: t in counters && u in counters && t != u ==> counters[t] != counters[u])
      && (forall t, u :: t in counters && u in updates ==> counters[t] != updates[u])
    }

    ghost function Model(): State
      reads this, counters.Values, updates.Values
    {
      State(Values(counters), Values(updates), sent)
    }

    constructor ()
      ensures Valid() && Model() == EMPTY
    {
      counters, updates, sent := map[], map[], [];
    }

    method IncreaseTemplateSpawnCount(template: TemplateID, time: int)
      requires Valid()
      modifies this`counters, counters.Values
      ensures Valid() && Model() == Apply(old(Model()), Increment(template, time))
      ensures updates == old(updates) && Values(updates) == old(Values(updates))
    {
      ghost var was := Values(counters);
      EnsureCounter(template);
      assert Values(updates) == old(Values(updates));
      Bump(template, time);
      assert Values(counters) == was[template := Count(Counted(was, template) + 1, time)];
    }

    method EnsureCounter(template: TemplateID)
      requires Valid()
      modifies this`counters
      ensures Valid() && template in counters
      ensures counters[template].count == Counted(old(Values(counters)), template)
      ensures Values(counters) == old(Values(counters))[template := Values(counters)[template]]
      ensures template !in old(counters) ==> fresh(counters[template])
      ensures template in old(counters) ==> counters[template] == old(counters[template])
    {
      if template !in counters {
        var counter := new TemplateCounter();
        counters := counters[template := counter];
      }
    }

    method Bump(template: TemplateID, time: int)
      requires Valid() && template in counters
      modifies counters[template]
      ensures Valid() && Values(updates) == old(Values(updates))
      ensures Values(counters) == old(Values(counters))[template := Count(old(counters[template].count) + 1, time)]
    {
      var counter := counters[template];
      counter.count := counter.count + 1;
      counter.lastUpdate := time;
    }

    /** The first half of a flush, under the lock. */
    method Swap()
      requires Valid() && updates == map[]
      modifies this`counters, this`updates
      ensures Valid() && Model() == Apply(old(Model()), Event.Swap)
    {
      var taken: map<TemplateID, TemplateCounter> := map[];
      var left := counters.Keys;
      while left != {}
        invariant left <= counters.Keys
        invariant taken == map t | t in counters && t !in left && counters[t].count > 0 :: counters[t]
      {
        var t :| t in left;
        if counters[t].count > 0 {
          taken := taken[t := counters[t]];
        }
        left := left - {t};
      }
      updates := taken;
      counters := map[];
    }

    /** The second half, outside the lock: one update, whose outcome is only logged. */
    method SendOne(template: TemplateID, applied: bool)
      requires Valid() && template in updates
      modifies this`updates, this`sent
      ensures Valid() && Model() == Apply(old(Model()), Send(template, applied))
    {
      var counter := updates[template];
      sent := sent + [Update(template, Count(counter.count, counter.lastUpdate), applied)];
      updates := updates - {template};
    }
  }
}
