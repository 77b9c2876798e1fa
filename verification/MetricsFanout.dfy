// Fetching the metrics of all listed sandboxes concurrently
// (packages/api/internal/handlers/sandboxes_list_metrics.go), as interleaved steps of the spawning loop, the
// workers, the closing goroutine and the collecting loop.
module MetricsFanout {
  import opened Prelude

  const MAX_FETCHES: nat := 30

  datatype Outcome = Fetched | Failed | TimedOut

  /** Where a worker stands. A worker that timed out waiting never held a permit. */
  datatype Phase =
    | Unspawned
    | Waiting
    | Fetching
    | Reporting(outcome: Outcome)
    | Holding
    | Leaving
    | Gone

  /** A result names the sandbox by its position in the list. */
  datatype Report = Report(worker: nat, outcome: Outcome)

  datatype State = State(
    workers: seq<Phase>,
    free: int,
    waitGroup: int,
    channel: seq<Report>,
    closed: bool,
    output: seq<Report>,
    finished: bool,
    counters: Outcome -> int)

  datatype Event =
    | Spawn(worker: nat)
    | Acquire(worker: nat)
    | AcquireFails(worker: nat)
    | Fetch(worker: nat, ok: bool)
    | Send(worker: nat)
    | Release(worker: nat)
    | Done(worker: nat)
    | Close
    | Receive
    | Finish

  function Initial(n: nat): State {
    State(seq(n, _ => Unspawned), MAX_FETCHES, 0, [], false, [], false, _ => 0)
  }

  predicate AllSpawned(s: State) {
    forall i :: 0 <= i < |s.workers| ==> !s.workers[i].Unspawned?
  }

  /** The loop spawns in order; the closing goroutine and the collecting loop start after it. Sending is written
      without its own conditions: that it never blocks or meets a closed channel is proved. */
  predicate Enabled(s: State, e: Event) {
    match e
    case Spawn(i) =>
      i < |s.workers| && s.workers[i].Unspawned? && forall j :: 0 <= j < i ==> !s.workers[j].Unspawned?
    case Acquire(i) => i < |s.workers| && s.workers[i].Waiting? && s.free > 0
    case AcquireFails(i) => i < |s.workers| && s.workers[i].Waiting?
    case Fetch(i, _) => i < |s.workers| && s.workers[i].Fetching?
    case Send(i) => i < |s.workers| && s.workers[i].Reporting?
    case Release(i) => i < |s.workers| && s.workers[i].Holding?
    case Done(i) => i < |s.workers| && s.workers[i].Leaving?
    case Close => AllSpawned(s) && s.waitGroup == 0 && !s.closed
    case Receive => AllSpawned(s) && s.channel != []
    case Finish => AllSpawned(s) && s.channel == [] && s.closed && !s.finished
  }

  function Counting(counters: Outcome -> int, o: Outcome): Outcome -> int {
    p => counters(p) + if p == o then 1 else 0
  }

  function Apply(s: State, e: Event): State
    requires Enabled(s, e)
  {
    match e
    case Spawn(i) => s.(workers := s.workers[i := Waiting], waitGroup := s.waitGroup + 1)
    case Acquire(i) => s.(workers := s.workers[i := Fetching], free := s.free - 1)
    case AcquireFails(i) =>
      s.(workers := s.workers[i := Reporting(TimedOut)], counters := Counting(s.counters, TimedOut))
    case Fetch(i, ok) =>
      var o := if ok then Fetched else Failed;
      s.(workers := s.workers[i := Reporting(o)], counters := Counting(s.counters, o))
    case Send(i) =>
      var o := s.workers[i].outcome;
      s.(workers := s.workers[i := if o.TimedOut? then Leaving else Holding], channel := s.channel + [Report(i, o)])
    case Release(i) => s.(workers := s.workers[i := Leaving], free := s.free + 1)
    case Done(i) => s.(workers := s.workers[i := Gone], waitGroup := s.waitGroup - 1)
    case Close => s.(closed := true)
    case Receive => s.(channel := s.channel[1..], output := s.output + [s.channel[0]])
    case Finish => s.(finished := true)
  }

  ghost predicate IsRun(n: nat, events: seq<Event>)
    decreases |events|, 0
  {
    events == [] ||
    (var front := events[..|events| - 1];
     IsRun(n, front) && Enabled(After(n, front), events[|events| - 1]))
  }

  ghost function After(n: nat, events: seq<Event>): State
    requires IsRun(n, events)
    decreases |events|, 1
  {
    if events == [] then Initial(n)
    else Apply(After(n, events[..|events| - 1]), events[|events| - 1])
  }

  // ---- Totals over the workers and the reports ----------------------------------------------

  function Total(workers: seq<Phase>, weight: Phase -> int): int {
    if workers == [] then 0 else Total(workers[..|workers| - 1], weight) + weight(workers[|workers| - 1])
  }

  lemma {:induction false} TotalUpdate(workers: seq<Phase>, weight: Phase -> int, i: nat, p: Phase)
    requires i < |workers|
    ensures Total(workers[i := p], weight) == Total(workers, weight) - weight(workers[i]) + weight(p)
  {
    var n := |workers| - 1;
    if i == n {
      assert workers[i := p][..n] == workers[..n];
    } else {
      TotalUpdate(workers[..n], weight, i, p);
      assert workers[i := p][..n] == workers[..n][i := p];
    }
  }

  lemma {:induction false} TotalBounds(workers: seq<Phase>, weight: Phase -> int, most: int)
    requires forall p :: 0 <= weight(p) <= most
    ensures 0 <= Total(workers, weight) <= most * |workers|
    ensures forall i :: 0 <= i < |workers| ==> weight(workers[i]) <= Total(workers, weight)
  {
    if workers != [] {
      TotalBounds(workers[..|workers| - 1], weight, most);
      assert most * |workers| == most * (|workers| - 1) + most;
    }
  }

  function Holds(p: Phase): int {
    if p.Fetching? || p.Holding? || (p.Reporting? && !p.outcome.TimedOut?) then 1 else 0
  }

  function Present(p: Phase): int {
    if p.Unspawned? || p.Gone? then 0 else 1
  }

  function HasSent(p: Phase): int {
    if p.Holding? || p.Leaving? || p.Gone? then 1 else 0
  }

  function Reports(o: Outcome): Phase -> int {
    p => if p == Reporting(o) then 1 else 0
  }

  /** How often a worker's report, and how often an outcome, occurs. */
  function FromWorker(reports: seq<Report>, i: nat): int {
    if reports == [] then 0
    else FromWorker(reports[..|reports| - 1], i) + if reports[|reports| - 1].worker == i then 1 else 0
  }

  function WithOutcome(reports: seq<Report>, o: Outcome): int {
    if reports == [] then 0
    else WithOutcome(reports[..|reports| - 1], o) + if reports[|reports| - 1].outcome == o then 1 else 0
  }

  lemma ReportPush(reports: seq<Report>, r: Report, i: nat, o: Outcome)
    ensures FromWorker(reports + [r], i) == FromWorker(reports, i) + if r.worker == i then 1 else 0
    ensures WithOutcome(reports + [r], o) == WithOutcome(reports, o) + if r.outcome == o then 1 else 0
  {
    assert (reports + [r])[..|reports|] == reports;
  }

  // ---- What every step keeps ----------------------------------------------------------------

  /** All reports so far, in the order they were sent. */
  function Sent(s: State): seq<Report> {
    s.output + s.channel
  }

  ghost predicate Inv(n: nat, s: State) {
    && |s.workers| == n
    && s.free == MAX_FETCHES - Total(s.workers, Holds)
    && s.free >= 0
    && s.waitGroup == Total(s.workers, Present)
    && |Sent(s)| == Total(s.workers, HasSent)
    && (s.closed ==> AllSpawned(s) && s.waitGroup == 0)
    && (s.finished ==> s.closed && s.channel == [])
  }

  /** Each worker's report was sent once if the worker is past sending and not at all before. */
  ghost predicate OnceEach(s: State) {
    && (forall i: nat :: i < |s.workers| ==> FromWorker(Sent(s), i) == HasSent(s.workers[i]))
    && (forall k :: 0 <= k < |Sent(s)| ==> Sent(s)[k].worker < |s.workers|)
  }

  /** Each counter is the number of reports with that outcome, sent or about to be. */
  ghost predicate Counts(s: State, o: Outcome) {
    s.counters(o) == WithOutcome(Sent(s), o) + Total(s.workers, Reports(o))
  }

  function Worker(e: Event): Option<nat> {
    match e
    case Close => None
    case Receive => None
    case Finish => None
    case Spawn(i) => Some(i)
    case Acquire(i) => Some(i)
    case AcquireFails(i) => Some(i)
    case Fetch(i, _) => Some(i)
    case Send(i) => Some(i)
    case Release(i) => Some(i)
    case Done(i) => Some(i)
  }

  lemma SentStep(s: State, e: Event)
    requires Enabled(s, e)
    ensures e.Send? ==> Sent(Apply(s, e)) == Sent(s) + [Report(e.worker, s.workers[e.worker].outcome)]
    ensures !e.Send? ==> Sent(Apply(s, e)) == Sent(s)
  {
    if e.Receive? {
      assert s.channel == [s.channel[0]] + s.channel[1..];
    }
  }

  lemma WorkerStep(s: State, e: Event, weight: Phase -> int)
    requires Enabled(s, e)
    ensures var t := Apply(s, e);
            && |t.workers| == |s.workers|
            && (Worker(e).None? ==> t.workers == s.workers)
            && (Worker(e).Some? ==>
                  && Worker(e).value < |s.workers|
                  && t.workers == s.workers[Worker(e).value := t.workers[Worker(e).value]]
                  && Total(t.workers, weight) ==
                     Total(s.workers, weight) - weight(s.workers[Worker(e).value]) + weight(t.workers[Worker(e).value]))
  {
    var t := Apply(s, e);
    if Worker(e).Some? {
      var i := Worker(e).value;
      TotalUpdate(s.workers, weight, i, t.workers[i]);
    }
  }

  lemma StepInv(n: nat, s: State, e: Event)
    requires Inv(n, s) && Enabled(s, e)
    ensures Inv(n, Apply(s, e))
  {
    var t := Apply(s, e);
    SentStep(s, e);
    WorkerStep(s, e, Holds);
    WorkerStep(s, e, Present);
    WorkerStep(s, e, HasSent);
    TotalBounds(s.workers, Present, 1);
    assert s.closed ==> AllSpawned(t);
  }

  /** A worker's report count changes with its own sending only. */
  lemma StepFrom(s: State, e: Event, i: nat)
    requires Enabled(s, e) && i < |s.workers| && FromWorker(Sent(s), i) == HasSent(s.workers[i])
    ensures |Apply(s, e).workers| == |s.workers|
    ensures FromWorker(Sent(Apply(s, e)), i) == HasSent(Apply(s, e).workers[i])
  {
    SentStep(s, e);
    if e.Send? {
      ReportPush(Sent(s), Report(e.worker, s.workers[e.worker].outcome), i, Failed);
    }
  }

  lemma StepOnce(s: State, e: Event)
    requires OnceEach(s) && Enabled(s, e)
    ensures OnceEach(Apply(s, e))
  {
    var t := Apply(s, e);
    SentStep(s, e);
    forall i: nat | i < |t.workers| ensures FromWorker(Sent(t), i) == HasSent(t.workers[i]) {
      StepFrom(s, e, i);
    }
  }

  lemma CounterStep(s: State, e: Event, o: Outcome)
    requires Enabled(s, e)
    ensures Apply(s, e).counters(o) == s.counters(o) + if Happens(e, o) then 1 else 0
  {
  }

  /** The step fixes an outcome, and so makes a report ready. */
  predicate Happens(e: Event, o: Outcome) {
    || (e.AcquireFails? && o == TimedOut)
    || (e.Fetch? && o == if e.ok then Fetched else Failed)
  }

  lemma ReportsStep(s: State, e: Event, o: Outcome)
    requires Enabled(s, e)
    ensures Total(Apply(s, e).workers, Reports(o)) ==
            Total(s.workers, Reports(o)) + (if Happens(e, o) then 1 else 0) -
            (if e.Send? && s.workers[e.worker].outcome == o then 1 else 0)
  {
    WorkerStep(s, e, Reports(o));
  }

  lemma StepCounts(s: State, e: Event, o: Outcome)
    requires Counts(s, o) && Enabled(s, e)
    ensures Counts(Apply(s, e), o)
  {
    SentStep(s, e);
    CounterStep(s, e, o);
    ReportsStep(s, e, o);
    if e.Send? {
      ReportPush(Sent(s), Report(e.worker, s.workers[e.worker].outcome), 0, o);
    }
  }

  lemma {:induction false} InitialTotal(n: nat, weight: Phase -> int)
    ensures Total(seq(n, _ => Unspawned), weight) == n * weight(Unspawned)
  {
    if n > 0 {
      InitialTotal(n - 1, weight);
      assert seq(n, _ => Unspawned)[..n - 1] == seq(n - 1, _ => Unspawned);
    }
  }

  lemma {:induction false} RunInv(n: nat, events: seq<Event>)
    requires IsRun(n, events)
    ensures Inv(n, After(n, events)) && OnceEach(After(n, events))
    ensures forall o :: Counts(After(n, events), o)
    decreases |events|
  {
    if events == [] {
      InitialTotal(n, Holds);
      InitialTotal(n, Present);
      InitialTotal(n, HasSent);
      forall o ensures Counts(Initial(n), o) { InitialTotal(n, Reports(o)); }
    } else {
      var front, e := events[..|events| - 1], events[|events| - 1];
      RunInv(n, front);
      StepInv(n, After(n, front), e);
      StepOnce(After(n, front), e);
      forall o ensures Counts(After(n, events), o) { StepCounts(After(n, front), e, o); }
    }
  }

  /** At most thirty workers hold a permit at any time. */
  lemma AtMostThirty(n: nat, events: seq<Event>)
    requires IsRun(n, events)
    ensures 0 <= Total(After(n, events).workers, Holds) <= 30
  {
    RunInv(n, events);
    TotalBounds(After(n, events).workers, Holds, 1);
  }

  /** A worker about to send keeps the wait group from ending. */
  lemma OpenWhileReporting(n: nat, s: State, i: nat)
    requires Inv(n, s) && Enabled(s, Send(i))
    ensures !s.closed
  {
    TotalBounds(s.workers, Present, 1);
    assert Present(s.workers[i]) == 1;
  }

  /** Its own report is not among those sent, of which there is at most one a worker. */
  lemma RoomToReport(n: nat, s: State, i: nat)
    requires Inv(n, s) && Enabled(s, Send(i))
    ensures |s.channel| < n
  {
    TotalUpdate(s.workers, HasSent, i, Gone);
    TotalBounds(s.workers[i := Gone], HasSent, 1);
    assert |Sent(s)| < n;
  }

  /** A worker that has its report ready finds the channel open and with room, so sending never blocks or panics. */
  lemma SendsFreely(n: nat, events: seq<Event>, i: nat)
    requires IsRun(n, events) && Enabled(After(n, events), Send(i))
    ensures !After(n, events).closed && |After(n, events).channel| < n
  {
    RunInv(n, events);
    OpenWhileReporting(n, After(n, events), i);
    RoomToReport(n, After(n, events), i);
  }

  // ---- Termination --------------------------------------------------------------------------

  function Weight(p: Phase): int {
    match p
    case Unspawned => 7
    case Waiting => 6
    case Fetching => 5
    case Reporting(_) => 4
    case Holding => 2
    case Leaving => 1
    case Gone => 0
  }

  function Rank(s: State): int {
    Total(s.workers, Weight) + |s.channel| + (if s.closed then 0 else 1) + (if s.finished then 0 else 1)
  }

  lemma RankStep(s: State, e: Event)
    requires Enabled(s, e)
    ensures Rank(Apply(s, e)) < Rank(s)
  {
    WorkerStep(s, e, Weight);
  }

  /** Every step uses up some of what is left, so no run is longer than seven steps a worker and two more. */
  lemma {:induction false} RunsAreShort(n: nat, events: seq<Event>)
    requires IsRun(n, events)
    ensures |events| <= 7 * n + 2 - Rank(After(n, events)) && Rank(After(n, events)) >= 0
    decreases |events|
  {
    TotalBounds(After(n, events).workers, Weight, 7);
    if events == [] {
      InitialTotal(n, Weight);
    } else {
      var front := events[..|events| - 1];
      RunsAreShort(n, front);
      RankStep(After(n, front), events[|events| - 1]);
    }
  }

  /** Some step other than a timeout. */
  ghost predicate CanMove(s: State) {
    exists e :: Enabled(s, e) && !e.AcquireFails?
  }

  lemma WorkerMoves(s: State, i: nat)
    requires i < |s.workers| && Present(s.workers[i]) > 0 && (s.workers[i].Waiting? ==> s.free > 0)
    ensures CanMove(s)
  {
    var e := match s.workers[i]
      case Fetching => Fetch(i, true)
      case Reporting(_) => Send(i)
      case Holding => Release(i)
      case Leaving => Done(i)
      case _ => Acquire(i);
    assert Enabled(s, e);
  }

  /** Some step is possible until the collecting loop has ended, without waiting for any timeout. */
  lemma NeverStuck(n: nat, events: seq<Event>)
    requires IsRun(n, events) && !After(n, events).finished
    ensures CanMove(After(n, events))
  {
    var s := After(n, events);
    RunInv(n, events);
    if !AllSpawned(s) {
      var i := FirstUnspawned(s.workers);
      assert Enabled(s, Spawn(i));
    } else if s.channel != [] {
      assert Enabled(s, Receive);
    } else if s.closed {
      assert Enabled(s, Finish);
    } else if s.waitGroup == 0 {
      assert Enabled(s, Close);
    } else if s.free > 0 {
      TotalBounds(s.workers, Present, 1);
      var i := SomeWorker(s.workers, Present);
      WorkerMoves(s, i);
    } else {
      var i := SomeWorker(s.workers, Holds);
      WorkerMoves(s, i);
    }
  }

  lemma {:induction false} FirstUnspawned(workers: seq<Phase>) returns (i: nat)
    requires exists j :: 0 <= j < |workers| && workers[j].Unspawned?
    ensures i < |workers| && workers[i].Unspawned? && forall j :: 0 <= j < i ==> !workers[j].Unspawned?
  {
    i := 0;
    while !workers[i].Unspawned?
      invariant i < |workers| && forall j :: 0 <= j < i ==> !workers[j].Unspawned?
      decreases |workers| - i
    {
      i := i + 1;
    }
  }

  lemma {:induction false} SomeWorker(workers: seq<Phase>, weight: Phase -> int) returns (i: nat)
    requires Total(workers, weight) > 0
    ensures i < |workers| && weight(workers[i]) > 0
  {
    if weight(workers[|workers| - 1]) > 0 {
      i := |workers| - 1;
    } else {
      i := SomeWorker(workers[..|workers| - 1], weight);
    }
  }

  // ---- The answer ---------------------------------------------------------------------------

  function Workers(reports: seq<Report>): seq<nat> {
    if reports == [] then [] else Workers(reports[..|reports| - 1]) + [reports[|reports| - 1].worker]
  }

  /** The sandboxes the results belong to, in the order they arrived. */
  function Listed<T>(sandboxes: seq<T>, workers: seq<nat>): seq<T>
    requires forall k :: 0 <= k < |workers| ==> workers[k] < |sandboxes|
  {
    seq(|workers|, k requires 0 <= k < |workers| => sandboxes[workers[k]])
  }

  lemma {:induction false} WorkersCount(reports: seq<Report>, i: nat)
    ensures |Workers(reports)| == |reports|
    ensures multiset(Workers(reports))[i] == FromWorker(reports, i)
    ensures forall k :: 0 <= k < |reports| ==> Workers(reports)[k] == reports[k].worker
  {
    if reports != [] {
      WorkersCount(reports[..|reports| - 1], i);
    }
  }

  lemma ListedWithout<T>(sandboxes: seq<T>, workers: seq<nat>, k: nat)
    requires forall j :: 0 <= j < |workers| ==> workers[j] < |sandboxes|
    requires k < |workers|
    ensures var rest := workers[..k] + workers[k + 1..];
            multiset(Listed(sandboxes, workers)) == multiset(Listed(sandboxes, rest)) + multiset{sandboxes[workers[k]]}
  {
    var all, rest := Listed(sandboxes, workers), Listed(sandboxes, workers[..k] + workers[k + 1..]);
    assert rest == all[..k] + all[k + 1..];
    assert all == all[..k] + [all[k]] + all[k + 1..];
  }

  /** Naming every position below n once lists the n sandboxes, in some order. */
  lemma {:induction false} ListsAll<T>(sandboxes: seq<T>, workers: seq<nat>)
    requires |workers| == |sandboxes|
    requires forall k :: 0 <= k < |workers| ==> workers[k] < |sandboxes|
    requires forall i: nat :: i < |sandboxes| ==> multiset(workers)[i] == 1
    ensures multiset(Listed(sandboxes, workers)) == multiset(sandboxes)
  {
    if sandboxes == [] {
      assert workers == [];
    } else {
      var n := |sandboxes| - 1;
      assert n in multiset(workers);
      var k :| 0 <= k < |workers| && workers[k] == n;
      var rest := workers[..k] + workers[k + 1..];
      Without(workers, k);
      ListsAll(sandboxes[..n], rest);
      ListedWithout(sandboxes, workers, k);
      assert Listed(sandboxes[..n], rest) == Listed(sandboxes, rest);
      assert sandboxes == sandboxes[..n] + [sandboxes[n]];
    }
  }

  lemma Without(workers: seq<nat>, k: nat)
    requires k < |workers|
    requires forall j :: 0 <= j < |workers| ==> workers[j] < workers[k] + 1
    requires forall i: nat :: i < workers[k] + 1 ==> multiset(workers)[i] == 1
    ensures var rest := workers[..k] + workers[k + 1..];
            && (forall j :: 0 <= j < |rest| ==> rest[j] < workers[k])
            && (forall i: nat :: i < workers[k] ==> multiset(rest)[i] == 1)
  {
    var n, rest := workers[k], workers[..k] + workers[k + 1..];
    assert workers == workers[..k] + [n] + workers[k + 1..];
    assert multiset(workers) == multiset(rest) + multiset{n};
    forall j | 0 <= j < |rest| ensures rest[j] < n {
      assert rest[j] in multiset(rest) && rest[j] in multiset(workers);
      assert multiset(workers)[n] == 1;
    }
    forall i: nat | i < n ensures multiset(rest)[i] == 1 {
      assert multiset(workers)[i] == 1;
    }
  }

  lemma {:induction false} NoneReporting(workers: seq<Phase>, weight: Phase -> int)
    requires forall i :: 0 <= i < |workers| ==> weight(workers[i]) == 0
    ensures Total(workers, weight) == 0
  {
    if workers != [] {
      NoneReporting(workers[..|workers| - 1], weight);
    }
  }

  lemma {:induction false} OutcomesSum(reports: seq<Report>)
    ensures WithOutcome(reports, Fetched) + WithOutcome(reports, Failed) + WithOutcome(reports, TimedOut) == |reports|
  {
    if reports != [] {
      OutcomesSum(reports[..|reports| - 1]);
    }
  }

  /** Once the collecting loop has ended, every report is in the output, one from each worker. */
  lemma AllCollected(n: nat, events: seq<Event>)
    requires IsRun(n, events) && After(n, events).finished
    ensures var s := After(n, events);
            && |s.output| == |Workers(s.output)| == n
            && (forall k :: 0 <= k < n ==> Workers(s.output)[k] < n)
            && (forall i: nat :: i < n ==> multiset(Workers(s.output))[i] == 1)
  {
    var s := After(n, events);
    RunInv(n, events);
    AllGone(n, s);
    assert Sent(s) == s.output;
    WorkersCount(s.output, 0);
    forall i: nat | i < n ensures multiset(Workers(s.output))[i] == 1 {
      WorkersCount(s.output, i);
    }
  }

  /** A wait for a permit that failed, a fetch that worked and one that did not. */
  predicate Ends(e: Event, o: Outcome) {
    match o
    case TimedOut => e.AcquireFails?
    case Fetched => e.Fetch? && e.ok
    case Failed => e.Fetch? && !e.ok
  }

  function EndCount(events: seq<Event>, o: Outcome): int {
    if events == [] then 0
    else EndCount(events[..|events| - 1], o) + if Ends(events[|events| - 1], o) then 1 else 0
  }

  /** In every run each counter is the number of waits or fetches that ended that way. */
  lemma {:induction false} CountersCountEvents(n: nat, events: seq<Event>, o: Outcome)
    requires IsRun(n, events)
    ensures After(n, events).counters(o) == EndCount(events, o)
    decreases |events|
  {
    if events != [] {
      var front, e := events[..|events| - 1], events[|events| - 1];
      CountersCountEvents(n, front, o);
      CounterStep(After(n, front), e, o);
    }
  }

  /** Each counter is the number of entries with that outcome; together they make up the number of sandboxes. */
  lemma CountersComplete(n: nat, events: seq<Event>)
    requires IsRun(n, events) && After(n, events).finished
    ensures var s := After(n, events);
            && (forall o :: s.counters(o) == WithOutcome(s.output, o))
            && s.counters(Fetched) + s.counters(Failed) + s.counters(TimedOut) == n
  {
    var s := After(n, events);
    RunInv(n, events);
    AllGone(n, s);
    assert Sent(s) == s.output;
    forall o ensures s.counters(o) == WithOutcome(s.output, o) {
      assert Counts(s, o);
      NoneReporting(s.workers, Reports(o));
    }
    OutcomesSum(s.output);
  }

  /** The answer lists every sandbox exactly once, in the order the results arrived. */
  lemma Answer<T>(sandboxes: seq<T>, events: seq<Event>)
    requires IsRun(|sandboxes|, events) && After(|sandboxes|, events).finished
    ensures var workers := Workers(After(|sandboxes|, events).output);
            && (forall k :: 0 <= k < |workers| ==> workers[k] < |sandboxes|)
            && multiset(Listed(sandboxes, workers)) == multiset(sandboxes)
  {
    AllCollected(|sandboxes|, events);
    ListsAll(sandboxes, Workers(After(|sandboxes|, events).output));
  }

  lemma AllGone(n: nat, s: State)
    requires Inv(n, s) && s.closed
    ensures forall i :: 0 <= i < n ==> s.workers[i].Gone?
    ensures Total(s.workers, HasSent) == n
  {
    TotalBounds(s.workers, Present, 1);
    forall i | 0 <= i < n ensures s.workers[i].Gone? {
      assert Present(s.workers[i]) <= 0;
    }
    AllSent(s.workers);
  }

  lemma {:induction false} AllSent(workers: seq<Phase>)
    requires forall i :: 0 <= i < |workers| ==> workers[i].Gone?
    ensures Total(workers, HasSent) == |workers|
  {
    if workers != [] {
      AllSent(workers[..|workers| - 1]);
    }
  }
}
