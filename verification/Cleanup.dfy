// The two-level clean-up stack of a sandbox, run once and in reverse
// (packages/orchestrator/internal/sandbox/cleanup.go).
module Cleanup {
  import opened Prelude
  import opened Host

  /** One call of a registered function and the error it returned, if any. */
  datatype Execution = Execution(action: Action, err: Option<Error>)

  function Actions(log: seq<Execution>): (r: seq<Action>)
    ensures |r| == |log| && forall i :: 0 <= i < |r| ==> r[i] == log[i].action
  {
    seq(|log|, i requires 0 <= i < |log| => log[i].action)
  }

  function Errors(log: seq<Execution>): seq<Error> {
    if log == [] then []
    else Errors(log[..|log| - 1]) + match log[|log| - 1].err case None => [] case Some(e) => [e]
  }

  /** The errors are those of the calls at the given positions, in order. */
  ghost predicate ErrorsAt(errs: seq<Error>, log: seq<Execution>, at: seq<nat>) {
    && |at| == |errs|
    && (forall k :: 0 <= k < |at| ==> at[k] < |log| && log[at[k]].err == Some(errs[k]))
    && (forall j, k :: 0 <= j < k < |at| ==> at[j] < at[k])
  }

  lemma ErrorsAtPush(errs: seq<Error>, log: seq<Execution>, at: seq<nat>, e: Execution)
    requires ErrorsAt(errs, log, at)
    ensures ErrorsAt(errs, log + [e], at)
    ensures e.err.Some? ==> ErrorsAt(errs + [e.err.value], log + [e], at + [|log|])
  {
  }

  /** They are all the errors returned, each once. */
  lemma {:induction false} ErrorsRead(log: seq<Execution>) returns (at: seq<nat>)
    ensures ErrorsAt(Errors(log), log, at)
    ensures forall i: nat :: i in at <==> i < |log| && log[i].err.Some?
  {
    if log == [] {
      at := [];
    } else {
      var front, last := log[..|log| - 1], log[|log| - 1];
      at := ErrorsRead(front);
      ErrorsAtPush(Errors(front), front, at, last);
      assert log == front + [last];
      if last.err.Some? {
        at := at + [|front|];
      } else {
        assert Errors(log) == Errors(front);
      }
    }
  }

  /** errors.Join: nil if there is nothing to join. */
  function Join(errs: seq<Error>): (r: Option<seq<Error>>)
    ensures r.None? <==> errs == []
    ensures r.Some? ==> r.value == errs
  {
    if errs == [] then None else Some(errs)
  }

  lemma ErrorsPush(log: seq<Execution>, e: Execution)
    ensures Errors(log + [e]) == Errors(log) + match e.err case None => [] case Some(err) => [err]
    ensures Actions(log + [e]) == Actions(log) + [e.action]
  {
    assert (log + [e])[..|log|] == log;
  }

  // ---- The class ----------------------------------------------------------------------------

  class Stack {
    var cleanup: seq<Action>
    var priorityCleanup: seq<Action>
    var error: Option<seq<Error>>
    var done: bool
    var log: seq<Execution>

    ghost predicate Valid()
      reads this
    {
      done || log == []
    }

    /** The host is where the logged calls take it, and there are errors exactly if one of them reported one. */
    ghost predicate Reached(host: Host, start: HostState)
      reads this, host, host.pool
    {
      && host.State() == PerformedAll(start, Actions(log), host.faults)
      && (Errors(log) == [] <==> !AnyReports(start, Actions(log), host.faults))
    }

    constructor ()
      ensures Valid() && cleanup == [] && priorityCleanup == [] && !done
    {
      cleanup, priorityCleanup, error, done, log := [], [], None, false, [];
    }

    method Add(a: Action)
      modifies this`cleanup
      ensures cleanup == old(cleanup) + [a]
    {
      cleanup := cleanup + [a];
    }

    method AddPriority(a: Action)
      modifies this`priorityCleanup
      ensures priorityCleanup == old(priorityCleanup) + [a]
    {
      priorityCleanup := priorityCleanup + [a];
    }

    /** Runs everything registered so far, once, and reports the joined errors every time. */
    method Run(host: Host) returns (err: Option<seq<Error>>)
      requires Valid()
      modifies this`log, this`error, this`done, host`held, host`stopped, host.pool`reused, host.pool`reserved
      ensures Valid() && done && err == error
      ensures old(done) ==> log == old(log) && error == old(error) && host.State() == old(host.State())
      ensures !old(done) ==> Actions(log) == Reverse(priorityCleanup) + Reverse(cleanup) && error == Join(Errors(log))
      ensures !old(done) ==> host.State() == PerformedAll(old(host.State()), Actions(log), host.faults)
      ensures !old(done) ==> (error == None <==> !AnyReports(old(host.State()), Actions(log), host.faults))
    {
      if !done {
        done := true;
        RunAll(host);
      }
      return error;
    }

    /** An error does not stop the loops. */
    method RunAll(host: Host)
      requires log == []
      modifies this`log, this`error, host`held, host`stopped, host.pool`reused, host.pool`reserved
      ensures Actions(log) == Reverse(priorityCleanup) + Reverse(cleanup) && error == Join(Errors(log))
      ensures Reached(host, old(host.State()))
    {
      ghost var start := host.State();
      assert Actions(log) == [] && Reached(host, start);
      var errs := RunLevel(host, priorityCleanup, [], start);
      errs := RunLevel(host, cleanup, errs, start);
      error := Join(errs);
    }

    /** One of the two loops: from the last function registered to the first. */
    method RunLevel(host: Host, level: seq<Action>, errs: seq<Error>, ghost start: HostState)
      returns (more: seq<Error>)
      requires errs == Errors(log) && Reached(host, start)
      modifies this`log, host`held, host`stopped, host.pool`reused, host.pool`reserved
      ensures more == Errors(log) && Actions(log) == old(Actions(log)) + Reverse(level)
      ensures Reached(host, start)
    {
      more := errs;
      var i := |level|;
      assert level[i..] == [];
      while i > 0
        invariant 0 <= i <= |level| && more == Errors(log) && Reached(host, start)
        invariant Actions(log) == old(Actions(log)) + Reverse(level[i..])
      {
        i := i - 1;
        assert level[i..][1..] == level[i + 1..];
        more := CallOne(host, level[i], more, start);
      }
      assert level[0..] == level;
    }

    /** One call of a registered function. */
    method CallOne(host: Host, a: Action, errs: seq<Error>, ghost start: HostState) returns (more: seq<Error>)
      requires errs == Errors(log) && Reached(host, start)
      modifies this`log, host`held, host`stopped, host.pool`reused, host.pool`reserved
      ensures more == Errors(log) && Actions(log) == old(Actions(log)) + [a]
      ensures Reached(host, start)
    {
      var result := host.Perform(a);
      ErrorsPush(log, Execution(a, result));
      PerformedPush(start, Actions(log), a, host.faults);
      AnyReportsPush(start, Actions(log), a, host.faults);
      log := log + [Execution(a, result)];
      more := if result.Some? then errs + [result.value] else errs;
    }
  }

  /** Where the once-guarded run is; the index is the number of functions of that level still to call. */
  datatype Phase = Idle | Priority(i: nat) | Ordinary(i: nat) | Finished

  /** `priorityLen` and `ordinaryLen` are the lengths the two loops started from. */
  datatype Cleaner = Cleaner(ordinary: seq<Action>, priority: seq<Action>, phase: Phase,
                             log: seq<Execution>, error: Option<seq<Error>>, priorityLen: nat, ordinaryLen: nat)

  datatype Move =
    | Register(a: Action)
    | RegisterPriority(a: Action)
    | Start                        // the first caller of Run enters
    | Call(result: Option<Error>)  // it calls the next function of the current level
    | NextLevel                    // the first loop is done
    | Finish                       // the second loop is done

  const NEW := Cleaner([], [], Idle, [], None, 0, 0)

  predicate Enabled(c: Cleaner, m: Move) {
    match m
    case Register(_) => true
    case RegisterPriority(_) => true
    case Start => c.phase.Idle?
    case Call(_) => (c.phase.Priority? && 0 < c.phase.i <= |c.priority|) || (c.phase.Ordinary? && 0 < c.phase.i <= |c.ordinary|)
    case NextLevel => c.phase == Priority(0)
    case Finish => c.phase == Ordinary(0)
  }

  function Next(c: Cleaner, m: Move): Cleaner
    requires Enabled(c, m)
  {
    match m
    case Register(a) => c.(ordinary := c.ordinary + [a])
    case RegisterPriority(a) => c.(priority := c.priority + [a])
    case Start => c.(phase := Priority(|c.priority|), priorityLen := |c.priority|)
    case Call(result) =>
      if c.phase.Priority?
      then c.(phase := Priority(c.phase.i - 1), log := c.log + [Execution(c.priority[c.phase.i - 1], result)])
      else c.(phase := Ordinary(c.phase.i - 1), log := c.log + [Execution(c.ordinary[c.phase.i - 1], result)])
    case NextLevel => c.(phase := Ordinary(|c.ordinary|), ordinaryLen := |c.ordinary|)
    case Finish => c.(phase := Finished, error := Join(Errors(c.log)))
  }

  /** The calls made so far are the ones due, in order. */
  ghost predicate Inv(c: Cleaner) {
    match c.phase
    case Idle => c.log == []
    case Priority(i) => i <= c.priorityLen <= |c.priority| && Actions(c.log) == Reverse(c.priority[i..c.priorityLen])
    case Ordinary(i) =>
      && c.priorityLen <= |c.priority| && i <= c.ordinaryLen <= |c.ordinary|
      && Actions(c.log) == Reverse(c.priority[..c.priorityLen]) + Reverse(c.ordinary[i..c.ordinaryLen])
    case Finished =>
      && c.priorityLen <= |c.priority| && c.ordinaryLen <= |c.ordinary|
      && Actions(c.log) == Reverse(c.priority[..c.priorityLen]) + Reverse(c.ordinary[..c.ordinaryLen])
      && c.error == Join(Errors(c.log))
  }

  lemma CallInv(c: Cleaner, result: Option<Error>)
    requires Inv(c) && Enabled(c, Call(result))
    ensures Inv(Next(c, Call(result)))
  {
    var i := c.phase.i - 1;
    if c.phase.Priority? {
      ReverseSlice(c.priority, i, c.priorityLen);
      ErrorsPush(c.log, Execution(c.priority[i], result));
    } else {
      ReverseSlice(c.ordinary, i, c.ordinaryLen);
      ErrorsPush(c.log, Execution(c.ordinary[i], result));
      var p := Reverse(c.priority[..c.priorityLen]);
      assert p + (Reverse(c.ordinary[i + 1..c.ordinaryLen]) + [c.ordinary[i]]) == (p + Reverse(c.ordinary[i + 1..c.ordinaryLen])) + [c.ordinary[i]];
    }
  }

  lemma NextInv(c: Cleaner, m: Move)
    requires Inv(c) && Enabled(c, m)
    ensures Inv(Next(c, m))
  {
    match m
    case Register(a) =>
      if c.phase.Ordinary? || c.phase.Finished? {
        var i := if c.phase.Ordinary? then c.phase.i else 0;
        assert (c.ordinary + [a])[i..c.ordinaryLen] == c.ordinary[i..c.ordinaryLen];
      }
    case RegisterPriority(a) =>
      if !c.phase.Idle? {
        var i := if c.phase.Priority? then c.phase.i else 0;
        assert (c.priority + [a])[i..c.priorityLen] == c.priority[i..c.priorityLen];
      }
    case Start =>
    case Call(result) =>
      CallInv(c, result);
    case NextLevel =>
    case Finish =>
  }

  ghost predicate IsRun(c: Cleaner, moves: seq<Move>)
    decreases |moves|
  {
    moves == [] || (Enabled(c, moves[0]) && IsRun(Next(c, moves[0]), moves[1..]))
  }

  ghost function After(c: Cleaner, moves: seq<Move>): Cleaner
    requires IsRun(c, moves)
    decreases |moves|
  {
    if moves == [] then c else After(Next(c, moves[0]), moves[1..])
  }

  /** How a cleaner can have evolved: levels only grow, and nothing else changes once it is finished. */
  ghost predicate Evolves(c: Cleaner, d: Cleaner) {
    && c.ordinary <= d.ordinary && c.priority <= d.priority
    && (!c.phase.Idle? ==> !d.phase.Idle? && c.priorityLen == d.priorityLen)
    && (c.phase.Idle? ==> d.phase.Idle? || |c.priority| <= d.priorityLen)
    && (c.phase.Idle? || c.phase.Priority? ==> !d.phase.Idle? && !d.phase.Priority? ==> |c.ordinary| <= d.ordinaryLen)
    && (c.phase.Ordinary? || c.phase.Finished? ==> d.ordinaryLen == c.ordinaryLen && (d.phase.Ordinary? || d.phase.Finished?))
    && (c.phase.Finished? ==> d.phase.Finished? && d.log == c.log && d.error == c.error)
  }

  lemma NextEvolves(c: Cleaner, m: Move)
    requires Inv(c) && Enabled(c, m)
    ensures Evolves(c, Next(c, m))
  {
  }

  lemma EvolvesOn(c: Cleaner, d: Cleaner, e: Cleaner)
    requires Evolves(c, d) && Evolves(d, e)
    ensures Evolves(c, e)
  {
  }

  lemma {:induction false} RunEvolves(c: Cleaner, moves: seq<Move>)
    requires Inv(c) && IsRun(c, moves)
    ensures Inv(After(c, moves)) && Evolves(c, After(c, moves))
    decreases |moves|
  {
    if moves != [] {
      var d := Next(c, moves[0]);
      NextInv(c, moves[0]);
      NextEvolves(c, moves[0]);
      RunEvolves(d, moves[1..]);
      EvolvesOn(c, d, After(d, moves[1..]));
    }
  }

  /** Whatever was registered before Run was first entered has been called exactly once when Run returns,
      the priority functions first and each level in reverse; functions registered too late are never called. */
  lemma RunCallsOnce(before: seq<Move>, after: seq<Move>)
    requires IsRun(NEW, before) && After(NEW, before).phase.Idle? && IsRun(After(NEW, before), after)
    requires After(After(NEW, before), after).phase.Finished?
    ensures var c, d := After(NEW, before), After(After(NEW, before), after);
            && d.priorityLen <= |d.priority| && d.ordinaryLen <= |d.ordinary|
            && c.priority <= d.priority[..d.priorityLen] && c.ordinary <= d.ordinary[..d.ordinaryLen]
            && Actions(d.log) == Reverse(d.priority[..d.priorityLen]) + Reverse(d.ordinary[..d.ordinaryLen])
            && multiset(Actions(d.log)) == multiset(d.priority[..d.priorityLen]) + multiset(d.ordinary[..d.ordinaryLen])
            && d.error == Join(Errors(d.log))
  {
    RunEvolves(NEW, before);
    var c := After(NEW, before);
    RunEvolves(c, after);
    var d := After(c, after);
    ReverseMultiset(d.priority[..d.priorityLen]);
    ReverseMultiset(d.ordinary[..d.ordinaryLen]);
  }

  /** Run returns only once the clean-up is finished, and from then on every call returns the same error. */
  lemma RunReturnsSame(moves: seq<Move>, later: seq<Move>)
    requires IsRun(NEW, moves) && After(NEW, moves).phase.Finished? && IsRun(After(NEW, moves), later)
    ensures After(After(NEW, moves), later).phase.Finished?
    ensures After(After(NEW, moves), later).error == After(NEW, moves).error == Join(Errors(After(NEW, moves).log))
    ensures After(After(NEW, moves), later).log == After(NEW, moves).log
  {
    RunEvolves(NEW, moves);
    RunEvolves(After(NEW, moves), later);
  }
}
