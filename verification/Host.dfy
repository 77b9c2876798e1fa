// What a node really holds for one sandbox, and what the registered clean-up functions do to it: the network pool
// (packages/orchestrator/internal/sandbox/network/pool.go) and the functions registered in
// packages/orchestrator/internal/sandbox/sandbox.go.
module Host {
  import opened Prelude

  type Slot = nat
  type Error = string

  /** What a registered function does. */
  datatype Action =
    | ReturnSlot(slot: Slot)
    | RemoveFiles
    | CloseOverlay
    | StopUffd
    | RemoveDns
    | StopProcesses

  /** What may be in use for a sandbox. */
  datatype Resource =
    | NetworkSlot
    | OverlayDevice
    | UffdListener
    | UffdSocket   // the socket file
    | RootfsLink   // the link file
    | FcProcess
    | DnsRecord

  /** Which resources are in use. */
  datatype Holding = Holding(slot: bool, overlay: bool, listener: bool, socket: bool, link: bool, process: bool, dns: bool)
  {
    predicate Has(r: Resource) {
      match r
      case NetworkSlot => slot
      case OverlayDevice => overlay
      case UffdListener => listener
      case UffdSocket => socket
      case RootfsLink => link
      case FcProcess => process
      case DnsRecord => dns
    }
  }

  const NOTHING := Holding(false, false, false, false, false, false, false)

  /** What can go wrong when a resource is given up. */
  datatype UndoFault =
    | NetworkStays
    | KeyStays
    | FilesStay
    | DeviceStays
    | ProcessSurvives
    | UffdIgnores
    | UnlinkFails   // a closed listener normally takes its socket file along

  /** What may end by itself: the process, and the fault handler, whose last act may be to stop itself. */
  datatype OwnEnds = OwnEnds(process: bool, handler: HandlerEnd)
  datatype HandlerEnd = Runs | EndsAlone | EndsStopped

  // ---- The effect of a function -------------------------------------------------------------

  /** The function gives the resource up; `full` says that the pool takes no slot back for reuse. */
  predicate Undoes(a: Action, r: Resource, full: bool, faults: set<UndoFault>) {
    match a
    case ReturnSlot(_) => r.NetworkSlot? && !(full && (NetworkStays in faults || KeyStays in faults))
    case RemoveFiles => (r.UffdSocket? || r.RootfsLink?) && FilesStay !in faults
    case CloseOverlay => r.OverlayDevice? && DeviceStays !in faults
    case StopUffd => Closes(r, faults)
    case RemoveDns => r.DnsRecord?
    case StopProcesses => (r.FcProcess? && ProcessSurvives !in faults) || Closes(r, faults)
  }

  /** The end of the fault handler closes the listener, which removes its socket file. */
  predicate Closes(r: Resource, faults: set<UndoFault>) {
    UffdIgnores !in faults && (r.UffdListener? || (r.UffdSocket? && UnlinkFails !in faults))
  }

  predicate StopFailsFrom(stopped: Option<bool>, open: bool, faults: set<UndoFault>) {
    match stopped
    case None => !open || UffdIgnores in faults
    case Some(failed) => failed
  }

  /** `stopped` is what the fault handler's stop function first came to, if it was called: whether it failed. */
  datatype HostState = HostState(held: Holding, stopped: Option<bool>, reused: seq<Slot>, reserved: set<Slot>, capacity: nat)
  {
    predicate Full() { |reused| >= capacity }

    /** The stop function fails if the handler is gone already; called again, it says what it said at first. */
    predicate StopFails(faults: set<UndoFault>) {
      StopFailsFrom(stopped, held.listener, faults)
    }
  }

  /** Whether the function returns an error; closing the overlay and removing the record never do. A process that has
      ended cannot be killed. */
  predicate Reports(a: Action, s: HostState, faults: set<UndoFault>) {
    match a
    case ReturnSlot(_) => s.Full() && (NetworkStays in faults || KeyStays in faults)
    case RemoveFiles => FilesStay in faults
    case CloseOverlay => false
    case StopUffd => s.StopFails(faults)
    case RemoveDns => false
    case StopProcesses => !s.held.process || ProcessSurvives in faults || s.StopFails(faults)
  }

  /** The listener is closed unless the handler ignores the signal. */
  function Closed(h: Holding, faults: set<UndoFault>): Holding {
    h.(listener := h.listener && UffdIgnores in faults,
       socket := h.socket && (UffdIgnores in faults || UnlinkFails in faults))
  }

  function Performed(s: HostState, a: Action, faults: set<UndoFault>): HostState {
    match a
    case ReturnSlot(slot) =>
      if !s.Full() then s.(held := s.held.(slot := false), reused := s.reused + [slot])
      else s.(held := s.held.(slot := s.held.slot && (NetworkStays in faults || KeyStays in faults)),
              reserved := if KeyStays in faults then s.reserved else s.reserved - {slot})
    case RemoveFiles =>
      s.(held := s.held.(socket := s.held.socket && FilesStay in faults, link := s.held.link && FilesStay in faults))
    case CloseOverlay => s.(held := s.held.(overlay := s.held.overlay && DeviceStays in faults))
    case StopUffd => s.(held := Closed(s.held, faults), stopped := Some(s.StopFails(faults)))
    case RemoveDns => s.(held := s.held.(dns := false))
    case StopProcesses =>
      s.(held := Closed(s.held, faults).(process := s.held.process && ProcessSurvives in faults),
         stopped := Some(s.StopFails(faults)))
  }

  /** What is still in use after the process or the fault handler has ended by itself. */
  function Ended(h: Holding, own: OwnEnds, faults: set<UndoFault>): Holding {
    var open := h.(process := h.process && !own.process);
    if h.listener && !own.handler.Runs? then open.(listener := false, socket := h.socket && UnlinkFails in faults) else open
  }

  function StoppedAfter(stopped: Option<bool>, open: bool, own: OwnEnds): Option<bool> {
    if open && own.handler.EndsStopped? && stopped.None? then Some(false) else stopped
  }

  function Expired(s: HostState, own: OwnEnds, faults: set<UndoFault>): HostState {
    s.(held := Ended(s.held, own, faults),
       stopped := StoppedAfter(s.stopped, s.held.listener, own))
  }

  lemma PerformedHolds(s: HostState, a: Action, faults: set<UndoFault>, r: Resource)
    ensures Performed(s, a, faults).held.Has(r) <==> s.held.Has(r) && !Undoes(a, r, s.Full(), faults)
  {
  }

  /** A function that reports no error has done its work: without faults it would have given up nothing more. Only
      closing the overlay is silent either way, and so is the unlinking of a closed listener's socket. */
  lemma SilentMeansDone(s: HostState, a: Action, faults: set<UndoFault>, r: Resource)
    requires a != CloseOverlay && !Reports(a, s, faults) && (s.stopped == Some(false) ==> !s.held.listener)
    requires r == UffdSocket ==> a == RemoveFiles
    ensures Undoes(a, r, s.Full(), {}) ==> !Performed(s, a, faults).held.Has(r)
  {
  }

  function PerformedAll(s: HostState, actions: seq<Action>, faults: set<UndoFault>): HostState {
    if actions == [] then s
    else Performed(PerformedAll(s, actions[..|actions| - 1], faults), actions[|actions| - 1], faults)
  }

  lemma PerformedPush(s: HostState, actions: seq<Action>, a: Action, faults: set<UndoFault>)
    ensures PerformedAll(s, actions + [a], faults) == Performed(PerformedAll(s, actions, faults), a, faults)
  {
    assert (actions + [a])[..|actions|] == actions;
  }

  /** Some call in the sequence returns an error. */
  predicate AnyReports(s: HostState, actions: seq<Action>, faults: set<UndoFault>) {
    actions != [] &&
      var front, last := actions[..|actions| - 1], actions[|actions| - 1];
      AnyReports(s, front, faults) || Reports(last, PerformedAll(s, front, faults), faults)
  }

  lemma AnyReportsPush(s: HostState, actions: seq<Action>, a: Action, faults: set<UndoFault>)
    ensures AnyReports(s, actions + [a], faults) <==>
            AnyReports(s, actions, faults) || Reports(a, PerformedAll(s, actions, faults), faults)
  {
    assert (actions + [a])[..|actions|] == actions;
  }

  /** No function in the sequence gives the resource up. */
  predicate KeepsAll(actions: seq<Action>, r: Resource, faults: set<UndoFault>) {
    forall a :: a in actions ==> !Undoes(a, r, false, faults)
  }

  lemma KeepsAllPush(front: seq<Action>, last: Action, r: Resource, faults: set<UndoFault>)
    ensures KeepsAll(front + [last], r, faults) <==> KeepsAll(front, r, faults) && !Undoes(last, r, false, faults)
  {
    var actions := front + [last];
    assert last in actions;
    assert forall a :: a in front ==> a in actions;
    assert forall a :: a in actions ==> a in front || a == last;
  }

  /** Only the slot's function looks at the pool. */
  lemma UndoesAnyway(a: Action, r: Resource, full: bool, faults: set<UndoFault>)
    requires r != NetworkSlot
    ensures Undoes(a, r, full, faults) <==> Undoes(a, r, false, faults)
  {
  }

  /** Apart from the slot, a resource stays exactly if it was held and no function performed gives it up. */
  lemma {:induction false} StaysHeld(s: HostState, actions: seq<Action>, faults: set<UndoFault>, r: Resource)
    requires r != NetworkSlot
    ensures PerformedAll(s, actions, faults).held.Has(r) <==> s.held.Has(r) && KeepsAll(actions, r, faults)
  {
    if actions != [] {
      var front, last := actions[..|actions| - 1], actions[|actions| - 1];
      var t := PerformedAll(s, front, faults);
      StaysHeld(s, front, faults, r);
      PerformedHolds(t, last, faults, r);
      UndoesAnyway(last, r, t.Full(), faults);
      assert actions == front + [last];
      KeepsAllPush(front, last, r, faults);
    }
  }

  /** Same pool, and the slot as it was. */
  predicate SameSlot(s: HostState, t: HostState) {
    t.reused == s.reused && t.reserved == s.reserved && t.capacity == s.capacity && t.held.slot == s.held.slot
  }

  lemma OtherAction(s: HostState, a: Action, faults: set<UndoFault>)
    requires !a.ReturnSlot?
    ensures SameSlot(s, Performed(s, a, faults))
  {
  }

  /** Functions that return no slot leave the pool and the slot alone. */
  lemma {:induction false} SlotUntouched(s: HostState, actions: seq<Action>, faults: set<UndoFault>)
    requires forall a :: a in actions ==> !a.ReturnSlot?
    ensures SameSlot(s, PerformedAll(s, actions, faults))
  {
    if actions != [] {
      var front := actions[..|actions| - 1];
      SlotUntouched(s, front, faults);
      OtherAction(PerformedAll(s, front, faults), actions[|actions| - 1], faults);
    }
  }

  // ---- The pool and the host ----------------------------------------------------------------

  /** Slots ready for use, in two channels, and the keys reserved for slots in the key store. */
  class Pool {
    const capacity: nat
    var reused: seq<Slot>
    var newSlots: seq<Slot>
    var reserved: set<Slot>

    constructor (capacity: nat, newSlots: seq<Slot>, reserved: set<Slot>)
      ensures this.capacity == capacity && reused == [] && this.newSlots == newSlots && this.reserved == reserved
    {
      this.capacity, reused, this.newSlots, this.reserved := capacity, [], newSlots, reserved;
    }

    /** A used slot first, whatever has become of the request; otherwise a new one, unless the request has ended. With
        both a new slot and the end of the request at hand, either may be taken. */
    method Get(ended: bool) returns (slot: Option<Slot>)
      modifies this`reused, this`newSlots
      ensures slot.Some? ==> [slot.value] + reused + newSlots == old(reused) + old(newSlots)
      ensures slot.None? ==> reused == old(reused) == [] && newSlots == old(newSlots) && (ended || newSlots == [])
      ensures |reused| == if old(reused) == [] then 0 else |old(reused)| - 1
    {
      if reused != [] {
        slot := Some(reused[0]);
        reused := reused[1..];
        return;
      }
      var lucky: bool := *;
      if newSlots == [] || (ended && !lucky) {
        return None;
      }
      slot := Some(newSlots[0]);
      newSlots := newSlots[1..];
    }

    /** Back to the channel for reuse; if that is full, the network is removed and the key released. */
    method Return(slot: Slot, faults: set<UndoFault>) returns (err: Option<Error>)
      modifies this`reused, this`reserved
      ensures reused == if |old(reused)| < capacity then old(reused) + [slot] else old(reused)
      ensures reserved == if |old(reused)| < capacity || KeyStays in faults then old(reserved) else old(reserved) - {slot}
      ensures err.Some? <==> |old(reused)| >= capacity && (NetworkStays in faults || KeyStays in faults)
    {
      if |reused| < capacity {
        reused := reused + [slot];
        return None;
      }
      err := None;
      if NetworkStays in faults {
        err := Some("cannot remove network");
      }
      if KeyStays in faults {
        err := Some("failed to release slot");
      } else {
        reserved := reserved - {slot};
      }
    }
  }

  /** The host as one sandbox sees it, and what goes wrong when the sandbox is cleaned up. */
  class Host {
    const pool: Pool
    const faults: set<UndoFault>
    var held: Holding
    var stopped: Option<bool>

    constructor (pool: Pool, faults: set<UndoFault>)
      ensures this.pool == pool && this.faults == faults && held == NOTHING && stopped == None
    {
      this.pool, this.faults, held, stopped := pool, faults, NOTHING, None;
    }

    ghost function State(): HostState
      reads this, pool
    {
      HostState(held, stopped, pool.reused, pool.reserved, pool.capacity)
    }

    /** Calls a registered function. */
    method Perform(a: Action) returns (err: Option<Error>)
      modifies this`held, this`stopped, pool`reused, pool`reserved
      ensures State() == Performed(old(State()), a, faults)
      ensures err.Some? <==> Reports(a, old(State()), faults)
    {
      err := None;
      match a {
        case ReturnSlot(slot) =>
          err := GiveBack(slot);
        case RemoveFiles =>
          if FilesStay in faults {
            err := Some("failed to delete");
          } else {
            held := held.(socket := false, link := false);
          }
        case CloseOverlay =>
          if DeviceStays !in faults {
            held := held.(overlay := false);
          }
        case StopUffd =>
          err := SignalUffd();
        case RemoveDns =>
          held := held.(dns := false);
        case StopProcesses =>
          var killErr := Kill(ProcessSurvives in faults);
          var uffdErr := SignalUffd();
          err := OrElse(killErr, uffdErr);
      }
    }

    method GiveBack(slot: Slot) returns (err: Option<Error>)
      modifies this`held, pool`reused, pool`reserved
      ensures State() == Performed(old(State()), ReturnSlot(slot), faults)
      ensures err.Some? <==> Reports(ReturnSlot(slot), old(State()), faults)
    {
      err := pool.Return(slot, faults);
      if err.None? {
        held := held.(slot := false);
      }
    }

    /** The fault handler's stop function: only the first call signals the handler, which then ends and closes its
        listener. One that has ended already cannot be signalled. */
    method SignalUffd() returns (err: Option<Error>)
      modifies this`held, this`stopped
      ensures held == Closed(old(held), faults)
      ensures stopped == Some(StopFailsFrom(old(stopped), old(held).listener, faults))
      ensures err.Some? <==> StopFailsFrom(old(stopped), old(held).listener, faults)
    {
      if stopped.None? {
        stopped := Some(!held.listener || UffdIgnores in faults);
      }
      if UffdIgnores !in faults {
        held := held.(listener := false, socket := held.socket && UnlinkFails in faults);
      }
      return if stopped.value then Some("failed write to exit writer") else None;
    }

    /** Killing a process that has ended is an error, though nothing is left running. */
    method Kill(fails: bool) returns (err: Option<Error>)
      modifies this`held
      ensures held == old(held).(process := old(held).process && fails)
      ensures err.Some? <==> !old(held).process || fails
    {
      if !held.process || fails {
        return Some("failed to send KILL");
      }
      held := held.(process := false);
      return None;
    }

    /** The process or the fault handler ends by itself. */
    method Expire(own: OwnEnds)
      modifies this`held, this`stopped
      ensures held == Ended(old(held), own, faults)
      ensures stopped == StoppedAfter(old(stopped), old(held).listener, own)
    {
      if !own.handler.Runs? && held.listener {
        if own.handler.EndsStopped? && stopped.None? {
          stopped := Some(false);
        }
        held := held.(listener := false, socket := held.socket && UnlinkFails in faults);
      }
      if own.process {
        held := held.(process := false);
      }
    }
  }
}
