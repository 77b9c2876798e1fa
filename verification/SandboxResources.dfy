// Creating one sandbox and giving up its resources again: the staged acquisition in NewSandbox with what each stage
// really starts (packages/orchestrator/internal/sandbox/sandbox.go, packages/orchestrator/internal/sandbox/fc/process.go,
// packages/orchestrator/internal/sandbox/uffd/handler.go), and the handlers that clean up
// (packages/orchestrator/internal/server/sandboxes.go).
module SandboxResources {
  import opened Prelude
  import opened Host
  import opened Cleanup

  /** The stages that may fail, numbered in their order. A stage stands for all its steps: they fail to the same
      effect. */
  type Stage = n: nat | n < 12

  const GET_TEMPLATE: Stage := 0
  const GET_SLOT: Stage := 1
  const OPEN_OVERLAY: Stage := 2    // the root file system and the overlay over it
  const LISTEN_UFFD: Stage := 3     // the memory file, the fault handler and its listener
  const CHMOD_SOCKET: Stage := 4
  const LINK_ROOTFS: Stage := 5     // the snapshot file, the process's command and pipes, the link to nowhere
  const LAUNCH_PROCESS: Stage := 6
  const WAIT_SOCKET: Stage := 7
  const REMOVE_LINK: Stage := 8     // the device's path, then the removal of the link
  const LINK_DEVICE: Stage := 9
  const BOOT_MACHINE: Stage := 10   // loading the snapshot, resuming, setting the metadata
  const INIT_ENVD: Stage := 11

  /** Where the creation stops: the number of a stage, or one more if none fails. */
  const DONE: nat := 12

  /** Whether a stage fails: the pool decides for the slot, and an old envd that does not answer is only reported. */
  predicate Fails(s: Stage, faults: set<Stage>, newEnvd: bool, served: bool) {
    if s == GET_SLOT then !served else s in faults && (s == INIT_ENVD ==> newEnvd)
  }

  /** The creation stops at its first failing stage. */
  ghost predicate StopsAt(stop: nat, faults: set<Stage>, newEnvd: bool, served: bool) {
    && stop <= DONE
    && (stop < DONE ==> Fails(stop, faults, newEnvd, served))
    && forall s: Stage :: s < stop ==> !Fails(s, faults, newEnvd, served)
  }

  /** The stages from one to another, as far as the first that fails. */
  ghost predicate PassesTo(stop: nat, from: nat, to: nat, faults: set<Stage>) {
    && from <= stop <= to <= DONE
    && (stop < to ==> stop in faults)
    && forall s: Stage :: from <= s < stop ==> s !in faults
  }

  // ---- What is in use when the creation stops -----------------------------------------------

  /** On failure of these stages the start of the process kills it again. */
  predicate KillsProcess(stop: nat) {
    stop == WAIT_SOCKET || stop == BOOT_MACHINE
  }

  /** What was started and not given up again: the failing stage may have killed the process, or removed the link. */
  function Using(stop: nat, killFails: bool): Holding {
    Holding(
      GET_SLOT < stop,
      OPEN_OVERLAY < stop,
      LISTEN_UFFD < stop,
      LISTEN_UFFD < stop,
      LINK_ROOTFS < stop && stop != LINK_DEVICE,
      LAUNCH_PROCESS < stop && (KillsProcess(stop) ==> killFails),
      INIT_ENVD < stop)
  }

  /** What is still in use: the process and, once it runs, the fault handler may have ended by themselves. */
  function InUse(stop: nat, killFails: bool, own: OwnEnds, faults: set<UndoFault>): Holding {
    if CHMOD_SOCKET < stop then Ended(Using(stop, killFails), own, faults) else Using(stop, killFails)
  }

  // ---- What is registered when the creation stops -------------------------------------------

  /** The clean-up of a fully started sandbox, in the order of registration. */
  function Plan(slot: Slot): seq<Action> {
    [ReturnSlot(slot), RemoveFiles, CloseOverlay, StopUffd, RemoveDns]
  }

  /** How many ordinary functions are registered. */
  function Registered(stop: nat): (n: nat)
    ensures n <= 5
  {
    if stop <= GET_SLOT then 0
    else if stop <= OPEN_OVERLAY then 2
    else if stop <= CHMOD_SOCKET then 3
    else if stop <= INIT_ENVD then 4
    else 5
  }

  function Ordinary(slot: Option<Slot>, stop: nat): seq<Action> {
    match slot
    case None => []
    case Some(s) => Plan(s)[..Registered(stop)]
  }

  function PriorityOf(stop: nat): seq<Action> {
    if BOOT_MACHINE < stop then [StopProcesses] else []
  }

  /** Some registered function gives the resource up. */
  ghost predicate Covered(r: Resource, actions: seq<Action>) {
    exists a :: a in actions && Undoes(a, r, false, {})
  }

  /** The failing stage leaves something running that no function stops: the listener if its socket cannot be opened
      up, and a process that does not end by itself if its link cannot be replaced, or if killing it fails. */
  predicate Leaked(r: Resource, stop: nat, killFails: bool, own: OwnEnds) {
    || (r.UffdListener? && stop == CHMOD_SOCKET)
    || (r.FcProcess? && !own.process && (stop == REMOVE_LINK || stop == LINK_DEVICE || (KillsProcess(stop) && killFails)))
  }

  /** Everything in use is covered by a registered function, but for what the failing stage leaks. */
  lemma UncoveredIsLeaked(r: Resource, slot: Option<Slot>, stop: nat, killFails: bool, own: OwnEnds, faults: set<UndoFault>)
    requires slot.Some? <==> GET_SLOT < stop
    ensures InUse(stop, killFails, own, faults).Has(r) && !Covered(r, PriorityOf(stop) + Ordinary(slot, stop))
       <==> Leaked(r, stop, killFails, own)
  {
    var p, o := PriorityOf(stop), Ordinary(slot, stop);
    CoveredParts(r, p, o);
    if slot.Some? {
      PlanCovers(r, slot.value, Registered(stop));
    }
    assert Covered(r, p) <==> p != [] && (r.FcProcess? || r.UffdListener? || r.UffdSocket?) by {
      assert p != [] ==> StopProcesses in p;
    }
  }

  lemma CoveredParts(r: Resource, p: seq<Action>, o: seq<Action>)
    ensures Covered(r, p + o) <==> Covered(r, p) || Covered(r, o)
  {
  }

  lemma PlanCovers(r: Resource, slot: Slot, n: nat)
    requires n <= 5
    ensures Covered(r, Plan(slot)[..n]) <==>
              match r
              case NetworkSlot => n > 0
              case UffdSocket => n > 1
              case RootfsLink => n > 1
              case OverlayDevice => n > 2
              case UffdListener => n > 3
              case DnsRecord => n > 4
              case FcProcess => false
  {
    var first := Plan(slot)[..n];
    var at := match r
      case NetworkSlot => 0
      case UffdSocket => 1
      case RootfsLink => 1
      case OverlayDevice => 2
      case UffdListener => 3
      case _ => 4;
    assert forall i :: 0 <= i < n ==> first[i] == Plan(slot)[i];
    if at < n {
      assert first[at] in first;
    }
  }

  // ---- The stages ---------------------------------------------------------------------------

  /** Uffd.Start: the socket is left open if its permissions cannot be set. */
  method StartUffd(host: Host, faults: set<Stage>) returns (stop: nat)
    modifies host`held
    ensures PassesTo(stop, LISTEN_UFFD, LINK_ROOTFS, faults)
    ensures host.held == if stop == LISTEN_UFFD then old(host.held)
                         else old(host.held).(listener := true, socket := true)
  {
    if LISTEN_UFFD in faults {
      return LISTEN_UFFD;
    }
    host.held := host.held.(listener := true, socket := true);
    if CHMOD_SOCKET in faults {
      return CHMOD_SOCKET;
    }
    return LINK_ROOTFS;
  }

  /** Process.Start: once the process runs, some failures kill it and some do not. */
  method StartProcess(host: Host, faults: set<Stage>, killFails: bool) returns (stop: nat)
    requires !host.held.process && !host.held.link
    modifies host`held
    ensures PassesTo(stop, LINK_ROOTFS, INIT_ENVD, faults)
    ensures host.held == old(host.held).(process := Using(stop, killFails).process, link := Using(stop, killFails).link)
    ensures host.held.process <==>
              stop == REMOVE_LINK || stop == LINK_DEVICE || stop == INIT_ENVD ||
              (killFails && (stop == WAIT_SOCKET || stop == BOOT_MACHINE))
    ensures host.held.link <==> stop != LINK_ROOTFS && stop != LINK_DEVICE
  {
    if LINK_ROOTFS in faults {
      return LINK_ROOTFS;
    }
    host.held := host.held.(link := true);
    if LAUNCH_PROCESS in faults {
      return LAUNCH_PROCESS;
    }
    host.held := host.held.(process := true);
    if WAIT_SOCKET in faults {
      var _ := host.Kill(killFails);
      return WAIT_SOCKET;
    }
    if REMOVE_LINK in faults {
      return REMOVE_LINK;
    }
    host.held := host.held.(link := false);
    if LINK_DEVICE in faults {
      return LINK_DEVICE;
    }
    host.held := host.held.(link := true);
    if BOOT_MACHINE in faults {
      var _ := host.Kill(killFails);
      return BOOT_MACHINE;
    }
    return INIT_ENVD;
  }

  /** What is registered when the creation stops. */
  ghost predicate Planned(cleanup: Stack, slot: Option<Slot>, stop: nat)
    reads cleanup
  {
    cleanup.cleanup == Ordinary(slot, stop) && cleanup.priorityCleanup == PriorityOf(stop)
  }

  /** What the host has and what is registered when the creation is about to enter a stage, or has failed in it. */
  ghost predicate Standing(host: Host, cleanup: Stack, slot: Option<Slot>, stop: nat, killFails: bool)
    reads host, cleanup
  {
    host.held == Using(stop, killFails) && host.stopped == None && Planned(cleanup, slot, stop)
  }

  /** What the fault handler's stop function came to by the time the creation stops. */
  function StoppedItself(stop: nat, own: OwnEnds): Option<bool> {
    if CHMOD_SOCKET < stop && own.handler.EndsStopped? then Some(false) else None
  }

  /** The overlay of the root file system and the page fault handler. */
  method OpenDevices(host: Host, cleanup: Stack, ghost slot: Slot, faults: set<Stage>) returns (stop: nat)
    requires Standing(host, cleanup, Some(slot), OPEN_OVERLAY, false)
    modifies host`held, cleanup`cleanup
    ensures PassesTo(stop, OPEN_OVERLAY, LINK_ROOTFS, faults)
    ensures Standing(host, cleanup, Some(slot), stop, false)
  {
    if OPEN_OVERLAY in faults {
      return OPEN_OVERLAY;
    }
    host.held := host.held.(overlay := true);
    cleanup.Add(CloseOverlay);
    stop := StartUffd(host, faults);
    if stop < LINK_ROOTFS {
      return;
    }
    cleanup.Add(StopUffd);
  }

  /** The virtual machine, its envd and the record of its address. */
  method StartMachine(host: Host, cleanup: Stack, ghost slot: Slot, faults: set<Stage>, killFails: bool)
    returns (stop: nat)
    requires Standing(host, cleanup, Some(slot), LINK_ROOTFS, false)
    modifies host`held, cleanup`cleanup, cleanup`priorityCleanup
    ensures PassesTo(stop, LINK_ROOTFS, DONE, faults)
    ensures Standing(host, cleanup, Some(slot), stop, killFails)
  {
    stop := StartProcess(host, faults, killFails);
    if stop < INIT_ENVD {
      return;
    }
    cleanup.AddPriority(StopProcesses);
    if INIT_ENVD in faults {
      return;
    }
    host.held := host.held.(dns := true);
    cleanup.Add(RemoveDns);
    stop := DONE;
  }

  lemma PassesAll(first: nat, stop: nat, faults: set<Stage>, newEnvd: bool)
    requires GET_TEMPLATE !in faults && PassesTo(first, OPEN_OVERLAY, LINK_ROOTFS, faults)
    requires if first < LINK_ROOTFS then stop == first
             else PassesTo(stop, LINK_ROOTFS, DONE, if newEnvd then faults else faults - {INIT_ENVD})
    ensures StopsAt(stop, faults, newEnvd, true)
  {
    forall s: Stage | s < stop ensures !Fails(s, faults, newEnvd, true) {
      assert s < OPEN_OVERLAY || (s < LINK_ROOTFS && s !in faults) ||
             s !in if newEnvd then faults else faults - {INIT_ENVD};
    }
  }

  /** What the host is left with when the creation stops: what was started and has not ended. */
  ghost predicate Settled(host: Host, cleanup: Stack, slot: Option<Slot>, stop: nat, killFails: bool, own: OwnEnds)
    reads host, cleanup
  {
    && host.held == InUse(stop, killFails, own, host.faults)
    && host.stopped == StoppedItself(stop, own)
    && Planned(cleanup, slot, stop)
  }

  /** The stages that follow once there is a slot. `own` is what ends by itself meanwhile, at whatever time: the stages
      do not look at it. */
  method StartAll(host: Host, cleanup: Stack, ghost slot: Slot, newEnvd: bool, faults: set<Stage>, killFails: bool,
                  own: OwnEnds)
    returns (stop: nat)
    requires GET_TEMPLATE !in faults && Standing(host, cleanup, Some(slot), OPEN_OVERLAY, false)
    modifies host`held, host`stopped, cleanup`cleanup, cleanup`priorityCleanup
    ensures StopsAt(stop, faults, newEnvd, true) && GET_SLOT < stop
    ensures Settled(host, cleanup, Some(slot), stop, killFails, own)
  {
    stop := OpenDevices(host, cleanup, slot, faults);
    ghost var first := stop;
    if stop == LINK_ROOTFS {
      // an old envd that does not answer is only reported
      stop := StartMachine(host, cleanup, slot, if newEnvd then faults else faults - {INIT_ENVD}, killFails);
      host.Expire(own);
    }
    PassesAll(first, stop, faults, newEnvd);
  }

  /** Acquires the resources one by one. The host has what was started and has not ended, and the stack what was
      registered, until the first stage that failed. */
  method NewSandbox(host: Host, newEnvd: bool, faults: set<Stage>, killFails: bool, own: OwnEnds, ended: bool)
    returns (cleanup: Stack, slot: Option<Slot>, stop: nat)
    requires host.held == NOTHING && host.stopped == None
    modifies host`held, host`stopped, host.pool`reused, host.pool`newSlots
    ensures fresh(cleanup) && cleanup.Valid() && !cleanup.done
    ensures StopsAt(stop, faults, newEnvd, slot.Some?)
    ensures slot.Some? <==> GET_SLOT < stop
    ensures stop == INIT_ENVD ==> newEnvd && INIT_ENVD in faults
    ensures stop == DONE && newEnvd ==> INIT_ENVD !in faults
    ensures Settled(host, cleanup, slot, stop, killFails, own)
    ensures slot.Some? ==> [slot.value] + host.pool.reused + host.pool.newSlots ==
                           old(host.pool.reused) + old(host.pool.newSlots)
    ensures slot.None? ==> host.pool.reused == old(host.pool.reused) && host.pool.newSlots == old(host.pool.newSlots)
    ensures stop == GET_SLOT ==> old(host.pool.reused) == [] && (ended || old(host.pool.newSlots) == [])
  {
    cleanup := new Stack();
    slot := None;
    if GET_TEMPLATE in faults {
      return cleanup, slot, GET_TEMPLATE;
    }
    slot := host.pool.Get(ended);
    if slot.None? {
      return cleanup, slot, GET_SLOT;
    }
    host.held := host.held.(slot := true);
    cleanup.Add(ReturnSlot(slot.value));
    cleanup.Add(RemoveFiles);
    stop := StartAll(host, cleanup, slot.value, newEnvd, faults, killFails, own);
    assert stop == DONE ==> !Fails(INIT_ENVD, faults, newEnvd, true);
  }

  // ---- Creating and cleaning up -------------------------------------------------------------

  lemma InReverse(s: seq<Action>, a: Action)
    ensures a in Reverse(s) <==> a in s
  {
    ReverseMultiset(s);
    assert a in Reverse(s) <==> a in multiset(Reverse(s));
  }

  /** The slot is back in the pool for reuse, or given up altogether, unless the latter goes wrong. */
  ghost predicate SlotBack(start: HostState, end: HostState, slot: Slot, faults: set<UndoFault>) {
    if !start.Full() then
      && !end.held.slot && end.reused == start.reused + [slot] && end.reserved == start.reserved
    else
      && (end.held.slot <==> NetworkStays in faults || KeyStays in faults)
      && end.reused == start.reused
      && end.reserved == if KeyStays in faults then start.reserved else start.reserved - {slot}
  }

  /** What a clean-up leaves: exactly what was in use and no registered function gave up. */
  ghost predicate CleanedUp(start: HostState, end: HostState, slot: Option<Slot>, stop: nat, faults: set<UndoFault>) {
    && (forall r: Resource {:trigger EndsAsItShould(start, end, r, slot, stop, faults)} ::
          EndsAsItShould(start, end, r, slot, stop, faults))
    && (slot.Some? ==> SlotBack(start, end, slot.value, faults))
    && (slot.None? ==> end == start)
  }

  ghost predicate EndsAsItShould(start: HostState, end: HostState, r: Resource, slot: Option<Slot>, stop: nat,
                                 faults: set<UndoFault>) {
    r != NetworkSlot ==> (end.held.Has(r) <==> Stays(start, r, slot, stop, faults))
  }

  ghost predicate Stays(start: HostState, r: Resource, slot: Option<Slot>, stop: nat, faults: set<UndoFault>) {
    start.held.Has(r) && KeepsAll(PriorityOf(stop) + Ordinary(slot, stop), r, faults)
  }

  /** The order in which the clean-up calls what is registered. */
  function Order(slot: Option<Slot>, stop: nat): seq<Action> {
    Reverse(PriorityOf(stop)) + Reverse(Ordinary(slot, stop))
  }

  lemma RunCleansUp(start: HostState, slot: Option<Slot>, stop: nat, faults: set<UndoFault>)
    requires slot.Some? <==> GET_SLOT < stop
    requires slot.Some? ==> start.held.slot
    ensures CleanedUp(start, PerformedAll(start, Order(slot, stop), faults), slot, stop, faults)
  {
    var p, o := PriorityOf(stop), Ordinary(slot, stop);
    var order := Order(slot, stop);
    forall r: Resource ensures EndsAsItShould(start, PerformedAll(start, order, faults), r, slot, stop, faults) {
      if r != NetworkSlot {
        StaysHeld(start, order, faults, r);
        forall a ensures a in order <==> a in p + o {
          InReverse(p, a);
          InReverse(o, a);
        }
      }
    }
    if slot.Some? {
      ReturnsLast(start, p, o, slot.value, faults);
    } else {
      assert order == [];
    }
  }

  lemma ReturnsLast(start: HostState, p: seq<Action>, o: seq<Action>, slot: Slot, faults: set<UndoFault>)
    requires o != [] && o[0] == ReturnSlot(slot) && start.held.slot
    requires forall a :: a in p || a in o[1..] ==> !a.ReturnSlot?
    ensures SlotBack(start, PerformedAll(start, Reverse(p) + Reverse(o), faults), slot, faults)
  {
    var first := Reverse(p) + Reverse(o[1..]);
    assert Reverse(p) + Reverse(o) == first + [o[0]];
    forall a | a in first ensures !a.ReturnSlot? {
      InReverse(p, a);
      InReverse(o[1..], a);
    }
    SlotUntouched(start, first, faults);
    PerformedPush(start, first, o[0], faults);
  }

  /** If every function works, a clean-up leaves exactly what the failing stage leaks: nothing, unless the socket could
      not be opened up, the link not replaced, or the process not killed. */
  lemma LeavesTheLeaked(start: HostState, end: HostState, slot: Option<Slot>, stop: nat, killFails: bool, own: OwnEnds)
    requires slot.Some? <==> GET_SLOT < stop
    requires start.held == InUse(stop, killFails, own, {}) && CleanedUp(start, end, slot, stop, {})
    ensures forall r: Resource :: end.held.Has(r) <==> Leaked(r, stop, killFails, own)
    ensures end.held == NOTHING <==>
              && stop != CHMOD_SOCKET
              && (own.process || !(stop == REMOVE_LINK || stop == LINK_DEVICE || (KillsProcess(stop) && killFails)))
  {
    forall r: Resource ensures end.held.Has(r) <==> Leaked(r, stop, killFails, own) {
      assert EndsAsItShould(start, end, r, slot, stop, {});
      UncoveredIsLeaked(r, slot, stop, killFails, own, {});
    }
    HoldingNothing(end.held);
    assert end.held.Has(UffdListener) <==> stop == CHMOD_SOCKET;
    assert end.held.Has(FcProcess) <==> Leaked(FcProcess, stop, killFails, own);
  }

  const ALL_RUN := OwnEnds(false, Runs)

  /** A creation whose link cannot be removed leaves its process running with nothing registered to stop it, while its
      slot goes back. */
  lemma LateStartFailure(newEnvd: bool, slot: Slot)
    ensures StopsAt(REMOVE_LINK, {REMOVE_LINK}, newEnvd, true)
    ensures InUse(REMOVE_LINK, false, ALL_RUN, {}).process
    ensures !Covered(FcProcess, PriorityOf(REMOVE_LINK) + Ordinary(Some(slot), REMOVE_LINK))
    ensures Covered(NetworkSlot, PriorityOf(REMOVE_LINK) + Ordinary(Some(slot), REMOVE_LINK))
  {
    UncoveredIsLeaked(FcProcess, Some(slot), REMOVE_LINK, false, ALL_RUN, {});
    UncoveredIsLeaked(NetworkSlot, Some(slot), REMOVE_LINK, false, ALL_RUN, {});
  }

  lemma HoldingNothing(h: Holding)
    ensures h == NOTHING <==> forall r: Resource :: !h.Has(r)
  {
    if h != NOTHING {
      assert h.Has(NetworkSlot) || h.Has(OverlayDevice) || h.Has(UffdListener) || h.Has(UffdSocket) ||
             h.Has(RootfsLink) || h.Has(FcProcess) || h.Has(DnsRecord);
    }
  }

  // ---- Which clean-ups report an error ------------------------------------------------------

  /** The functions that, when nothing goes wrong with them, never return an error. */
  predicate Quiet(a: Action) {
    !a.StopUffd? && !a.StopProcesses?
  }

  lemma {:induction false} QuietAfter(s: HostState, front: seq<Action>, back: seq<Action>)
    requires forall a :: a in back ==> Quiet(a)
    ensures AnyReports(s, front + back, {}) == AnyReports(s, front, {})
  {
    if back == [] {
      assert front + back == front;
    } else {
      var most, last := back[..|back| - 1], back[|back| - 1];
      QuietAfter(s, front, most);
      assert front + back == (front + most) + [last];
      AnyReportsPush(s, front + most, last, {});
      assert last in back && forall a :: a in most ==> a in back;
    }
  }

  /** The calls up to the one that may report an error last. */
  function Loud(stop: nat): seq<Action> {
    (if BOOT_MACHINE < stop then [StopProcesses] else []) +
    (if INIT_ENVD < stop then [RemoveDns] else []) +
    (if CHMOD_SOCKET < stop then [StopUffd] else [])
  }

  lemma OrderSplits(slot: Option<Slot>, stop: nat) returns (rest: seq<Action>)
    requires slot.Some? <==> GET_SLOT < stop
    ensures Order(slot, stop) == Loud(stop) + rest && forall a :: a in rest ==> Quiet(a)
  {
    var n := if slot.None? then 0 else if Registered(stop) < 3 then Registered(stop) else 3;
    var o := Ordinary(slot, stop);
    rest := Reverse(o[..n]);
    forall a | a in rest ensures Quiet(a) {
      InReverse(o[..n], a);
      assert a in o;
    }
    if slot.Some? {
      ReverseConcat(o[..n], o[n..]);
      assert o == o[..n] + o[n..];
      LateFunctions(slot.value, stop);
    }
  }

  lemma LateFunctions(slot: Slot, stop: nat)
    requires GET_SLOT < stop
    ensures var o := Plan(slot)[..Registered(stop)];
            var n := if |o| < 3 then |o| else 3;
            Reverse(PriorityOf(stop)) + Reverse(o[n..]) == Loud(stop)
  {
    var o := Plan(slot)[..Registered(stop)];
    if |o| == 4 {
      assert o[3..] == [StopUffd];
    } else if |o| == 5 {
      assert o[3..] == [StopUffd, RemoveDns];
      assert o[3..][1..] == [RemoveDns];
      assert Reverse([RemoveDns]) == [RemoveDns];
    }
  }

  lemma LoudReports(s: HostState, stop: nat)
    ensures AnyReports(s, Loud(stop), {}) <==>
              (BOOT_MACHINE < stop && !s.held.process) || (CHMOD_SOCKET < stop && s.StopFails({}))
  {
    var first := if BOOT_MACHINE < stop then [StopProcesses] else [];
    var middle := if INIT_ENVD < stop then [RemoveDns] else [];
    AnyReportsPush(s, [], StopProcesses, {});
    assert [] + [StopProcesses] == [StopProcesses];
    QuietAfter(s, first, middle);
    if CHMOD_SOCKET < stop {
      AnyReportsPush(s, first + middle, StopUffd, {});
      PerformedPush(s, [], StopProcesses, {});
      PerformedPush(s, first, RemoveDns, {});
      assert first + [] == first;
    }
  }

  /** If nothing goes wrong with the functions, a clean-up reports an error exactly if it kills a process that has
      ended by itself, or stops a fault handler that has ended without stopping itself. */
  lemma ReportsOwnEnds(start: HostState, slot: Option<Slot>, stop: nat)
    requires slot.Some? <==> GET_SLOT < stop
    ensures AnyReports(start, Order(slot, stop), {}) <==>
              (BOOT_MACHINE < stop && !start.held.process) || (CHMOD_SOCKET < stop && start.StopFails({}))
  {
    var rest := OrderSplits(slot, stop);
    QuietAfter(start, Loud(stop), rest);
    LoudReports(start, stop);
  }

  /** The create handler: if NewSandbox fails, the clean-up runs at once. `start` is the state NewSandbox left. */
  method Create(host: Host, newEnvd: bool, faults: set<Stage>, killFails: bool, own: OwnEnds, ended: bool)
    returns (cleanup: Stack, slot: Option<Slot>, stop: nat, ghost start: HostState)
    requires host.held == NOTHING && host.stopped == None
    modifies host`held, host`stopped, host.pool`reused, host.pool`newSlots, host.pool`reserved
    ensures fresh(cleanup) && cleanup.Valid() && (cleanup.done <==> stop < DONE)
    ensures StopsAt(stop, faults, newEnvd, slot.Some?) && (slot.Some? <==> GET_SLOT < stop)
    ensures faults == {} && (old(host.pool.reused) != [] || (!ended && old(host.pool.newSlots) != [])) ==> stop == DONE
    ensures start.held == InUse(stop, killFails, own, host.faults)
    ensures stop < DONE ==> CleanedUp(start, host.State(), slot, stop, host.faults)
    ensures stop < DONE ==> Actions(cleanup.log) == Order(slot, stop)
    ensures stop < DONE && host.faults == {} ==>
              (cleanup.error == None <==>
                 && (stop == INIT_ENVD ==> !own.process)
                 && (CHMOD_SOCKET < stop ==> !own.handler.EndsAlone?))
    ensures stop == DONE ==> host.State() == start && Planned(cleanup, slot, stop)
  {
    cleanup, slot, stop := NewSandbox(host, newEnvd, faults, killFails, own, ended);
    start := host.State();
    if stop < DONE {
      RunCleansUp(start, slot, stop, host.faults);
      ReportsOwnEnds(start, slot, stop);
      var _ := cleanup.Run(host);
    }
  }

  /** A delete, the exit goroutine's wait and its clean-up: three runs of the clean-up, in whatever order. */
  method RunThrice(host: Host, cleanup: Stack)
    returns (stopErr: Option<seq<Error>>, waitErr: Option<seq<Error>>, runErr: Option<seq<Error>>)
    requires cleanup.Valid() && !cleanup.done
    modifies cleanup`log, cleanup`error, cleanup`done, host`held, host`stopped, host.pool`reused, host.pool`reserved
    ensures Actions(cleanup.log) == Reverse(cleanup.priorityCleanup) + Reverse(cleanup.cleanup)
    ensures host.State() == PerformedAll(old(host.State()), Actions(cleanup.log), host.faults)
    ensures stopErr == waitErr == runErr == Join(Errors(cleanup.log))
    ensures stopErr == None <==> !AnyReports(old(host.State()), Actions(cleanup.log), host.faults)
  {
    stopErr := cleanup.Run(host);
    waitErr := cleanup.Run(host);
    runErr := cleanup.Run(host);
  }

  /** The end of a running sandbox, whose process or fault handler may end by itself first: a delete stops it, the exit
      goroutine stops it again after its wait and then runs the clean-up a third time. Only the first has any effect,
      and all report its error. `start` is the state it finds. */
  method End(host: Host, cleanup: Stack, slot: Slot, own: OwnEnds)
    returns (stopErr: Option<seq<Error>>, waitErr: Option<seq<Error>>, runErr: Option<seq<Error>>, ghost start: HostState)
    requires host.held.slot && Planned(cleanup, Some(slot), DONE) && cleanup.Valid() && !cleanup.done
    modifies cleanup`log, cleanup`error, cleanup`done, host`held, host`stopped, host.pool`reused, host.pool`reserved
    ensures start == Expired(old(host.State()), own, host.faults)
    ensures CleanedUp(start, host.State(), Some(slot), DONE, host.faults)
    ensures Actions(cleanup.log) == Order(Some(slot), DONE)
    ensures stopErr == waitErr == runErr == Join(Errors(cleanup.log))
    ensures host.faults == {} ==> (stopErr == None <==> start.held.process && !start.StopFails({}))
  {
    host.Expire(own);
    start := host.State();
    RunCleansUp(start, Some(slot), DONE, host.faults);
    ReportsOwnEnds(start, Some(slot), DONE);
    stopErr, waitErr, runErr := RunThrice(host, cleanup);
  }
}
