/** Properties of every reachable bus state, proved over whole runs. */
module BusProperties {
  import opened BusTypes
  import opened Options
  import opened BusSpec
  import opened BusRuns

  /** The serial number of slot i. */
  function SerialOf(i: nat): nat
    requires i < SLOTS
  {
    if i == 0 then BT else if i == 1 then WLAN else GPS
  }

  /** Bus_openInterface registers at the first try or frees the block. */
  lemma OpenEffect(st: State, p: Addr, serial: nat, cb: Callbacks)
    requires WellFormed(st) && p != 0 && p in st.mem
    ensures var o := OpenInterface(st, p, serial, cb);
            var r := Register(Prepared(st, p, serial), p, cb);
            if r.status == Success then o == r
            else o.st == st.(mem := st.mem - {p}) && o.events == [] && o.status == r.status
  {
    FailedRegisterChangesNothing(Prepared(st, p, serial), p, cb);
    assert Prepared(st, p, serial).mem - {p} == st.mem - {p};
  }

  // ---------- the card is in iff something is registered ----------

  /** The driver's three notions of "a card is present" coincide, registered interfaces carry
      their slot's serial number, nobody ever occupies the GPS slot, and so DISPLAY_IN_USE,
      whenever it is answered at all, says BT, WLAN, both or none started - never "no card". */
  lemma CardPresence(steps: seq<Step>, i: nat)
    requires i < SLOTS
    ensures var st := RunFrom(Start(), steps).st;
            && (st.pnp == Started <==> AnyOccupied(st))
            && (st.power == PowerWirlessOn <==> AnyOccupied(st))
            && st.slots[2].intf == 0
            && (st.slots[i].intf != 0 ==>
                  st.slots[i].intf in st.mem && st.mem[st.slots[i].intf].serialNo == st.slots[i].serialNo)
            && (PassesGate(st, DisplayInUse) <==> InUse(st) != NO_CARD)
            && (InUse(st) != NO_CARD ==> InUse(st) in {BT, WLAN, BT + WLAN, NONE_STARTED})
  {
    var w := RunFrom(Start(), steps);
    assert Inv(w.st);
  }

  /** READ_ENUM_MODE tells the same as DISPLAY_IN_USE once a device is open; otherwise it is 0
      or all ones. What WRITE_ENUM_MODE stored last does not matter. */
  lemma EnumModeAgrees(steps: seq<Step>, mode: nat)
    ensures var st := RunFrom(Start(), steps).st;
            && (StartedBits(st) != 0 ==> EnumAnswer(st) == InUse(st) && 1 <= EnumAnswer(st) <= 3)
            && (StartedBits(st) == 0 ==> EnumAnswer(st) == 0 || EnumAnswer(st) == 0xFFFFFFFF)
            && EnumAnswer(st.(enumMode := mode)) == EnumAnswer(st)
  {
    var w := RunFrom(Start(), steps);
    assert Inv(w.st);
    var st' := w.st.(enumMode := mode);
    assert forall i :: 0 <= i < SLOTS ==>
                         StartedAt(st', i) == StartedAt(w.st, i) && Untouched(st', i) == Untouched(w.st, i);
  }

  // ---------- callbacks ----------

  /** Leaving the bus calls close exactly when the device is open. */
  lemma CloseOnUnregister(st: State, p: Addr, cb: Callbacks)
    requires Inv(st) && PhaseIn(st, p).In?
    ensures p in st.mem
    ensures (exists ret :: Closed(p, ret) in Unregister(st, p, cb).events) <==> PhaseIn(st, p) == In(Started)
  {
    OwnSlot(st, p);
    var o := Unregister(st, p, cb);
    if PhaseIn(st, p) == In(Started) {
      assert o.events[0] == Closed(p, cb.close(st.mem[p].serialNo));
    }
  }

  /** Slot i holds a device that an unplug request for serial is about. */
  predicate Targets(st: State, serial: nat, i: nat)
    requires |st.slots| == SLOTS && i < SLOTS
  {
    if serial == 0 then st.slots[i].intf != 0 else FindPdo(st, Masked(serial)) == Some(i)
  }

  /** Unplugging one slot leaves the others, and their interfaces, as they are. */
  lemma UnplugElsewhere(st: State, j: nat, cb: Callbacks, i: nat)
    requires Inv(st) && j < SLOTS && i < SLOTS && i != j
    ensures var r := UnplugSlot(st, j, cb).st;
            && r.slots[i] == st.slots[i]
            && (st.slots[i].intf != 0 ==> r.mem[st.slots[i].intf] == st.mem[st.slots[i].intf])
            && UnplugSlot(r, i, cb).events == UnplugSlot(st, i, cb).events
  {
  }

  /** The close calls of an unplug request are those of its targets, one slot after the other. */
  lemma UnplugEvents(st: State, serial: nat, cb: Callbacks)
    requires Inv(st)
    ensures var bt, wlan := UnplugSlot(st, 0, cb).events, UnplugSlot(st, 1, cb).events;
            UnPlug(st, serial, cb).events
            == (if Targets(st, serial, 0) then bt else []) + (if Targets(st, serial, 1) then wlan else [])
  {
    if serial == 0 {
      var s1 := UnplugSlot(st, 0, cb).st;
      var s2 := UnplugSlot(s1, 1, cb).st;
      UnplugElsewhere(st, 0, cb, 1);
      assert s2.slots[2].intf == s1.slots[2].intf == st.slots[2].intf == 0;
      assert UnplugFrom(s2, 2, cb).events == [];
      assert UnplugFrom(s1, 1, cb).events == UnplugSlot(st, 1, cb).events;
    }
  }

  /** A device can be closed twice: unplugging, one device or all, calls close again on a device
      that is already stopped. It happens exactly for registered devices in state Stopped. */
  lemma RepeatedClose(st: State, serial: nat, cb: Callbacks)
    requires Inv(st)
    ensures (exists i :: 0 <= i < SLOTS && Targets(st, serial, i) && PhaseIn(st, st.slots[i].intf) == In(Stopped))
            <==> (exists p, ret :: Closed(p, ret) in UnPlug(st, serial, cb).events && PhaseIn(st, p) == In(Stopped))
  {
    forall i | 0 <= i < SLOTS && Targets(st, serial, i) && PhaseIn(st, st.slots[i].intf) == In(Stopped)
      ensures exists p, ret :: Closed(p, ret) in UnPlug(st, serial, cb).events && PhaseIn(st, p) == In(Stopped)
    {
      StoppedIsClosed(st, serial, cb, i);
    }
    forall p, ret | Closed(p, ret) in UnPlug(st, serial, cb).events
      ensures exists i :: 0 <= i < SLOTS && Targets(st, serial, i) && st.slots[i].intf == p
    {
      var i := ClosedIsTarget(st, serial, cb, p, ret);
    }
  }

  lemma StoppedIsClosed(st: State, serial: nat, cb: Callbacks, i: nat)
    requires Inv(st) && i < SLOTS && Targets(st, serial, i) && PhaseIn(st, st.slots[i].intf) == In(Stopped)
    ensures Closed(st.slots[i].intf, cb.close(st.slots[i].serialNo)) in UnPlug(st, serial, cb).events
  {
    UnplugEvents(st, serial, cb);
    var e := Closed(st.slots[i].intf, cb.close(st.slots[i].serialNo));
    assert UnplugSlot(st, i, cb).events == [e];
  }

  lemma ClosedIsTarget(st: State, serial: nat, cb: Callbacks, p: Addr, ret: int) returns (i: nat)
    requires Inv(st) && Closed(p, ret) in UnPlug(st, serial, cb).events
    ensures i < SLOTS && Targets(st, serial, i) && st.slots[i].intf == p
  {
    UnplugEvents(st, serial, cb);
    i := if Targets(st, serial, 0) && Closed(p, ret) in UnplugSlot(st, 0, cb).events then 0 else 1;
    assert Closed(p, ret) in UnplugSlot(st, i, cb).events;
  }

  // ---------- a bus with one device up ----------

  /** A driver for serial is probed, and its device is plugged in. */
  function OneDevice(serial: nat, cb: Callbacks): seq<Step>
  {
    [Step(Alloc(1), cb), Step(Op.Open(1, serial), cb), Step(Ctl(PlugInHardware(serial)), cb)]
  }

  lemma OneMore(steps: seq<Step>, s: Step)
    ensures RunFrom(Start(), steps + [s]) == StepFrom(RunFrom(Start(), steps), s)
  {
    assert (steps + [s])[..|steps|] == steps;
  }

  /** Block 1 is registered in slot i, its device is in state d, and no other driver is there. */
  ghost predicate OnlyDevice(st: State, i: nat, d: PnpState)
    requires WellFormed(st)
  {
    && i < 2 && st.slots[i].intf == 1 && st.slots[1 - i].intf == 0 && st.slots[2].intf == 0
    && st.mem[1].devstate == d && st.pnp == Started
  }

  lemma ProbeAlone(st: State, i: nat, cb: Callbacks)
    requires WellFormed(st) && i < 2 && st.slots == InitialState().slots && 1 in st.mem
    ensures var o := OpenInterface(st, 1, SerialOf(i), cb); WellFormed(o.st) && OnlyDevice(o.st, i, NotStarted)
  {
    OpenEffect(st, 1, SerialOf(i), cb);
  }

  lemma PlugInAlone(st: State, i: nat, cb: Callbacks)
    requires WellFormed(st) && OnlyDevice(st, i, NotStarted) && cb.open(SerialOf(i)) == 0
    ensures OnlyDevice(PlugIn(st, SerialOf(i), cb).st, i, Started)
  {
  }

  lemma UnplugAlone(st: State, cb: Callbacks)
    requires WellFormed(st) && OnlyDevice(st, 0, Started) && cb.close(BT) == 0
    ensures OnlyDevice(UnPlug(st, BT, cb).st, 0, Stopped)
  {
  }

  lemma OneDeviceUp(i: nat, cb: Callbacks)
    requires i < 2 && cb.open(SerialOf(i)) == 0
    ensures OnlyDevice(RunFrom(Start(), OneDevice(SerialOf(i), cb)).st, i, Started)
  {
    var serial := SerialOf(i);
    var a, b, c := Step(Alloc(1), cb), Step(Op.Open(1, serial), cb), Step(Ctl(PlugInHardware(serial)), cb);
    OneMore([], a);
    OneMore([] + [a], b);
    OneMore([] + [a] + [b], c);
    assert [] + [a] + [b] + [c] == OneDevice(serial, cb);
    ProbeAlone(RunFrom(Start(), [] + [a]).st, i, cb);
    PlugInAlone(RunFrom(Start(), [] + [a] + [b]).st, i, cb);
  }

  function StoppedOnce(cb: Callbacks): seq<Step> { OneDevice(BT, cb) + [Step(Ctl(UnPlugHardware(BT)), cb)] }

  lemma StoppedOnceState(cb: Callbacks)
    requires cb.open(BT) == 0 && cb.close(BT) == 0
    ensures OnlyDevice(RunFrom(Start(), StoppedOnce(cb)).st, 0, Stopped)
  {
    OneDeviceUp(0, cb);
    OneMore(OneDevice(BT, cb), Step(Ctl(UnPlugHardware(BT)), cb));
    UnplugAlone(RunFrom(Start(), OneDevice(BT, cb)).st, cb);
  }

  lemma ClosedAgain(st: State, serial: nat, cb: Callbacks)
    requires Inv(st) && (serial == 0 || serial == BT)
    requires OnlyDevice(st, 0, Stopped)
    ensures UnPlug(st, serial, cb).events == [Closed(1, cb.close(BT))]
  {
    UnplugEvents(st, serial, cb);
    assert UnplugSlot(st, 0, cb).events == [Closed(1, cb.close(BT))];
    assert UnplugSlot(st, 1, cb).events == [];
  }

  /** It does happen: unplugging a device twice calls its close callback twice. */
  lemma RepeatedCloseHappens(cb: Callbacks, serial: nat)
    requires cb.open(BT) == 0 && cb.close(BT) == 0 && (serial == 0 || serial == BT)
    ensures var st := RunFrom(Start(), StoppedOnce(cb)).st;
            PhaseIn(st, 1) == In(Stopped) && UnPlug(st, serial, cb).events == [Closed(1, 0)]
  {
    StoppedOnceState(cb);
    ClosedAgain(RunFrom(Start(), StoppedOnce(cb)).st, serial, cb);
  }

  // ---------- what the user wanted survives re-insertion ----------

  /** No driver for slot i, and a recorded wish to have the device running. */
  ghost predicate AwaitsReturn(st: State, i: nat)
    requires WellFormed(st) && i < SLOTS
  {
    st.slots[i].intf == 0 && (st.slots[i].oldFromWb == Started || st.slots[i].oldFromWb == StartWithOS)
  }

  ghost predicate OpensSerial(s: Step, serial: nat) { s.op.Open? && s.op.serial == serial }

  lemma {:induction false} HotkeyWanted(st: State, i: nat, v: nat, k: nat)
    requires WellFormed(st) && i <= SLOTS && k < SLOTS
    ensures var r := HotkeyFrom(st, i, v);
            && r.slots[k].intf == st.slots[k].intf
            && r.slots[k].oldFromWb == (if i <= k then StartWithOS else st.slots[k].oldFromWb)
    decreases SLOTS - i
  {
    if i < SLOTS { HotkeyWanted(HotkeyAt(st, i, v), i + 1, v, k); }
  }

  lemma {:induction false} AntennaWanted(st: State, i: nat, v: nat, k: nat)
    requires WellFormed(st) && i <= SLOTS && k < SLOTS
    ensures var r := AntennaFrom(st, i, v);
            r.slots[k].intf == st.slots[k].intf && r.slots[k].oldFromWb == st.slots[k].oldFromWb
    decreases SLOTS - i
  {
    if i < SLOTS { AntennaWanted(AntennaAt(st, i, v), i + 1, v, k); }
  }

  lemma {:induction false} UnplugLeavesEmpty(st: State, i: nat, cb: Callbacks, k: nat)
    requires WellFormed(st) && i <= SLOTS && k < SLOTS && st.slots[k].intf == 0
    ensures UnplugFrom(st, i, cb).st.slots[k] == st.slots[k]
    decreases SLOTS - i
  {
    if i < SLOTS { UnplugLeavesEmpty(UnplugSlot(st, i, cb).st, i + 1, cb, k); }
  }

  lemma AwaitingOpen(st: State, p: Addr, serial: nat, cb: Callbacks, i: nat)
    requires Inv(st) && i < SLOTS && AwaitsReturn(st, i) && serial != SerialOf(i)
    requires p != 0 && p in st.mem && PhaseIn(st, p) == Out
    ensures OpenInterface(st, p, serial, cb).st.slots[i] == st.slots[i]
  {
    OpenEffect(st, p, serial, cb);
  }

  lemma AwaitingUnPlug(st: State, serial: nat, cb: Callbacks, i: nat)
    requires Inv(st) && i < SLOTS && AwaitsReturn(st, i)
    ensures AwaitsReturn(UnPlug(st, serial, cb).st, i)
  {
    UnplugLeavesEmpty(st, 0, cb, i);
  }

  lemma AwaitingIoctl(st: State, cmd: Cmd, cb: Callbacks, i: nat)
    requires Inv(st) && i < SLOTS && AwaitsReturn(st, i)
    ensures AwaitsReturn(Ioctl(st, cmd, cb).st, i)
  {
    match cmd
    case SetHotkey(v) => HotkeyWanted(st, 0, v, i);
    case SetAntenna(v) => AntennaWanted(st, 0, v, i);
    case UnPlugHardware(serial) => AwaitingUnPlug(st, serial, cb, i);
    case _ =>
  }

  lemma AwaitingStep(w: World, s: Step, i: nat)
    requires Sound(w) && i < SLOTS && AwaitsReturn(w.st, i) && !OpensSerial(s, SerialOf(i))
    ensures AwaitsReturn(StepFrom(w, s).st, i)
  {
    PerformKeeps(w, s);
    match s.op
    case Alloc(p) =>
    case Open(p, serial) =>
      if p in w.st.mem && PhaseIn(w.st, p) == Out { AwaitingOpen(w.st, p, serial, s.cb, i); }
    case Close(p) =>
    case Ctl(cmd) => AwaitingIoctl(w.st, cmd, s.cb, i);
  }

  lemma {:induction false} AwaitingRun(w: World, steps: seq<Step>, i: nat)
    requires Sound(w) && i < SLOTS && AwaitsReturn(w.st, i)
    requires forall s :: s in steps ==> !OpensSerial(s, SerialOf(i))
    ensures AwaitsReturn(RunFrom(w, steps).st, i)
    decreases |steps|
  {
    if steps != [] {
      var n := |steps| - 1;
      AwaitingRun(w, steps[..n], i);
      AwaitingStep(RunFrom(w, steps[..n]), steps[n], i);
    }
  }

  lemma PullLeavesAwaiting(w: World, i: nat, cb: Callbacks)
    requires Sound(w) && i < SLOTS && StartedAt(w.st, i)
    ensures AwaitsReturn(StepFrom(w, Step(Close(w.st.slots[i].intf), cb)).st, i)
  {
    var p := w.st.slots[i].intf;
    CloseKeeps(w, p, cb);
    assert SlotOk(w.st, i);
  }

  lemma ReturnOpens(st: State, q: Addr, i: nat, cb: Callbacks)
    requires Inv(st) && i < 2 && AwaitsReturn(st, i)
    requires q != 0 && q in st.mem && PhaseIn(st, q) == Out
    ensures OpenInterface(st, q, SerialOf(i), cb).events == [Registered(q), Opened(q, cb.open(SerialOf(i)))]
  {
    OpenEffect(st, q, SerialOf(i), cb);
  }

  /** A card pulled while its device is open comes back open: whatever happens in between, the
      next driver that registers with that serial number has its open callback called. */
  lemma ReinsertionReopens(w: World, i: nat, cb: Callbacks, between: seq<Step>, q: Addr, cb': Callbacks)
    requires Sound(w) && i < SLOTS && StartedAt(w.st, i)
    requires forall s :: s in between ==> !OpensSerial(s, SerialOf(i))
    ensures var there := RunFrom(StepFrom(w, Step(Close(w.st.slots[i].intf), cb)), between);
            q in there.st.mem && PhaseIn(there.st, q) == Out ==>
              Perform(there.st, Step(Open(q, SerialOf(i)), cb')).events
                == [Registered(q), Opened(q, cb'.open(SerialOf(i)))]
  {
    PullLeavesAwaiting(w, i, cb);
    var gone := StepFrom(w, Step(Close(w.st.slots[i].intf), cb));
    AwaitingRun(gone, between, i);
    var there := RunFrom(gone, between);
    if q in there.st.mem && PhaseIn(there.st, q) == Out { ReturnOpens(there.st, q, i, cb'); }
  }

  /** Slot i is down on the user's request. */
  ghost predicate Down(st: State, i: nat)
    requires WellFormed(st) && i < SLOTS
  {
    st.slots[i].oldFromWb == Stopped && !StartedAt(st, i)
  }

  /** A plug-in request for the device. */
  ghost predicate Tries(s: Step, serial: nat)
  {
    s.op.Ctl? && s.op.cmd.PlugInHardware? && Masked(s.op.cmd.serial) == serial
  }

  /** What may bring a device up again: a hotkey set, or a plug-in whose open callback returns 0. */
  ghost predicate WakesUp(s: Step, serial: nat)
  {
    (s.op.Ctl? && s.op.cmd.SetHotkey?) || (Tries(s, serial) && s.cb.open(serial) == 0)
  }

  /** The outcome called the open callback of the device in slot i. */
  ghost predicate OpenedIn(o: Outcome, i: nat)
    requires i < |o.st.slots|
  {
    exists k :: 0 <= k < |o.events| && o.events[k].Opened? && o.events[k].p == o.st.slots[i].intf
  }

  lemma {:induction false} DownThroughUnplug(w: World, j: nat, cb: Callbacks, i: nat)
    requires Sound(w) && j <= SLOTS && i < SLOTS && Down(w.st, i)
    ensures var o := UnplugFrom(w.st, j, cb);
            Down(o.st, i) && forall k :: 0 <= k < |o.events| ==> o.events[k].Closed?
    decreases SLOTS - j
  {
    if j < SLOTS {
      var o := UnplugSlot(w.st, j, cb);
      UnplugSlotKeeps(w, j, cb);
      DownThroughUnplug(World(o.st, w.trace + o.events), j + 1, cb, i);
    }
  }

  lemma {:induction false} DownThroughAntenna(w: World, j: nat, v: nat, i: nat)
    requires Sound(w) && j <= SLOTS && i < SLOTS && Down(w.st, i)
    ensures Down(AntennaFrom(w.st, j, v), i)
    decreases SLOTS - j
  {
    if j < SLOTS {
      NoEvent(w.st, w.trace, AntennaAt(w.st, j, v));
      assert w.trace + [] == w.trace;
      DownThroughAntenna(World(AntennaAt(w.st, j, v), w.trace), j + 1, v, i);
    }
  }

  lemma DownRegister(st: State, p: Addr, cb: Callbacks, i: nat)
    requires Inv(st) && i < SLOTS && Down(st, i)
    requires p != 0 && p in st.mem && PhaseIn(st, p) == Out
    ensures var o := Register(st, p, cb); Down(o.st, i) && !OpenedIn(o, i)
  {
    var o := Register(st, p, cb);
    if o.status == Success {
      var j := SlotOf(st.mem[p].serialNo).value;
      if j == i {
        assert o.events == [Registered(p)];
      } else {
        assert st.slots[i].intf != p;
      }
    }
  }

  lemma DownOpen(st: State, p: Addr, serial: nat, cb: Callbacks, i: nat)
    requires Inv(st) && i < SLOTS && Down(st, i)
    requires p != 0 && p in st.mem && PhaseIn(st, p) == Out
    ensures var o := OpenInterface(st, p, serial, cb);
            |o.st.slots| == SLOTS && WellFormed(o.st) && Down(o.st, i) && !OpenedIn(o, i)
  {
    OpenEffect(st, p, serial, cb);
    assert forall j :: 0 <= j < SLOTS ==> st.slots[j].intf != p;
    var st1 := Prepared(st, p, serial);
    assert Inv(st1) && Down(st1, i);
    DownRegister(st1, p, cb, i);
  }

  lemma DownClose(st: State, p: Addr, cb: Callbacks, i: nat)
    requires Inv(st) && i < SLOTS && Down(st, i) && p in st.mem
    requires WellFormed(CloseInterface(st, p, cb).st)
    ensures var o := CloseInterface(st, p, cb); Down(o.st, i) && !OpenedIn(o, i)
  {
  }

  lemma DownPlugIn(st: State, serial: nat, cb: Callbacks, i: nat)
    requires Inv(st) && i < SLOTS && Down(st, i)
    requires Masked(serial) == SerialOf(i) ==> cb.open(SerialOf(i)) != 0
    ensures var o := PlugIn(st, serial, cb); Down(o.st, i) && (OpenedIn(o, i) ==> Masked(serial) == SerialOf(i))
  {
  }

  lemma DownUnplugSlot(st: State, j: nat, cb: Callbacks, i: nat)
    requires Inv(st) && j < SLOTS && i < SLOTS && Down(st, i)
    ensures var o := UnplugSlot(st, j, cb); Down(o.st, i) && !OpenedIn(o, i)
  {
  }

  lemma DownUnPlug(w: World, serial: nat, cb: Callbacks, i: nat)
    requires Sound(w) && i < SLOTS && Down(w.st, i)
    ensures var o := UnPlug(w.st, serial, cb); Down(o.st, i) && !OpenedIn(o, i)
  {
    if serial == 0 {
      DownThroughUnplug(w, 0, cb, i);
    } else {
      match FindPdo(w.st, Masked(serial))
      case None =>
      case Some(j) => DownUnplugSlot(w.st, j, cb, i);
    }
  }

  lemma DownIoctl(w: World, cmd: Cmd, cb: Callbacks, i: nat)
    requires Sound(w) && i < SLOTS && Down(w.st, i) && !WakesUp(Step(Ctl(cmd), cb), SerialOf(i))
    ensures var o := Ioctl(w.st, cmd, cb); Down(o.st, i) && (OpenedIn(o, i) ==> Tries(Step(Ctl(cmd), cb), SerialOf(i)))
  {
    match cmd
    case PlugInHardware(serial) => DownPlugIn(w.st, serial, cb, i);
    case UnPlugHardware(serial) => DownUnPlug(w, serial, cb, i);
    case SetAntenna(v) => DownThroughAntenna(w, 0, v, i);
    case SetHotkey(v) => assert false;
    case _ =>
      var o := Ioctl(w.st, cmd, cb);
      assert o.events == [] && o.st.slots == w.st.slots && o.st.mem == w.st.mem;
  }

  lemma DownStep(w: World, s: Step, i: nat)
    requires Sound(w) && i < SLOTS && Down(w.st, i) && !WakesUp(s, SerialOf(i))
    ensures Down(StepFrom(w, s).st, i)
    ensures |Perform(w.st, s).st.slots| == SLOTS && (OpenedIn(Perform(w.st, s), i) ==> Tries(s, SerialOf(i)))
  {
    PerformKeeps(w, s);
    match s.op
    case Alloc(p) =>
    case Open(p, serial) =>
      if p in w.st.mem && PhaseIn(w.st, p) == Out { DownOpen(w.st, p, serial, s.cb, i); }
    case Close(p) =>
      if p in w.st.mem { DownClose(w.st, p, s.cb, i); }
    case Ctl(cmd) => DownIoctl(w, cmd, s.cb, i);
  }

  /** No step of the run calls the open callback of the device in slot i, but for plug-in requests that name it. */
  ghost predicate NeverOpens(w: World, steps: seq<Step>, i: nat)
    requires Sound(w) && i < SLOTS
    decreases |steps|
  {
    steps == [] ||
    var n := |steps| - 1;
    var before := RunFrom(w, steps[..n]);
    NeverOpens(w, steps[..n], i)
    && |Perform(before.st, steps[n]).st.slots| == SLOTS
    && (OpenedIn(Perform(before.st, steps[n]), i) ==> Tries(steps[n], SerialOf(i)))
  }

  /** A device the user unplugged stays closed - its open callback is not even called, and
      re-registering its driver does not open it - until the hotkey flag is set or someone plugs that
      device in. A plug-in whose open callback fails changes nothing about that, and requests for
      other slots make no difference. */
  lemma {:induction false} UnpluggedStaysDown(w: World, steps: seq<Step>, i: nat)
    requires Sound(w) && i < SLOTS && Down(w.st, i)
    requires forall s :: s in steps ==> !WakesUp(s, SerialOf(i))
    ensures Down(RunFrom(w, steps).st, i) && NeverOpens(w, steps, i)
    decreases |steps|
  {
    if steps != [] {
      var n := |steps| - 1;
      UnpluggedStaysDown(w, steps[..n], i);
      DownStep(RunFrom(w, steps[..n]), steps[n], i);
    }
  }

  /** A successful unplug of slot i is what brings it down. */
  lemma UnplugBringsDown(st: State, i: nat, cb: Callbacks)
    requires Inv(st) && i < SLOTS
    ensures (exists p :: Closed(p, 0) in UnplugSlot(st, i, cb).events) ==> Down(UnplugSlot(st, i, cb).st, i)
  {
  }

  /** The same for the request that unplugs everything: slot i is closed in its turn and not
      touched before or after. */
  lemma UnplugAllBringsDown(w: World, i: nat, cb: Callbacks)
    requires Sound(w) && i < 2 && Closed(w.st.slots[i].intf, 0) in UnplugSlot(w.st, i, cb).events
    ensures Down(UnPlug(w.st, 0, cb).st, i)
  {
    var o := UnplugSlot(w.st, 0, cb);
    var w1 := World(o.st, w.trace + o.events);
    UnplugSlotKeeps(w, 0, cb);
    if i == 0 {
      UnplugBringsDown(w.st, 0, cb);
      DownThroughUnplug(w1, 1, cb, 0);
    } else {
      UnplugElsewhere(w.st, 0, cb, 1);
      UnplugBringsDown(w1.st, 1, cb);
      var o1 := UnplugSlot(w1.st, 1, cb);
      UnplugSlotKeeps(w1, 1, cb);
      DownThroughUnplug(World(o1.st, w1.trace + o1.events), 2, cb, 1);
    }
  }

  /** An unplug request in whose course the close callback of a device returned 0 - whether it named that
      device or all of them - keeps the device down: no later step but a plug-in request for it
      calls its open callback, until such a call returns 0 or the hotkey flag is set. */
  lemma UnplugKeepsDown(w: World, serial: nat, cb: Callbacks, i: nat, later: seq<Step>)
    requires Sound(w) && i < SLOTS && w.st.slots[i].intf != 0
    requires Closed(w.st.slots[i].intf, 0) in Ioctl(w.st, UnPlugHardware(serial), cb).events
    requires forall s :: s in later ==> !WakesUp(s, SerialOf(i))
    ensures var unplugged := StepFrom(w, Step(Ctl(UnPlugHardware(serial)), cb));
            NeverOpens(unplugged, later, i) && !StartedAt(RunFrom(unplugged, later).st, i)
  {
    var unplugged := StepFrom(w, Step(Ctl(UnPlugHardware(serial)), cb));
    var e := Closed(w.st.slots[i].intf, 0);
    UnplugEvents(w.st, serial, cb);
    assert e in UnplugSlot(w.st, i, cb).events && Targets(w.st, serial, i);
    if serial == 0 { UnplugAllBringsDown(w, i, cb); } else { UnplugBringsDown(w.st, i, cb); }
    assert Down(unplugged.st, i);
    UnpluggedStaysDown(unplugged, later, i);
  }

  // ---------- flags ----------

  function LastHotkey(steps: seq<Step>): nat
  {
    if steps == [] then 0
    else var last := steps[|steps| - 1].op;
         if last.Ctl? && last.cmd.SetHotkey? then last.cmd.value else LastHotkey(steps[..|steps| - 1])
  }

  function LastAntenna(steps: seq<Step>): nat
  {
    if steps == [] then 0
    else var last := steps[|steps| - 1].op;
         if last.Ctl? && last.cmd.SetAntenna? then last.cmd.value else LastAntenna(steps[..|steps| - 1])
  }

  /** Slot i keeps hotkey h and antenna a, and its interface shows them; the Bluetooth interface
      keeps whatever antenna bits it registered with. */
  ghost predicate FlagsOk(st: State, i: nat, h: nat, a: nat)
    requires WellFormed(st) && i < SLOTS
  {
    && st.slots[i].hotKey == h && st.slots[i].antenna == a
    && (st.slots[i].intf != 0 ==>
          var f := st.mem[st.slots[i].intf].paraFlag;
          f < 8 && f % 2 == h && (i == 1 ==> f / 2 % 4 == a))
  }

  ghost predicate AllFlagsOk(st: State, h: nat, a: nat)
    requires WellFormed(st)
  {
    FlagsOk(st, 0, h, a) && FlagsOk(st, 1, h, a) && FlagsOk(st, 2, h, a)
  }

  lemma OrOfFlags(h: nat, a: nat)
    requires h < 2 && a < 4
    ensures Or(h, 2 * a) == h + 2 * a
  {
    assert Or(0, a) == a;
  }

  lemma HotkeyBits(f: nat, v: nat)
    requires f < 8
    ensures HotkeyFlag(f, v) == 2 * (f / 2) + v % 2
  {
    assert f - f % 2 == 2 * (f / 2);
    assert Or(f / 2, 0) == f / 2;
  }

  lemma AntennaBits(f: nat, v: nat)
    requires f < 8
    ensures AntennaFlag(f, v) == f % 2 + 2 * (v % 4)
  {
    assert f - 2 * (f / 2 % 4) == f % 2;
    OrOfFlags(f % 2, v % 4);
  }

  lemma HotkeyAtFlags(st: State, i: nat, v: nat, h: nat, a: nat, j: nat)
    requires Inv(st) && i < SLOTS && j < SLOTS && FlagsOk(st, j, h, a)
    ensures FlagsOk(HotkeyAt(st, i, v), j, if i == j then v % 2 else h, a)
  {
    if st.slots[i].intf != 0 && i == j { HotkeyBits(st.mem[st.slots[i].intf].paraFlag, v); }
  }

  lemma AntennaElsewhere(st: State, i: nat, v: nat, j: nat)
    requires Inv(st) && i < SLOTS && j < SLOTS && i != j
    ensures var r := AntennaAt(st, i, v);
            r.slots[j] == st.slots[j]
            && (st.slots[j].intf != 0 ==> r.mem[st.slots[j].intf] == st.mem[st.slots[j].intf])
  {
  }

  lemma AntennaAtFlags(st: State, i: nat, v: nat, h: nat, a: nat, j: nat)
    requires Inv(st) && i < SLOTS && j < SLOTS && FlagsOk(st, j, h, a)
    ensures FlagsOk(AntennaAt(st, i, v), j, h, if i == j then v % 4 else a)
  {
    if i != j {
      AntennaElsewhere(st, i, v, j);
    } else if st.slots[i].intf != 0 {
      AntennaBits(st.mem[st.slots[i].intf].paraFlag, v);
    }
  }

  lemma HotkeyFlags(st: State, v: nat, h: nat, a: nat, j: nat)
    requires Inv(st) && j < SLOTS && FlagsOk(st, j, h, a)
    ensures FlagsOk(HotkeyFrom(st, 0, v), j, v % 2, a)
  {
    var s1 := HotkeyAt(st, 0, v);
    var s2 := HotkeyAt(s1, 1, v);
    HotkeyAtFlags(st, 0, v, h, a, j);
    HotkeyAtFlags(s1, 1, v, if j < 1 then v % 2 else h, a, j);
    HotkeyAtFlags(s2, 2, v, if j < 2 then v % 2 else h, a, j);
    assert HotkeyFrom(st, 0, v) == HotkeyFrom(s1, 1, v) == HotkeyFrom(s2, 2, v) == HotkeyAt(s2, 2, v);
  }

  lemma AntennaFlags(st: State, v: nat, h: nat, a: nat, j: nat)
    requires Inv(st) && j < SLOTS && FlagsOk(st, j, h, a)
    ensures FlagsOk(AntennaFrom(st, 0, v), j, h, v % 4)
  {
    var s1 := AntennaAt(st, 0, v);
    var s2 := AntennaAt(s1, 1, v);
    AntennaAtFlags(st, 0, v, h, a, j);
    AntennaAtFlags(s1, 1, v, h, if j < 1 then v % 4 else a, j);
    AntennaAtFlags(s2, 2, v, h, if j < 2 then v % 4 else a, j);
    assert AntennaFrom(st, 0, v) == AntennaFrom(s1, 1, v) == AntennaFrom(s2, 2, v) == AntennaAt(s2, 2, v);
  }

  lemma {:induction false} UnplugFlags(w: World, i: nat, cb: Callbacks, h: nat, a: nat)
    requires Sound(w) && i <= SLOTS && AllFlagsOk(w.st, h, a)
    ensures AllFlagsOk(UnplugFrom(w.st, i, cb).st, h, a)
    decreases SLOTS - i
  {
    if i < SLOTS {
      var o := UnplugSlot(w.st, i, cb);
      UnplugSlotKeeps(w, i, cb);
      FlagsUnplugSlot(w.st, i, cb, h, a);
      UnplugFlags(World(o.st, w.trace + o.events), i + 1, cb, h, a);
    }
  }

  lemma FlagsEnter(st: State, i: nat, p: Addr, h: nat, a: nat)
    requires Inv(st) && AllFlagsOk(st, h, a) && h < 2 && a < 4
    requires i < SLOTS && p != 0 && p in st.mem && PhaseIn(st, p) == Out
    ensures AllFlagsOk(Enter(st, i, p), h, a)
  {
    FlagsEnterAt(st, i, p, h, a, 0);
    FlagsEnterAt(st, i, p, h, a, 1);
    FlagsEnterAt(st, i, p, h, a, 2);
  }

  lemma FlagsEnterAt(st: State, i: nat, p: Addr, h: nat, a: nat, j: nat)
    requires WellFormed(st) && i < SLOTS && j < SLOTS && FlagsOk(st, i, h, a) && FlagsOk(st, j, h, a)
    requires h < 2 && a < 4 && p != 0 && p in st.mem && st.slots[j].intf != p
    ensures FlagsOk(Enter(st, i, p), j, h, a)
  {
    OrOfFlags(h, a);
  }

  lemma FlagsOpen(st: State, p: Addr, serial: nat, cb: Callbacks, h: nat, a: nat)
    requires Inv(st) && AllFlagsOk(st, h, a) && h < 2 && a < 4
    requires p != 0 && p in st.mem && PhaseIn(st, p) == Out
    ensures var o := OpenInterface(st, p, serial, cb); WellFormed(o.st) && AllFlagsOk(o.st, h, a)
  {
    OpenEffect(st, p, serial, cb);
    assert forall j :: 0 <= j < SLOTS ==> st.slots[j].intf != p;
    var st1 := Prepared(st, p, serial);
    assert Inv(st1) && AllFlagsOk(st1, h, a);
    if Register(st1, p, cb).status == Success {
      FlagsEnter(st1, SlotOf(serial).value, p, h, a);
    }
  }

  lemma FlagsPlugIn(st: State, serial: nat, cb: Callbacks, h: nat, a: nat)
    requires Inv(st) && AllFlagsOk(st, h, a)
    ensures AllFlagsOk(PlugIn(st, serial, cb).st, h, a)
  {
  }

  lemma FlagsIoctl(w: World, cmd: Cmd, cb: Callbacks, h: nat, a: nat)
    requires Sound(w) && AllFlagsOk(w.st, h, a)
    ensures AllFlagsOk(Ioctl(w.st, cmd, cb).st, if cmd.SetHotkey? then cmd.value % 2 else h,
                                                if cmd.SetAntenna? then cmd.value % 4 else a)
  {
    match cmd
    case PlugInHardware(serial) => FlagsPlugIn(w.st, serial, cb, h, a);
    case UnPlugHardware(serial) => FlagsUnPlug(w, serial, cb, h, a);
    case SetHotkey(v) =>
      HotkeyFlags(w.st, v, h, a, 0);
      HotkeyFlags(w.st, v, h, a, 1);
      HotkeyFlags(w.st, v, h, a, 2);
    case SetAntenna(v) =>
      AntennaFlags(w.st, v, h, a, 0);
      AntennaFlags(w.st, v, h, a, 1);
      AntennaFlags(w.st, v, h, a, 2);
    case _ =>
      var o := Ioctl(w.st, cmd, cb);
      assert o.st.slots == w.st.slots && o.st.mem == w.st.mem;
  }

  lemma FlagsUnplugSlot(st: State, i: nat, cb: Callbacks, h: nat, a: nat)
    requires Inv(st) && i < SLOTS && AllFlagsOk(st, h, a)
    ensures AllFlagsOk(UnplugSlot(st, i, cb).st, h, a)
  {
  }

  lemma FlagsUnPlug(w: World, serial: nat, cb: Callbacks, h: nat, a: nat)
    requires Sound(w) && AllFlagsOk(w.st, h, a)
    ensures AllFlagsOk(UnPlug(w.st, serial, cb).st, h, a)
  {
    if serial == 0 {
      UnplugFlags(w, 0, cb, h, a);
    } else {
      match FindPdo(w.st, Masked(serial))
      case None =>
      case Some(i) => FlagsUnplugSlot(w.st, i, cb, h, a);
    }
  }

  lemma FlagsStep(w: World, s: Step, h: nat, a: nat)
    requires Sound(w) && AllFlagsOk(w.st, h, a) && h < 2 && a < 4
    ensures var h' := if s.op.Ctl? && s.op.cmd.SetHotkey? then s.op.cmd.value % 2 else h;
            var a' := if s.op.Ctl? && s.op.cmd.SetAntenna? then s.op.cmd.value % 4 else a;
            AllFlagsOk(StepFrom(w, s).st, h', a')
  {
    PerformKeeps(w, s);
    match s.op
    case Alloc(p) =>
    case Open(p, serial) =>
      if p in w.st.mem && PhaseIn(w.st, p) == Out { FlagsOpen(w.st, p, serial, s.cb, h, a); }
    case Close(p) =>
    case Ctl(cmd) => FlagsIoctl(w, cmd, s.cb, h, a);
  }

  /** After any run each registered interface shows the last hotkey value, the WLAN interface
      the last antenna value, whether they were set before or after it registered; and no flag
      bit beyond these three is ever set. */
  lemma {:induction false} FlagHistory(steps: seq<Step>)
    ensures AllFlagsOk(RunFrom(Start(), steps).st, LastHotkey(steps) % 2, LastAntenna(steps) % 4)
    decreases |steps|
  {
    if steps != [] {
      var n := |steps| - 1;
      FlagHistory(steps[..n]);
      FlagsStep(RunFrom(Start(), steps[..n]), steps[n], LastHotkey(steps[..n]) % 2, LastAntenna(steps[..n]) % 4);
    }
  }

  /** An interface that registers, under either serial number, starts with both values. */
  lemma FlagsAtRegistration(steps: seq<Step>, q: Addr, n: nat, cb: Callbacks)
    ensures var w := RunFrom(Start(), steps);
            q in w.st.mem && PhaseIn(w.st, q) == Out && Register(Prepared(w.st, q, n), q, cb).status == Success ==>
              && q in OpenInterface(w.st, q, n, cb).st.mem
              && OpenInterface(w.st, q, n, cb).st.mem[q].paraFlag
                 == LastHotkey(steps) % 2 + 2 * (LastAntenna(steps) % 4)
  {
    var w := RunFrom(Start(), steps);
    FlagHistory(steps);
    if q in w.st.mem && PhaseIn(w.st, q) == Out && Register(Prepared(w.st, q, n), q, cb).status == Success {
      EntersWithFlags(w.st, q, n, cb, LastHotkey(steps) % 2, LastAntenna(steps) % 4);
    }
  }

  lemma EntersWithFlags(st: State, q: Addr, n: nat, cb: Callbacks, h: nat, a: nat)
    requires Inv(st) && q in st.mem && PhaseIn(st, q) == Out && AllFlagsOk(st, h, a) && h < 2 && a < 4
    requires Register(Prepared(st, q, n), q, cb).status == Success
    ensures var r := OpenInterface(st, q, n, cb).st; q in r.mem && r.mem[q].paraFlag == h + 2 * a
  {
    OpenEffect(st, q, n, cb);
    OrOfFlags(h, a);
  }
}
