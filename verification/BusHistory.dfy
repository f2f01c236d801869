/** The bus as its history tells it: what was registered, which callbacks were called with which
    results, and when the hotkey flag was set decide who sits in a slot, whether its device runs,
    whether it is wanted, and what every query answers. */
module BusHistory {
  import opened BusTypes
  import opened Options
  import opened BusSpec
  import opened BusRuns
  import opened BusProperties

  /** One step of a run, as an observer sees it: what was asked, and what the bus then called. */
  datatype Entry = Entry(op: Op, events: seq<Event>)

  ghost function Log(steps: seq<Step>): (log: seq<Entry>)
    decreases |steps|
  {
    if steps == [] then []
    else
      var n := |steps| - 1;
      Log(steps[..n]) + [Entry(steps[n].op, Perform(RunFrom(Start(), steps[..n]).st, steps[n]).events)]
  }

  /** What an observer knows of one serial number: the interface registered under it (0 for none),
      whether its device is up, whether someone wants it up, and whether nobody has ever had it up. */
  datatype Story = Story(who: Addr, up: bool, wanted: bool, untouched: bool)

  /** A callback moves the device only if it returns 0. A device that came up is wanted; after an unplug
      request it is wanted only if it could not be closed; leaving the bus says nothing about that. */
  function Turn(s: Story, op: Op, e: Event, serial: nat): Story
  {
    match e
    case Registered(p) => if op.Open? && op.serial == serial then s.(who := p, up := false) else s
    case Retired(p) => if p == s.who then s.(who := 0, up := false) else s
    case Opened(p, ret) => if p == s.who && ret == 0 then s.(up := true, wanted := true, untouched := false) else s
    case Closed(p, ret) =>
      if p != s.who then s
      else
        var still := s.up && ret != 0;
        s.(up := still, wanted := if op.Ctl? then still else s.wanted)
  }

  function Turns(s: Story, op: Op, events: seq<Event>, serial: nat): Story
    decreases |events|
  {
    if events == [] then s else Turns(Turn(s, op, events[0], serial), op, events[1..], serial)
  }

  /** The hotkey flag makes every device wanted. */
  function Read(s: Story, entry: Entry, serial: nat): Story
  {
    if entry.op.Ctl? && entry.op.cmd.SetHotkey? then s.(wanted := true, untouched := false)
    else Turns(s, entry.op, entry.events, serial)
  }

  function StoryOf(log: seq<Entry>, serial: nat): Story
  {
    if log == [] then Story(0, false, false, true)
    else Read(StoryOf(log[..|log| - 1], serial), log[|log| - 1], serial)
  }

  // ---------- the bus does what its history tells ----------

  predicate Wish(d: PnpState) { d == Started || d == StartWithOS }

  /** Slot i is in the state the story tells of. */
  ghost predicate Track(st: State, s: Story, i: nat)
    requires WellFormed(st) && i < SLOTS
  {
    && s.who == st.slots[i].intf && s.up == StartedAt(st, i)
    && s.wanted == Wish(st.slots[i].oldFromWb) && s.untouched == (st.slots[i].oldFromWb == NotStarted)
    && (s.who != 0 && s.untouched ==> st.mem[s.who].devstate == NotStarted)
  }

  lemma {:induction false} TurnsAppend(s: Story, op: Op, a: seq<Event>, b: seq<Event>, serial: nat)
    ensures Turns(s, op, a + b, serial) == Turns(Turns(s, op, a, serial), op, b, serial)
    decreases |a|
  {
    if a == [] {
      assert a + b == b;
    } else {
      assert (a + b)[0] == a[0] && (a + b)[1..] == a[1..] + b;
      TurnsAppend(Turn(s, op, a[0], serial), op, a[1..], b, serial);
    }
  }

  lemma OneTurn(s: Story, op: Op, e: Event, serial: nat)
    ensures Turns(s, op, [e], serial) == Turn(s, op, e, serial)
  {
  }

  lemma TwoTurns(s: Story, op: Op, a: Event, b: Event, serial: nat)
    ensures Turns(s, op, [a, b], serial) == Turn(Turn(s, op, a, serial), op, b, serial)
  {
    assert [a, b][0] == a && [a, b][1..] == [b];
    OneTurn(Turn(s, op, a, serial), op, b, serial);
  }

  /** An event that concerns another slot's interface. */
  lemma OtherTurn(s: Story, op: Op, e: Event, serial: nat)
    requires e.p != s.who && !e.Registered?
    ensures Turn(s, op, e, serial) == s
  {
  }

  lemma TrackPlugIn(st: State, s: Story, n: nat, cb: Callbacks, i: nat)
    requires Inv(st) && i < SLOTS && Track(st, s, i)
    ensures var o := PlugIn(st, n, cb); Track(o.st, Turns(s, Ctl(PlugInHardware(n)), o.events, SerialOf(i)), i)
  {
    var o := PlugIn(st, n, cb);
    if o.events != [] { OneTurn(s, Ctl(PlugInHardware(n)), o.events[0], SerialOf(i)); }
  }

  lemma TrackUnplugSlot(st: State, s: Story, j: nat, op: Op, cb: Callbacks, i: nat)
    requires Inv(st) && i < SLOTS && j < SLOTS && Track(st, s, i) && op.Ctl?
    ensures var o := UnplugSlot(st, j, cb); Track(o.st, Turns(s, op, o.events, SerialOf(i)), i)
  {
    var o := UnplugSlot(st, j, cb);
    if o.events != [] { OneTurn(s, op, o.events[0], SerialOf(i)); }
  }

  lemma {:induction false} TrackUnplugFrom(w: World, s: Story, j: nat, op: Op, cb: Callbacks, i: nat)
    requires Sound(w) && i < SLOTS && j <= SLOTS && Track(w.st, s, i) && op.Ctl?
    ensures var o := UnplugFrom(w.st, j, cb); Track(o.st, Turns(s, op, o.events, SerialOf(i)), i)
    decreases SLOTS - j
  {
    if j < SLOTS {
      var o := UnplugSlot(w.st, j, cb);
      UnplugSlotKeeps(w, j, cb);
      TrackUnplugSlot(w.st, s, j, op, cb, i);
      TrackUnplugFrom(World(o.st, w.trace + o.events), Turns(s, op, o.events, SerialOf(i)), j + 1, op, cb, i);
      TurnsAppend(s, op, o.events, UnplugFrom(o.st, j + 1, cb).events, SerialOf(i));
    }
  }

  lemma TrackUnPlug(w: World, s: Story, n: nat, cb: Callbacks, i: nat)
    requires Sound(w) && i < SLOTS && Track(w.st, s, i)
    ensures var o := UnPlug(w.st, n, cb); Track(o.st, Turns(s, Ctl(UnPlugHardware(n)), o.events, SerialOf(i)), i)
  {
    if n == 0 {
      TrackUnplugFrom(w, s, 0, Ctl(UnPlugHardware(n)), cb, i);
    } else {
      match FindPdo(w.st, Masked(n))
      case None =>
      case Some(j) => TrackUnplugSlot(w.st, s, j, Ctl(UnPlugHardware(n)), cb, i);
    }
  }

  lemma TrackHotkey(st: State, s: Story, v: nat, i: nat)
    requires Inv(st) && i < SLOTS && Track(st, s, i)
    ensures Track(HotkeyFrom(st, 0, v), s.(wanted := true, untouched := false), i)
  {
    HotkeyWanted(st, 0, v, i);
    HotkeyDevstate(st, 0, v, i);
  }

  lemma {:induction false} HotkeyDevstate(st: State, j: nat, v: nat, i: nat)
    requires WellFormed(st) && j <= SLOTS && i < SLOTS
    ensures var r := HotkeyFrom(st, j, v);
            r.slots[i].intf == st.slots[i].intf
            && (st.slots[i].intf != 0 ==> r.mem[st.slots[i].intf].devstate == st.mem[st.slots[i].intf].devstate)
    decreases SLOTS - j
  {
    if j < SLOTS { HotkeyDevstate(HotkeyAt(st, j, v), j + 1, v, i); }
  }

  lemma {:induction false} AntennaDevstate(st: State, j: nat, v: nat, i: nat)
    requires WellFormed(st) && j <= SLOTS && i < SLOTS
    ensures var r := AntennaFrom(st, j, v);
            r.slots[i].intf == st.slots[i].intf
            && (st.slots[i].intf != 0 ==> r.mem[st.slots[i].intf].devstate == st.mem[st.slots[i].intf].devstate)
    decreases SLOTS - j
  {
    if j < SLOTS { AntennaDevstate(AntennaAt(st, j, v), j + 1, v, i); }
  }

  lemma TrackAntenna(st: State, s: Story, v: nat, i: nat)
    requires Inv(st) && i < SLOTS && Track(st, s, i)
    ensures Track(AntennaFrom(st, 0, v), s, i)
  {
    AntennaWanted(st, 0, v, i);
    AntennaDevstate(st, 0, v, i);
  }

  lemma TrackIoctl(w: World, s: Story, cmd: Cmd, cb: Callbacks, i: nat)
    requires Sound(w) && i < SLOTS && Track(w.st, s, i)
    ensures var o := Ioctl(w.st, cmd, cb); Track(o.st, Read(s, Entry(Ctl(cmd), o.events), SerialOf(i)), i)
  {
    if !PassesGate(w.st, cmd) { return; }
    match cmd
    case PlugInHardware(n) => TrackPlugIn(w.st, s, n, cb, i);
    case UnPlugHardware(n) => TrackUnPlug(w, s, n, cb, i);
    case SetHotkey(v) => TrackHotkey(w.st, s, v, i);
    case SetAntenna(v) => TrackAntenna(w.st, s, v, i);
    case _ => TrackQuiet(w.st, s, cmd, cb, i);
  }

  /** The commands that touch neither slots nor interfaces. */
  lemma TrackQuiet(st: State, s: Story, cmd: Cmd, cb: Callbacks, i: nat)
    requires Inv(st) && i < SLOTS && Track(st, s, i)
    requires !cmd.PlugInHardware? && !cmd.UnPlugHardware? && !cmd.SetHotkey? && !cmd.SetAntenna?
    ensures var o := Ioctl(st, cmd, cb); o.events == [] && Track(o.st, s, i)
  {
    assert Ioctl(st, cmd, cb).st.slots == st.slots && Ioctl(st, cmd, cb).st.mem == st.mem;
  }

  lemma TrackEnter(st: State, s: Story, p: Addr, op: Op, j: nat, i: nat)
    requires Inv(st) && i < SLOTS && j < 2 && Track(st, s, i) && st.slots[j].intf == 0
    requires p != 0 && p in st.mem && PhaseIn(st, p) == Out && op == Op.Open(p, SerialOf(j))
    ensures Track(Enter(st, j, p), Turn(s, op, Registered(p), SerialOf(i)), i)
  {
    assert i != j ==> SerialOf(i) != SerialOf(j);
  }

  lemma TrackOpened(st: State, s: Story, op: Op, j: nat, ret: int, i: nat)
    requires WellFormed(st) && i < SLOTS && j < SLOTS && Track(st, s, i)
    requires st.slots[j].intf != 0 && Wish(st.slots[j].oldFromWb)
    requires i != j ==> st.slots[i].intf != st.slots[j].intf
    ensures Track(if ret == 0 then SetDevstate(st, j, Started) else st,
                  Turn(s, op, Opened(st.slots[j].intf, ret), SerialOf(i)), i)
  {
  }

  lemma TrackRegister(st: State, s: Story, p: Addr, op: Op, cb: Callbacks, i: nat)
    requires Inv(st) && i < SLOTS && Track(st, s, i)
    requires p != 0 && p in st.mem && PhaseIn(st, p) == Out && op == Op.Open(p, st.mem[p].serialNo)
    ensures var o := Register(st, p, cb); Track(o.st, Turns(s, op, o.events, SerialOf(i)), i)
  {
    var o := Register(st, p, cb);
    if o.events != [] {
      var j := SlotOf(st.mem[p].serialNo).value;
      var entered := Enter(st, j, p);
      TrackEnter(st, s, p, op, j, i);
      var s1 := Turn(s, op, Registered(p), SerialOf(i));
      if |o.events| == 2 {
        var ret := cb.open(SerialOf(j));
        assert o.events == [Registered(p), Opened(p, ret)];
        TwoTurns(s, op, Registered(p), Opened(p, ret), SerialOf(i));
        assert entered.slots[j].intf == p && (i != j ==> entered.slots[i].intf == st.slots[i].intf != p);
        TrackOpened(entered, s1, op, j, ret, i);
      } else {
        OneTurn(s, op, Registered(p), SerialOf(i));
      }
    }
  }

  lemma TrackOpen(st: State, s: Story, p: Addr, n: nat, cb: Callbacks, i: nat)
    requires Inv(st) && i < SLOTS && Track(st, s, i)
    requires p != 0 && p in st.mem && PhaseIn(st, p) == Out
    ensures var o := OpenInterface(st, p, n, cb);
            WellFormed(o.st) && Track(o.st, Turns(s, Op.Open(p, n), o.events, SerialOf(i)), i)
  {
    OpenEffect(st, p, n, cb);
    assert forall j :: 0 <= j < SLOTS ==> st.slots[j].intf != p;
    var st1 := Prepared(st, p, n);
    assert Inv(st1) && Track(st1, s, i);
    TrackRegister(st1, s, p, Op.Open(p, n), cb, i);
  }

  lemma TrackLeft(st: State, s: Story, op: Op, j: nat, i: nat)
    requires Inv(st) && i < SLOTS && j < SLOTS && st.slots[j].intf != 0
    requires s.who == st.slots[i].intf && s.wanted == Wish(st.slots[i].oldFromWb)
    requires s.untouched == (st.slots[i].oldFromWb == NotStarted)
    requires i != j ==> Track(st, s, i)
    ensures WellFormed(Left(st, j)) && Track(Left(st, j), Turn(s, op, Retired(st.slots[j].intf), SerialOf(i)), i)
  {
    LeaveInv(st, j);
  }

  lemma TrackClose(st: State, s: Story, p: Addr, cb: Callbacks, i: nat)
    requires Inv(st) && i < SLOTS && Track(st, s, i) && p in st.mem
    ensures var o := Unregister(st, p, cb); Track(o.st, Turns(s, Close(p), o.events, SerialOf(i)), i)
  {
    if PhaseIn(st, p) == Out {
      assert Settle(st) == st;
    } else {
      OwnSlot(st, p);
      var j := SlotOf(st.mem[p].serialNo).value;
      UnregisterIs(st, p, j, cb);
      var c := Closed(p, cb.close(st.mem[p].serialNo));
      if StartedAt(st, j) {
        TwoTurns(s, Close(p), c, Retired(p), SerialOf(i));
        TrackLeft(st, Turn(s, Close(p), c, SerialOf(i)), Close(p), j, i);
      } else {
        OneTurn(s, Close(p), Retired(p), SerialOf(i));
        TrackLeft(st, s, Close(p), j, i);
      }
    }
  }

  lemma TrackFree(st: State, s: Story, p: Addr, i: nat)
    requires WellFormed(st) && i < SLOTS && Track(st, s, i) && st.slots[i].intf != p
    requires WellFormed(st.(mem := st.mem - {p}))
    ensures Track(st.(mem := st.mem - {p}), s, i)
  {
  }

  lemma TrackStep(w: World, s: Story, step: Step, i: nat)
    requires Sound(w) && i < SLOTS && Track(w.st, s, i)
    ensures Track(StepFrom(w, step).st, Read(s, Entry(step.op, Perform(w.st, step).events), SerialOf(i)), i)
  {
    PerformKeeps(w, step);
    match step.op
    case Alloc(p) =>
    case Open(p, n) =>
      if p in w.st.mem && PhaseIn(w.st, p) == Out { TrackOpen(w.st, s, p, n, step.cb, i); }
    case Close(p) =>
      if p in w.st.mem {
        var o := Unregister(w.st, p, step.cb);
        TrackClose(w.st, s, p, step.cb, i);
        UnregisterKeeps(w, p, step.cb);
        TrackFree(o.st, Turns(s, step.op, o.events, SerialOf(i)), p, i);
      }
    case Ctl(cmd) => TrackIoctl(w, s, cmd, step.cb, i);
  }

  /** After every run each slot is as the log alone tells: who is registered there, whether its
      device is up, whether it is wanted, and whether it was never up and never asked for. */
  lemma {:induction false} HistoryTells(steps: seq<Step>, i: nat)
    requires i < SLOTS
    ensures Track(RunFrom(Start(), steps).st, StoryOf(Log(steps), SerialOf(i)), i)
    decreases |steps|
  {
    if steps != [] {
      var n := |steps| - 1;
      var w := RunFrom(Start(), steps[..n]);
      HistoryTells(steps[..n], i);
      TrackStep(w, StoryOf(Log(steps[..n]), SerialOf(i)), steps[n], i);
      var log := Log(steps);
      assert log[..|log| - 1] == Log(steps[..n]);
    }
  }

  /** A driver that registers is opened at once exactly if the history says that its device is wanted. */
  lemma RegistrationOpensExactly(steps: seq<Step>, i: nat, q: Addr, cb: Callbacks)
    requires i < 2
    ensures var st := RunFrom(Start(), steps).st;
            var s := StoryOf(Log(steps), SerialOf(i));
            q in st.mem && PhaseIn(st, q) == Out && s.who == 0 ==>
              Perform(st, Step(Op.Open(q, SerialOf(i)), cb)).events
              == [Registered(q)] + if s.wanted then [Opened(q, cb.open(SerialOf(i)))] else []
  {
    HistoryTells(steps, i);
    var st := RunFrom(Start(), steps).st;
    if q in st.mem && PhaseIn(st, q) == Out && st.slots[i].intf == 0 { OpenEffect(st, q, SerialOf(i), cb); }
  }

  ghost predicate Tracks(st: State, bt: Story, wlan: Story)
  {
    Inv(st) && Track(st, bt, 0) && Track(st, wlan, 1)
  }

  lemma TrackedInUse(st: State, bt: Story, wlan: Story)
    requires Tracks(st, bt, wlan)
    ensures AnyOccupied(st) <==> bt.who != 0 || wlan.who != 0
    ensures StartedBits(st) == (if bt.up then 1 else 0) + (if wlan.up then 2 else 0)
    ensures st.pnp == Started <==> bt.who != 0 || wlan.who != 0
    ensures PowerWord(st.power) == if bt.who != 0 || wlan.who != 0 then 1 else 0
  {
  }

  lemma TrackedEnum(st: State, bt: Story, wlan: Story)
    requires Tracks(st, bt, wlan)
    ensures Untouched(st, 0) <==> bt.who != 0 && bt.untouched
    ensures Untouched(st, 1) <==> wlan.who != 0 && wlan.untouched
  {
  }

  lemma TrackedState(st: State, bt: Story, wlan: Story, n: nat)
    requires Tracks(st, bt, wlan)
    ensures DeviceStateAnswer(st, n) == if (n == 1 && bt.up) || (n == 2 && wlan.up) then 1 else 0xff
  {
  }

  /** What each query answers on a bus with these two stories. */
  ghost predicate AnswersAs(st: State, bt: Story, wlan: Story)
    requires WellFormed(st)
  {
    var present := bt.who != 0 || wlan.who != 0;
    var bits := (if bt.up then 1 else 0) + (if wlan.up then 2 else 0);
    var neverUsed := (bt.who != 0 && bt.untouched) || (wlan.who != 0 && wlan.untouched);
    && Answer(st, DisplayInUse) == (if !present then 0x10000 else if bits == 0 then 0xffff else bits)
    && Answer(st, ReadEnumMode) == (if bits != 0 then bits else if neverUsed then 0xFFFFFFFF else 0)
    && (forall n: nat ::
          Answer(st, QueryDeviceState(n)) == if (n == 1 && bt.up) || (n == 2 && wlan.up) then 1 else 0xff)
    && Answer(st, QueryBusPower) == (if present then 1 else 0)
    && Answer(st, QueryResetFlag) == 0
  }

  lemma TrackedAnswers(st: State, bt: Story, wlan: Story)
    requires Tracks(st, bt, wlan)
    ensures AnswersAs(st, bt, wlan)
  {
    TrackedInUse(st, bt, wlan);
    TrackedEnum(st, bt, wlan);
    forall n: nat
      ensures Answer(st, QueryDeviceState(n)) == if (n == 1 && bt.up) || (n == 2 && wlan.up) then 1 else 0xff
    {
      TrackedState(st, bt, wlan, n);
    }
  }

  lemma BothTracked(steps: seq<Step>)
    ensures Tracks(RunFrom(Start(), steps).st, StoryOf(Log(steps), 1), StoryOf(Log(steps), 2))
  {
    HistoryTells(steps, 0);
    HistoryTells(steps, 1);
  }

  /** After every run every answer of the bus can be read off the log. */
  lemma AnswersFromHistory(steps: seq<Step>)
    ensures AnswersAs(RunFrom(Start(), steps).st, StoryOf(Log(steps), 1), StoryOf(Log(steps), 2))
  {
    BothTracked(steps);
    TrackedAnswers(RunFrom(Start(), steps).st, StoryOf(Log(steps), 1), StoryOf(Log(steps), 2));
  }

  /** An ioctl fails at the gate exactly if nobody is registered and it is not one of the two flag settings. */
  ghost predicate Refuses(st: State, bt: Story, wlan: Story, cmd: Cmd, cb: Callbacks)
    requires WellFormed(st)
  {
    Ioctl(st, cmd, cb).status == Efault <==> bt.who == 0 && wlan.who == 0 && !cmd.SetHotkey? && !cmd.SetAntenna?
  }

  lemma TrackedGate(st: State, bt: Story, wlan: Story, cmd: Cmd, cb: Callbacks)
    requires Tracks(st, bt, wlan)
    ensures Refuses(st, bt, wlan, cmd, cb)
  {
    TrackedInUse(st, bt, wlan);
    if cmd.UnPlugHardware? { UnplugAllSucceeds(st, 0, cb); }
  }

  lemma GateFromHistory(steps: seq<Step>, cmd: Cmd, cb: Callbacks)
    ensures Refuses(RunFrom(Start(), steps).st, StoryOf(Log(steps), 1), StoryOf(Log(steps), 2), cmd, cb)
  {
    BothTracked(steps);
    TrackedGate(RunFrom(Start(), steps).st, StoryOf(Log(steps), 1), StoryOf(Log(steps), 2), cmd, cb);
  }

  lemma {:induction false} UnplugAllSucceeds(st: State, i: nat, cb: Callbacks)
    requires WellFormed(st) && i <= SLOTS
    ensures UnplugFrom(st, i, cb).status == Success
    decreases SLOTS - i
  {
    if i < SLOTS { UnplugAllSucceeds(UnplugSlot(st, i, cb).st, i + 1, cb); }
  }

  // ---------- which calls a request makes ----------

  /** A plug-in request calls the open callback of slot i exactly if the low 24 bits name it, it has a driver,
      and its device is not started; it succeeds exactly if it makes that call, and changes
      something exactly if the call returns 0. */
  lemma PlugInCallsExactly(st: State, n: nat, cb: Callbacks, i: nat, ret: int)
    requires Inv(st) && i < SLOTS
    ensures var o := PlugIn(st, n, cb);
            && (Opened(st.slots[i].intf, ret) in o.events <==>
                  n % 0x1000000 == SerialOf(i) && st.slots[i].intf != 0 && !StartedAt(st, i)
                  && ret == cb.open(SerialOf(i)))
            && (o.status == Success <==> o.events != [])
            && (o.st == st <==> forall p :: Opened(p, 0) !in o.events)
  {
    var o := PlugIn(st, n, cb);
    if o.events != [] {
      var p := o.events[0].p;
      assert o.events == [Opened(p, o.events[0].ret)];
      if o.events[0].ret == 0 {
        assert Opened(p, 0) in o.events;
        assert o.st.mem[p].devstate == Started != st.mem[p].devstate;
      }
    }
  }

  /** An unplug request calls the close callback of slot i exactly if it names it or all, it has a driver, and its
      device has been started since it registered. */
  lemma UnplugCallsExactly(st: State, n: nat, cb: Callbacks, i: nat, ret: int)
    requires Inv(st) && i < SLOTS
    ensures Closed(st.slots[i].intf, ret) in UnPlug(st, n, cb).events <==>
              (n == 0 || n % 0x1000000 == SerialOf(i)) && st.slots[i].intf != 0
              && st.mem[st.slots[i].intf].devstate != NotStarted && ret == cb.close(SerialOf(i))
    ensures UnPlug(st, n, cb).status == Success <==> n == 0 || UnPlug(st, n, cb).events != []
  {
    if n == 0 { UnplugAllSucceeds(st, 0, cb); }
    UnplugEvents(st, n, cb);
    CloseCallsOf(st, 0, cb, i, ret);
    CloseCallsOf(st, 1, cb, i, ret);
  }

  lemma CloseCallsOf(st: State, j: nat, cb: Callbacks, i: nat, ret: int)
    requires Inv(st) && i < SLOTS && j < 2
    ensures Closed(st.slots[i].intf, ret) in UnplugSlot(st, j, cb).events <==>
              i == j && st.slots[i].intf != 0 && st.mem[st.slots[i].intf].devstate != NotStarted
              && ret == cb.close(SerialOf(i))
  {
    var o := UnplugSlot(st, j, cb);
    if o.events != [] { assert o.events == [Closed(st.slots[j].intf, cb.close(SerialOf(j)))]; }
  }

  /** A registration is accepted exactly for a complete block that names Bluetooth or WLAN, whose slot is free; an
      incomplete block, or one for GPS, is told apart from an unknown or occupied one. */
  lemma RegisterAcceptsExactly(st: State, p: Addr, cb: Callbacks)
    requires Inv(st) && (p != 0 ==> p in st.mem)
    ensures var o := Register(st, p, cb);
            var complete := p != 0 && st.mem[p].serialNo != 0 && st.mem[p].hasOpen && st.mem[p].hasClose
                            && st.mem[p].serialNo != 4;
            var free := complete && ((st.mem[p].serialNo == 1 && st.slots[0].intf == 0)
                                     || (st.mem[p].serialNo == 2 && st.slots[1].intf == 0));
            && (o.status == InvalidParameter <==> !complete) && (o.status == Success <==> free)
            && (o.status == MinusOne <==> complete && !free) && (Registered(p) in o.events <==> free)
  {
    var o := Register(st, p, cb);
    if o.status == Success { assert o.events[0] == Registered(p); }
  }

  // ---------- the antenna bits of Bluetooth ----------

  /** The antenna value that was in force when Bluetooth last registered. */
  ghost function BtAntenna(steps: seq<Step>): nat
    decreases |steps|
  {
    if steps == [] then 0
    else
      var n := |steps| - 1;
      var op := steps[n].op;
      var before := StoryOf(Log(steps[..n]), 1).who;
      var now := StoryOf(Log(steps), 1).who;
      if op.Open? && before == 0 && now != 0 then LastAntenna(steps[..n]) % 4 else BtAntenna(steps[..n])
  }

  ghost predicate BtBits(st: State, b: nat)
    requires WellFormed(st)
  {
    st.slots[0].intf != 0 ==> st.mem[st.slots[0].intf].paraFlag / 2 == b
  }

  lemma {:induction false} BtThroughHotkey(st: State, j: nat, v: nat, b: nat)
    requires WellFormed(st) && 0 < j <= SLOTS && BtBits(st, b)
    requires forall k :: 0 < k < SLOTS && st.slots[k].intf != 0 ==> st.slots[k].intf != st.slots[0].intf
    ensures BtBits(HotkeyFrom(st, j, v), b)
    decreases SLOTS - j
  {
    if j < SLOTS { BtThroughHotkey(HotkeyAt(st, j, v), j + 1, v, b); }
  }

  lemma BtHotkey(st: State, v: nat, h: nat, a: nat, b: nat)
    requires Inv(st) && AllFlagsOk(st, h, a) && BtBits(st, b)
    ensures BtBits(HotkeyFrom(st, 0, v), b)
  {
    if st.slots[0].intf != 0 { HotkeyBits(st.mem[st.slots[0].intf].paraFlag, v); }
    BtThroughHotkey(HotkeyAt(st, 0, v), 1, v, b);
  }

  lemma {:induction false} BtThroughAntenna(st: State, j: nat, v: nat, b: nat)
    requires WellFormed(st) && j <= SLOTS && BtBits(st, b)
    requires st.slots[1].intf != 0 ==> st.slots[1].intf != st.slots[0].intf
    ensures BtBits(AntennaFrom(st, j, v), b)
    decreases SLOTS - j
  {
    if j < SLOTS { BtThroughAntenna(AntennaAt(st, j, v), j + 1, v, b); }
  }

  lemma BtUnplugSlot(st: State, j: nat, cb: Callbacks, b: nat)
    requires Inv(st) && j < SLOTS && BtBits(st, b)
    ensures BtBits(UnplugSlot(st, j, cb).st, b)
  {
  }

  lemma BtUnPlug(w: World, n: nat, cb: Callbacks, b: nat)
    requires Sound(w) && BtBits(w.st, b)
    ensures BtBits(UnPlug(w.st, n, cb).st, b)
  {
    if n == 0 {
      var o := UnplugSlot(w.st, 0, cb);
      UnplugSlotKeeps(w, 0, cb);
      BtUnplugSlot(w.st, 0, cb, b);
      BtUnplugRest(World(o.st, w.trace + o.events), 1, cb, b);
    } else {
      match FindPdo(w.st, Masked(n))
      case None =>
      case Some(j) => BtUnplugSlot(w.st, j, cb, b);
    }
  }

  lemma {:induction false} BtUnplugRest(w: World, j: nat, cb: Callbacks, b: nat)
    requires Sound(w) && j <= SLOTS && BtBits(w.st, b)
    ensures BtBits(UnplugFrom(w.st, j, cb).st, b)
    decreases SLOTS - j
  {
    if j < SLOTS {
      var o := UnplugSlot(w.st, j, cb);
      UnplugSlotKeeps(w, j, cb);
      BtUnplugSlot(w.st, j, cb, b);
      BtUnplugRest(World(o.st, w.trace + o.events), j + 1, cb, b);
    }
  }

  lemma BtIoctl(w: World, cmd: Cmd, cb: Callbacks, h: nat, a: nat, b: nat)
    requires Sound(w) && AllFlagsOk(w.st, h, a) && BtBits(w.st, b)
    ensures BtBits(Ioctl(w.st, cmd, cb).st, b)
  {
    if !PassesGate(w.st, cmd) { return; }
    match cmd
    case PlugInHardware(n) =>
    case UnPlugHardware(n) => BtUnPlug(w, n, cb, b);
    case SetHotkey(v) => BtHotkey(w.st, v, h, a, b);
    case SetAntenna(v) => BtThroughAntenna(w.st, 0, v, b);
    case _ => assert Ioctl(w.st, cmd, cb).st.slots == w.st.slots && Ioctl(w.st, cmd, cb).st.mem == w.st.mem;
  }

  lemma BtOpen(st: State, p: Addr, n: nat, cb: Callbacks, h: nat, a: nat, b: nat)
    requires Inv(st) && AllFlagsOk(st, h, a) && h < 2 && a < 4 && BtBits(st, b)
    requires p != 0 && p in st.mem && PhaseIn(st, p) == Out
    ensures var o := OpenInterface(st, p, n, cb);
            WellFormed(o.st) && BtBits(o.st, if st.slots[0].intf == 0 && o.st.slots[0].intf != 0 then a else b)
  {
    OpenEffect(st, p, n, cb);
    OrOfFlags(h, a);
    assert forall j :: 0 <= j < SLOTS ==> st.slots[j].intf != p;
  }

  lemma BtStep(w: World, s: Step, h: nat, a: nat, b: nat)
    requires Sound(w) && AllFlagsOk(w.st, h, a) && h < 2 && a < 4 && BtBits(w.st, b)
    ensures var st' := StepFrom(w, s).st;
            BtBits(st', if s.op.Open? && w.st.slots[0].intf == 0 && st'.slots[0].intf != 0 then a else b)
  {
    PerformKeeps(w, s);
    match s.op
    case Alloc(p) =>
    case Open(p, n) =>
      if p in w.st.mem && PhaseIn(w.st, p) == Out { BtOpen(w.st, p, n, s.cb, h, a, b); }
    case Close(p) =>
    case Ctl(cmd) => BtIoctl(w, cmd, s.cb, h, a, b);
  }

  /** The Bluetooth interface keeps the antenna value it registered with: later settings are for WLAN only. */
  lemma {:induction false} BtKeepsAntenna(steps: seq<Step>)
    ensures BtBits(RunFrom(Start(), steps).st, BtAntenna(steps))
    decreases |steps|
  {
    if steps != [] {
      var n := |steps| - 1;
      var w := RunFrom(Start(), steps[..n]);
      BtKeepsAntenna(steps[..n]);
      FlagHistory(steps[..n]);
      HistoryTells(steps[..n], 0);
      HistoryTells(steps, 0);
      BtStep(w, steps[n], LastHotkey(steps[..n]) % 2, LastAntenna(steps[..n]) % 4, BtAntenna(steps[..n]));
    }
  }
}
