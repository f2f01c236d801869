/** What every run of the bus keeps: any sequence of allocations, registrations, card removals
    and ioctls, with callbacks that may fail. */
module BusRuns {
  import opened BusTypes
  import opened Options
  import opened BusSpec

  // ---------- the callback history of one interface ----------

  /** What a history says of an interface: not registered, or registered with a device in state dev. */
  datatype Phase = Out | In(dev: PnpState)

  /** Registration starts from NotStarted; a callback moves the device only if it returns 0. */
  function PhaseNext(ph: Phase, e: Event, p: Addr): Phase
  {
    if e.p != p then ph
    else match e
      case Registered(_) => In(NotStarted)
      case Opened(_, ret) => if ret == 0 then In(Started) else ph
      case Closed(_, ret) => if ret == 0 then In(Stopped) else ph
      case Retired(_) => Out
  }

  function PhaseAfter(tr: seq<Event>, p: Addr): Phase
  {
    if tr == [] then Out else PhaseNext(PhaseAfter(tr[..|tr| - 1], p), tr[|tr| - 1], p)
  }

  /** The calls the bus may make: open only a registered device that is not open, close only
      one that has been opened, within a registration. */
  predicate Allowed(ph: Phase, e: Event)
  {
    match e
    case Registered(_) => ph == Out
    case Opened(_, _) => ph == In(NotStarted) || ph == In(Stopped)
    case Closed(_, _) => ph == In(Started) || ph == In(Stopped)
    case Retired(_) => ph.In?
  }

  ghost predicate Disciplined(tr: seq<Event>)
  {
    forall k :: 0 <= k < |tr| ==> Allowed(PhaseAfter(tr[..k], tr[k].p), tr[k])
  }

  /** What the bus state says of an interface. */
  function PhaseIn(st: State, p: Addr): Phase
    requires WellFormed(st)
  {
    if p != 0 && (p == st.slots[0].intf || p == st.slots[1].intf || p == st.slots[2].intf)
    then In(st.mem[p].devstate) else Out
  }

  lemma HeldIsPhase(st: State, p: Addr)
    requires WellFormed(st)
    ensures Held(st, p) <==> PhaseIn(st, p).In?
    ensures Held(st, p) ==> p in st.mem
  {
    if PhaseIn(st, p).In? {
      var i := if p == st.slots[0].intf then 0 else if p == st.slots[1].intf then 1 else 2;
      assert st.slots[i].intf == p;
    }
  }

  // ---------- the invariant ----------

  ghost predicate SlotOk(st: State, i: nat)
    requires WellFormed(st) && i < SLOTS
  {
    var wanted := st.slots[i].oldFromWb;
    && (wanted == NotStarted || wanted == Started || wanted == Stopped || wanted == StartWithOS)
    && (st.slots[i].intf != 0 ==>
          var dev := st.mem[st.slots[i].intf].devstate;
          && (dev == NotStarted || dev == Started || dev == Stopped)
          && (dev == Started ==> wanted == Started || wanted == StartWithOS))
  }

  ghost predicate Inv(st: State)
  {
    && WellFormed(st) && Linked(st)
    && 0 !in st.mem
    && st.slots[2].intf == 0
    && SlotOk(st, 0) && SlotOk(st, 1) && SlotOk(st, 2)
    && (if AnyOccupied(st) then st.pnp == Started && st.power == PowerWirlessOn
        else st.pnp == NotStarted && st.power == PowerWirlessOff)
  }

  ghost predicate Agree(st: State, tr: seq<Event>)
    requires WellFormed(st)
  {
    forall p: Addr :: PhaseAfter(tr, p) == PhaseIn(st, p)
  }

  /** The same for every interface but p. */
  ghost predicate AgreeBut(st: State, tr: seq<Event>, p: Addr)
    requires WellFormed(st)
  {
    forall q: Addr :: q != p ==> PhaseAfter(tr, q) == PhaseIn(st, q)
  }

  datatype World = World(st: State, trace: seq<Event>)

  ghost predicate Sound(w: World)
  {
    Inv(w.st) && Agree(w.st, w.trace) && Disciplined(w.trace)
  }

  // ---------- one event ----------

  lemma PhaseOfAppend(tr: seq<Event>, e: Event, p: Addr)
    ensures PhaseAfter(tr + [e], p) == PhaseNext(PhaseAfter(tr, p), e, p)
  {
    assert (tr + [e])[..|tr|] == tr;
  }

  lemma DisciplinedAppend(tr: seq<Event>, e: Event)
    requires Disciplined(tr) && Allowed(PhaseAfter(tr, e.p), e)
    ensures Disciplined(tr + [e])
  {
    forall k | 0 <= k < |tr + [e]| ensures Allowed(PhaseAfter((tr + [e])[..k], (tr + [e])[k].p), (tr + [e])[k]) {
      if k < |tr| {
        assert (tr + [e])[..k] == tr[..k];
      } else {
        assert (tr + [e])[..k] == tr;
      }
    }
  }

  /** A step that makes one call keeps the history and the state in agreement. */
  lemma OneEvent(st: State, tr: seq<Event>, e: Event, st': State)
    requires WellFormed(st) && Agree(st, tr) && Disciplined(tr)
    requires Allowed(PhaseIn(st, e.p), e)
    requires WellFormed(st')
    requires forall p: Addr :: PhaseIn(st', p) == PhaseNext(PhaseIn(st, p), e, p)
    ensures Agree(st', tr + [e]) && Disciplined(tr + [e])
  {
    DisciplinedAppend(tr, e);
    forall p: Addr ensures PhaseAfter(tr + [e], p) == PhaseIn(st', p) {
      PhaseOfAppend(tr, e, p);
    }
  }

  lemma NoEvent(st: State, tr: seq<Event>, st': State)
    requires WellFormed(st) && Agree(st, tr) && Disciplined(tr)
    requires WellFormed(st')
    requires forall p: Addr :: PhaseIn(st', p) == PhaseIn(st, p)
    ensures Agree(st', tr + []) && Disciplined(tr + [])
  {
    assert tr + [] == tr;
  }

  // ---------- one operation ----------

  /** A device of slot i changes its state: what that does to the phases. */
  lemma DevstatePhase(st: State, i: nat, d: PnpState, q: Addr)
    requires Inv(st) && i < SLOTS && st.slots[i].intf != 0
    ensures PhaseIn(SetDevstate(st, i, d), q) == if q == st.slots[i].intf then In(d) else PhaseIn(st, q)
  {
  }

  lemma DevstateInv(st: State, i: nat, d: PnpState)
    requires Inv(st) && i < SLOTS && st.slots[i].intf != 0 && (d == Started || d == Stopped)
    ensures Inv(SetWanted(SetDevstate(st, i, d), i, d))
  {
  }

  lemma PlugInKeeps(w: World, serial: nat, cb: Callbacks)
    requires Sound(w)
    ensures var o := PlugIn(w.st, serial, cb); Sound(World(o.st, w.trace + o.events))
  {
    var o := PlugIn(w.st, serial, cb);
    if o.events == [] {
      NoEvent(w.st, w.trace, o.st);
    } else {
      var i := FindPdo(w.st, Masked(serial)).value;
      DevstateInv(w.st, i, Started);
      forall q: Addr ensures PhaseIn(o.st, q) == PhaseNext(PhaseIn(w.st, q), o.events[0], q) {
        DevstatePhase(w.st, i, Started, q);
      }
      OneEvent(w.st, w.trace, o.events[0], o.st);
    }
  }

  lemma UnplugSlotKeeps(w: World, i: nat, cb: Callbacks)
    requires Sound(w) && i < SLOTS
    ensures var o := UnplugSlot(w.st, i, cb); Sound(World(o.st, w.trace + o.events))
  {
    var o := UnplugSlot(w.st, i, cb);
    if o.events == [] {
      NoEvent(w.st, w.trace, o.st);
    } else {
      UnplugSlotInv(w.st, i, cb);
      forall q: Addr ensures PhaseIn(o.st, q) == PhaseNext(PhaseIn(w.st, q), o.events[0], q) {
        UnplugSlotPhase(w.st, i, cb, q);
      }
      OneEvent(w.st, w.trace, o.events[0], o.st);
    }
  }

  lemma UnplugSlotInv(st: State, i: nat, cb: Callbacks)
    requires Inv(st) && i < SLOTS && UnplugSlot(st, i, cb).events != []
    ensures Inv(UnplugSlot(st, i, cb).st)
  {
    if cb.close(st.slots[i].serialNo) == 0 { DevstateInv(st, i, Stopped); }
  }

  lemma UnplugSlotPhase(st: State, i: nat, cb: Callbacks, q: Addr)
    requires Inv(st) && i < SLOTS && UnplugSlot(st, i, cb).events != []
    ensures var o := UnplugSlot(st, i, cb);
            && PhaseIn(o.st, q) == PhaseNext(PhaseIn(st, q), o.events[0], q)
            && Allowed(PhaseIn(st, o.events[0].p), o.events[0])
  {
    DevstatePhase(st, i, Stopped, q);
  }

  lemma {:induction false} UnplugFromKeeps(w: World, i: nat, cb: Callbacks)
    requires Sound(w) && i <= SLOTS
    ensures var o := UnplugFrom(w.st, i, cb); Sound(World(o.st, w.trace + o.events))
    decreases SLOTS - i
  {
    if i == SLOTS {
      NoEvent(w.st, w.trace, w.st);
    } else {
      var o := UnplugSlot(w.st, i, cb);
      UnplugSlotKeeps(w, i, cb);
      UnplugFromKeeps(World(o.st, w.trace + o.events), i + 1, cb);
      assert w.trace + o.events + UnplugFrom(o.st, i + 1, cb).events
          == w.trace + UnplugFrom(w.st, i, cb).events;
    }
  }

  lemma UnPlugKeeps(w: World, serial: nat, cb: Callbacks)
    requires Sound(w)
    ensures var o := UnPlug(w.st, serial, cb); Sound(World(o.st, w.trace + o.events))
  {
    if serial == 0 {
      UnplugFromKeeps(w, 0, cb);
    } else {
      match FindPdo(w.st, Masked(serial))
      case None => NoEvent(w.st, w.trace, w.st);
      case Some(i) => UnplugSlotKeeps(w, i, cb);
    }
  }

  lemma EnterKeeps(st: State, tr: seq<Event>, p: Addr, i: nat)
    requires Inv(st) && Agree(st, tr) && Disciplined(tr)
    requires p in st.mem && PhaseIn(st, p) == Out
    requires i < 2 && st.slots[i].intf == 0
    requires st.mem[p].serialNo == st.slots[i].serialNo && st.mem[p].hasOpen && st.mem[p].hasClose
    ensures var mid := Enter(st, i, p);
            Inv(mid) && Agree(mid, tr + [Registered(p)]) && Disciplined(tr + [Registered(p)])
  {
    var mid := Enter(st, i, p);
    assert SlotOk(mid, i) && SlotOk(mid, 1 - i) && SlotOk(mid, 2);
    assert Linked(mid) by {
      forall j | 0 <= j < SLOTS && mid.slots[j].intf != 0
        ensures mid.mem[mid.slots[j].intf].serialNo == mid.slots[j].serialNo
                && mid.mem[mid.slots[j].intf].hasOpen && mid.mem[mid.slots[j].intf].hasClose
      {
        if j != i { assert st.slots[j].intf != 0; }
      }
    }
    OneEvent(st, tr, Registered(p), mid);
  }

  lemma OpenedKeeps(st: State, tr: seq<Event>, i: nat)
    requires Inv(st) && Agree(st, tr) && Disciplined(tr)
    requires i < SLOTS && st.slots[i].intf != 0 && st.mem[st.slots[i].intf].devstate == NotStarted
    requires st.slots[i].oldFromWb == Started || st.slots[i].oldFromWb == StartWithOS
    ensures var p := st.slots[i].intf;
            Sound(World(SetDevstate(st, i, Started), tr + [Opened(p, 0)]))
            && forall ret :: ret != 0 ==> Sound(World(st, tr + [Opened(p, ret)]))
  {
    var p := st.slots[i].intf;
    OneEvent(st, tr, Opened(p, 0), SetDevstate(st, i, Started));
    forall ret | ret != 0 ensures Sound(World(st, tr + [Opened(p, ret)])) {
      OneEvent(st, tr, Opened(p, ret), st);
    }
  }

  /** Registration of an interface that no slot holds. */
  lemma RegisterKeeps(w: World, p: Addr, cb: Callbacks)
    requires Sound(w)
    requires p != 0 && p in w.st.mem && PhaseIn(w.st, p) == Out
    ensures var o := Register(w.st, p, cb); Sound(World(o.st, w.trace + o.events))
  {
    var o := Register(w.st, p, cb);
    if o.events == [] {
      NoEvent(w.st, w.trace, o.st);
    } else {
      var i := SlotOf(w.st.mem[p].serialNo).value;
      EnterKeeps(w.st, w.trace, p, i);
      if |o.events| == 2 {
        OpenedKeeps(Enter(w.st, i, p), w.trace + [Registered(p)], i);
        assert w.trace + [Registered(p)] + [o.events[1]] == w.trace + o.events;
      }
    }
  }

  /** A registration that fails changes nothing on the bus, so it can be retried. */
  lemma FailedRegisterChangesNothing(st: State, p: Addr, cb: Callbacks)
    requires WellFormed(st) && (p != 0 ==> p in st.mem)
    ensures var o := Register(st, p, cb);
            o.status != Success ==> o.st == st && o.events == [] && Register(o.st, p, cb) == o
  {
  }

  /** Slot i is emptied. */
  ghost function Left(st: State, i: nat): State
    requires |st.slots| == SLOTS && i < SLOTS
  {
    Settle(st.(slots := st.slots[i := st.slots[i].(intf := 0)]))
  }

  lemma LeaveInv(st: State, i: nat)
    requires Inv(st) && i < SLOTS && st.slots[i].intf != 0
    ensures Inv(Left(st, i))
  {
    var st' := Left(st, i);
    assert SlotOk(st', i);
  }

  lemma LeavePhase(st: State, i: nat, q: Addr)
    requires Inv(st) && i < SLOTS && st.slots[i].intf != 0 && WellFormed(Left(st, i))
    ensures PhaseIn(Left(st, i), q) == if q == st.slots[i].intf then Out else PhaseIn(st, q)
  {
  }

  lemma LeaveKeeps(st: State, tr: seq<Event>, i: nat)
    requires Inv(st) && i < SLOTS && st.slots[i].intf != 0
    requires Disciplined(tr) && PhaseAfter(tr, st.slots[i].intf).In?
    requires AgreeBut(st, tr, st.slots[i].intf)
    ensures var tr' := tr + [Retired(st.slots[i].intf)];
            Sound(World(Left(st, i), tr')) && PhaseIn(Left(st, i), st.slots[i].intf) == Out
  {
    var p := st.slots[i].intf;
    DisciplinedAppend(tr, Retired(p));
    LeaveInv(st, i);
    LeavePhase(st, i, p);
    forall q: Addr ensures PhaseAfter(tr + [Retired(p)], q) == PhaseIn(Left(st, i), q) {
      PhaseOfAppend(tr, Retired(p), q);
      LeavePhase(st, i, q);
    }
  }

  /** A registered interface sits in the slot of its serial number. */
  lemma OwnSlot(st: State, p: Addr)
    requires Inv(st) && PhaseIn(st, p).In?
    ensures p in st.mem && st.mem[p].serialNo != 0
    ensures var i := SlotOf(st.mem[p].serialNo); i.Some? && st.slots[i.value].intf == p
  {
  }

  lemma ClosedAgrees(w: World, c: Event)
    requires Sound(w) && c.Closed? && PhaseIn(w.st, c.p) == In(Started)
    ensures Disciplined(w.trace + [c]) && PhaseAfter(w.trace + [c], c.p).In? && AgreeBut(w.st, w.trace + [c], c.p)
  {
    PhaseOfAppend(w.trace, c, c.p);
    DisciplinedAppend(w.trace, c);
    forall q: Addr | q != c.p ensures PhaseAfter(w.trace + [c], q) == PhaseIn(w.st, q) {
      PhaseOfAppend(w.trace, c, q);
    }
  }

  lemma CloseThenLeave(w: World, i: nat, c: Event)
    requires Sound(w) && i < SLOTS && StartedAt(w.st, i)
    requires c.Closed? && c.p == w.st.slots[i].intf
    ensures Sound(World(Left(w.st, i), w.trace + [c, Retired(c.p)])) && PhaseIn(Left(w.st, i), c.p) == Out
  {
    ClosedAgrees(w, c);
    LeaveKeeps(w.st, w.trace + [c], i);
    assert w.trace + [c] + [Retired(c.p)] == w.trace + [c, Retired(c.p)];
  }

  lemma UnregisterIs(st: State, p: Addr, i: nat, cb: Callbacks)
    requires Inv(st) && i < SLOTS && p == st.slots[i].intf != 0 && SlotOf(st.mem[p].serialNo) == Some(i)
    ensures Unregister(st, p, cb)
            == Outcome(Left(st, i), Success,
                       if StartedAt(st, i) then [Closed(p, cb.close(st.mem[p].serialNo)), Retired(p)] else [Retired(p)])
  {
    assert st.mem[p].serialNo != 0;
  }

  lemma UnregisterKeeps(w: World, p: Addr, cb: Callbacks)
    requires Sound(w)
    requires p != 0 && p in w.st.mem
    ensures var o := Unregister(w.st, p, cb);
            Sound(World(o.st, w.trace + o.events)) && PhaseIn(o.st, p) == Out && o.st.mem == w.st.mem
  {
    if PhaseIn(w.st, p) == Out {
      assert Settle(w.st) == w.st;
      NoEvent(w.st, w.trace, w.st);
    } else {
      OwnSlot(w.st, p);
      var i := SlotOf(w.st.mem[p].serialNo).value;
      UnregisterIs(w.st, p, i, cb);
      if StartedAt(w.st, i) {
        CloseThenLeave(w, i, Closed(p, cb.close(w.st.mem[p].serialNo)));
      } else {
        LeaveKeeps(w.st, w.trace, i);
      }
    }
  }

  /** Memory changes outside the registered interfaces leave everything in place. */
  lemma OtherMemory(w: World, mem: map<Addr, Interface>)
    requires Sound(w) && 0 !in mem
    requires forall p :: PhaseIn(w.st, p).In? ==> p in mem && mem[p] == w.st.mem[p]
    ensures Sound(World(w.st.(mem := mem), w.trace))
  {
    var st' := w.st.(mem := mem);
    assert forall i :: 0 <= i < SLOTS && st'.slots[i].intf != 0 ==> PhaseIn(w.st, st'.slots[i].intf).In?;
    assert WellFormed(st');
    NoEvent(w.st, w.trace, st');
    assert w.trace + [] == w.trace;
  }

  lemma OpenKeeps(w: World, p: Addr, serial: nat, cb: Callbacks)
    requires Sound(w)
    requires p in w.st.mem && PhaseIn(w.st, p) == Out
    ensures var o := OpenInterface(w.st, p, serial, cb);
            Sound(World(o.st, w.trace + o.events)) && (o.status != Success ==> p !in o.st.mem)
  {
    var w1 := World(Prepared(w.st, p, serial), w.trace);
    OtherMemory(w, w1.st.mem);
    FailedRegisterChangesNothing(w1.st, p, cb);
    RegisterKeeps(w1, p, cb);
    if Register(w1.st, p, cb).status != Success {
      OtherMemory(w1, w1.st.mem - {p});
      assert w.trace + ([] + []) == w.trace;
    }
  }

  lemma CloseKeeps(w: World, p: Addr, cb: Callbacks)
    requires Sound(w) && p in w.st.mem
    ensures var o := CloseInterface(w.st, p, cb);
            Sound(World(o.st, w.trace + o.events)) && p !in o.st.mem
  {
    var o := Unregister(w.st, p, cb);
    UnregisterKeeps(w, p, cb);
    OtherMemory(World(o.st, w.trace + o.events), o.st.mem - {p});
  }

  lemma {:induction false} HotkeyKeeps(w: World, i: nat, v: nat)
    requires Sound(w) && i <= SLOTS
    ensures Sound(World(HotkeyFrom(w.st, i, v), w.trace))
    decreases SLOTS - i
  {
    if i < SLOTS {
      var st' := HotkeyAt(w.st, i, v);
      NoEvent(w.st, w.trace, st');
      assert w.trace + [] == w.trace;
      HotkeyKeeps(World(st', w.trace), i + 1, v);
    }
  }

  lemma {:induction false} AntennaKeeps(w: World, i: nat, v: nat)
    requires Sound(w) && i <= SLOTS
    ensures Sound(World(AntennaFrom(w.st, i, v), w.trace))
    decreases SLOTS - i
  {
    if i < SLOTS {
      var st' := AntennaAt(w.st, i, v);
      NoEvent(w.st, w.trace, st');
      assert w.trace + [] == w.trace;
      AntennaKeeps(World(st', w.trace), i + 1, v);
    }
  }

  lemma IoctlKeeps(w: World, cmd: Cmd, cb: Callbacks)
    requires Sound(w)
    ensures var o := Ioctl(w.st, cmd, cb); Sound(World(o.st, w.trace + o.events))
  {
    var o := Ioctl(w.st, cmd, cb);
    if PassesGate(w.st, cmd) {
      match cmd
      case PlugInHardware(s) => PlugInKeeps(w, s, cb);
      case UnPlugHardware(s) => UnPlugKeeps(w, s, cb);
      case SetHotkey(v) => HotkeyKeeps(w, 0, v); assert w.trace + [] == w.trace;
      case SetAntenna(v) => AntennaKeeps(w, 0, v); assert w.trace + [] == w.trace;
      case _ => NoEvent(w.st, w.trace, o.st);
    } else {
      NoEvent(w.st, w.trace, o.st);
    }
  }

  /** Every step keeps the invariant, the history discipline and their agreement. */
  lemma PerformKeeps(w: World, s: Step)
    requires Sound(w)
    ensures var o := Perform(w.st, s); Sound(World(o.st, w.trace + o.events))
  {
    assert w.trace + [] == w.trace;
    match s.op
    case Alloc(p) =>
      if p != 0 && p !in w.st.mem { OtherMemory(w, NewInterface(w.st, p).mem); }
    case Open(p, serial) =>
      if p in w.st.mem && PhaseIn(w.st, p) == Out { OpenKeeps(w, p, serial, s.cb); }
    case Close(p) =>
      if p in w.st.mem { CloseKeeps(w, p, s.cb); }
    case Ctl(cmd) => IoctlKeeps(w, cmd, s.cb);
  }

  // ---------- runs ----------

  ghost function StepFrom(w: World, s: Step): (r: World)
    requires Sound(w)
    ensures Sound(r)
  {
    PerformKeeps(w, s);
    var o := Perform(w.st, s);
    World(o.st, w.trace + o.events)
  }

  /** The world after a run. */
  ghost function RunFrom(w: World, steps: seq<Step>): (r: World)
    requires Sound(w)
    ensures Sound(r)
    decreases |steps|
  {
    if steps == [] then w else StepFrom(RunFrom(w, steps[..|steps| - 1]), steps[|steps| - 1])
  }

  ghost function Start(): (w: World)
    ensures Sound(w)
  {
    World(InitialState(), [])
  }

  /** Every reachable bus has the invariant; the calls it has made are disciplined, and the
      history alone tells which interfaces are registered and what state their devices are in. */
  lemma ReachableIsSound(steps: seq<Step>, p: Addr)
    ensures var w := RunFrom(Start(), steps);
            && Inv(w.st) && Disciplined(w.trace)
            && (PhaseAfter(w.trace, p).In? <==> Held(w.st, p))
            && (Held(w.st, p) ==> p in w.st.mem && PhaseAfter(w.trace, p) == In(w.st.mem[p].devstate))
  {
    HeldIsPhase(RunFrom(Start(), steps).st, p);
  }
}
