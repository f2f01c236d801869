/** The mode switches do what they say: theorems over the client programs and the bus together. */
module SwitchTheorems {
  import opened BusTypes
  import opened Options
  import opened BusSpec
  import opened BusRuns
  import opened BusProperties
  import opened ClientSpec

  // ---------- the bus as the switches see it ----------

  /** Which drivers are registered and which devices are started. */
  datatype Card = Card(bt: bool, wlan: bool, btUp: bool, wlanUp: bool)

  function CardOf(st: State): Card
    requires WellFormed(st)
  {
    Card(st.slots[0].intf != 0, st.slots[1].intf != 0, StartedAt(st, 0), StartedAt(st, 1))
  }

  function CardMode(c: Card): Mode
  {
    if c.btUp then (if c.wlanUp then BothOn else BtOn) else if c.wlanUp then WlanOn else BothOff
  }

  lemma CardFacts(w: World, g: Mode)
    requires Sound(w)
    ensures var c := CardOf(w.st);
            && (c.btUp ==> c.bt) && (c.wlanUp ==> c.wlan)
            && (CardIn(w.st) <==> c.bt || c.wlan)
            && ModeOf(w.st) == CardMode(c) && Adjusted(g, w.st) == CardMode(c)
            && (DownloadOk(w.st) <==> c.btUp || c.wlanUp)
            && (InUse(w.st) == NONE_STARTED <==> CardIn(w.st) && !c.btUp && !c.wlanUp)
  {
    ViewIsExact(w, g);
  }

  lemma PlugInBt(w: World, cb: Callbacks)
    requires Sound(w)
    ensures var c := CardOf(w.st);
            CardOf(Do(w, PlugInHardware(BT), cb).st) == c.(btUp := c.btUp || (c.bt && cb.open(BT) == 0))
  {
  }

  lemma PlugInWlan(w: World, cb: Callbacks)
    requires Sound(w)
    ensures var c := CardOf(w.st);
            CardOf(Do(w, PlugInHardware(WLAN), cb).st) == c.(wlanUp := c.wlanUp || (c.wlan && cb.open(WLAN) == 0))
  {
  }

  lemma UnPlugBt(w: World, cb: Callbacks)
    requires Sound(w)
    ensures var c := CardOf(w.st);
            CardOf(Do(w, UnPlugHardware(BT), cb).st) == c.(btUp := c.btUp && cb.close(BT) != 0)
  {
  }

  lemma UnPlugWlan(w: World, cb: Callbacks)
    requires Sound(w)
    ensures var c := CardOf(w.st);
            CardOf(Do(w, UnPlugHardware(WLAN), cb).st) == c.(wlanUp := c.wlanUp && cb.close(WLAN) != 0)
  {
  }

  lemma WriteEnumKeepsCard(w: World, m: nat, cb: Callbacks)
    requires Sound(w)
    ensures CardOf(Do(w, WriteEnumMode(m), cb).st) == CardOf(w.st)
  {
    assert Do(w, WriteEnumMode(m), cb).st.slots == w.st.slots;
    assert Do(w, WriteEnumMode(m), cb).st.mem == w.st.mem;
  }

  lemma UnpluggedCard(w: World, cb: Callbacks)
    requires Sound(w)
    ensures var c := CardOf(w.st);
            CardOf(Unplugged(w, CardMode(c), cb).st)
            == c.(btUp := c.btUp && cb.close(BT) != 0, wlanUp := c.wlanUp && cb.close(WLAN) != 0)
  {
    var g := CardMode(CardOf(w.st));
    CardFacts(w, g);
    var w0 := Do(w, WriteEnumMode(0), cb);
    WriteEnumKeepsCard(w, 0, cb);
    UnPlugBt(w0, cb);
    UnPlugWlan(w0, cb);
    UnPlugWlan(Do(w0, UnPlugHardware(BT), cb), cb);
  }

  // ---------- what each switch leaves behind ----------

  /** A switch to one device returns. The other device is down unless its close callback failed;
      the wanted one stays up unless the indirect variant closes it on the way out of
      coexistence, and otherwise comes up if it is registered and opens. g_state tells the truth
      exactly when the other device was down or could be closed. */
  ghost predicate SingleEnds(c: Card, e: Ending, serial: nat, direct: bool, cb: Callbacks)
    requires SoundEnd(e)
  {
    var c' := CardOf(e.w.st);
    var btLeft, wlanLeft := c.btUp && cb.close(BT) != 0, c.wlanUp && cb.close(WLAN) != 0;
    && e.Returned?
    && (serial == BT ==>
          && c' == c.(btUp := btLeft || (c.btUp && (direct || !c.wlanUp)) || (c.bt && cb.open(BT) == 0),
                      wlanUp := wlanLeft)
          && (e.g == CardMode(c') <==> !wlanLeft))
    && (serial == WLAN ==>
          && c' == c.(btUp := btLeft,
                      wlanUp := wlanLeft || (c.wlanUp && (direct || !c.btUp)) || (c.wlan && cb.open(WLAN) == 0))
          && (e.g == CardMode(c') <==> !btLeft))
  }

  lemma DropRivalEnds(w: World, serial: nat, cb: Callbacks)
    requires Sound(w) && (serial == BT || serial == WLAN) && CardMode(CardOf(w.st)) == BothOn
    ensures SingleEnds(CardOf(w.st), DropRival(w, serial, cb), serial, true, cb)
  {
    CardFacts(w, BothOff);
    UnPlugBt(w, cb);
    UnPlugWlan(w, cb);
    WriteEnumKeepsCard(Do(w, UnPlugHardware(BT), cb), 2, cb);
  }

  lemma PlugAloneEnds(w: World, mode: Option<nat>, serial: nat, direct: bool, cb: Callbacks)
    requires Sound(w) && (serial == BT || serial == WLAN)
    requires CardMode(CardOf(w.st)) != (if serial == BT then BtOn else WlanOn)
    requires direct ==> CardMode(CardOf(w.st)) != BothOn
    ensures SingleEnds(CardOf(w.st), PlugAlone(w, CardMode(CardOf(w.st)), mode, serial, cb), serial, direct, cb)
  {
    CardFacts(w, BothOff);
    var w1 := Unplugged(w, CardMode(CardOf(w.st)), cb);
    UnpluggedCard(w, cb);
    if mode.Some? { WriteEnumKeepsCard(w1, mode.value, cb); }
    var w2 := if mode.None? then w1 else Do(w1, WriteEnumMode(mode.value), cb);
    if serial == BT { PlugInBt(w2, cb); } else { PlugInWlan(w2, cb); }
    CardFacts(Do(w2, PlugInHardware(serial), cb), BothOff);
  }

  /** Every switch to one device, in both variants, for every card and every callback result. */
  lemma SingleEnd(w: World, g0: Mode, direct: bool, serial: nat, enumMode: nat, cb: Callbacks)
    requires Sound(w) && (serial == BT || serial == WLAN)
    ensures SingleEnds(CardOf(w.st), SingleSwitch(w, g0, direct, serial, enumMode, cb), serial, direct, cb)
  {
    CardFacts(w, g0);
    var g := Adjusted(g0, w.st);
    var own := if serial == BT then BtOn else WlanOn;
    if CardIn(w.st) && g != own {
      if direct && g == BothOn {
        DropRivalEnds(w, serial, cb);
      } else {
        PlugAloneEnds(w, if direct && serial == BT then None else Some(enumMode), serial, direct, cb);
      }
    }
  }

  /** How a switch to coexistence ends. It waits for ever exactly when Bluetooth could not be
      closed and WLAN does not come up; otherwise g_state tells the truth exactly when WLAN
      failed too or Bluetooth came up. */
  lemma WlanThenBtEnds(w: World, cb: Callbacks)
    requires Sound(w)
    ensures var c := CardOf(w.st);
            var e := WlanThenBt(w, cb);
            var c' := CardOf(e.w.st);
            && c'.bt == c.bt && c'.wlan == c.wlan
            && c'.wlanUp == (c.wlanUp || (c.wlan && cb.open(WLAN) == 0))
            && (e.Waits? <==> !c'.wlanUp && c.btUp)
            && (e.Returned? ==>
                  && (e.g == CardMode(c') <==> !c'.wlanUp || c'.btUp)
                  && c'.btUp == (c.btUp || (c.bt && cb.open(BT) == 0 && c'.wlanUp)))
  {
    var w1 := Do(w, PlugInHardware(WLAN), cb);
    CardFacts(w, BothOff);
    PlugInWlan(w, cb);
    CardFacts(w1, BothOff);
    PlugInBt(w1, cb);
  }

  lemma AddOneEnds(w: World, serial: nat, cb: Callbacks)
    requires Sound(w)
    ensures var w1 := Do(w, WriteEnumMode(3), cb);
            var c := CardOf(w.st);
            && CardOf(w1.st) == c
            && CardOf(Do(w1, PlugInHardware(WLAN), cb).st) == c.(wlanUp := c.wlanUp || (c.wlan && cb.open(WLAN) == 0))
            && CardOf(Do(w1, PlugInHardware(BT), cb).st) == c.(btUp := c.btUp || (c.bt && cb.open(BT) == 0))
  {
    WriteEnumKeepsCard(w, 3, cb);
    PlugInWlan(Do(w, WriteEnumMode(3), cb), cb);
    PlugInBt(Do(w, WriteEnumMode(3), cb), cb);
  }

  /** Both devices can be brought up. */
  predicate BothCome(c: Card, cb: Callbacks)
  {
    (c.btUp || (c.bt && cb.open(BT) == 0)) && (c.wlanUp || (c.wlan && cb.open(WLAN) == 0))
  }

  /** The direct switch to coexistence always returns, and what it leaves is determined by the
      card and the callbacks. With one device started it claims success whatever becomes of the
      second, so it tells the truth exactly when that one comes up. */
  lemma DirectCoexistEnd(w: World, g0: Mode, cb: Callbacks)
    requires Sound(w)
    ensures var c := CardOf(w.st);
            var e := CoexistSwitch(w, g0, true, cb);
            var c' := CardOf(e.w.st);
            var wl := c.wlanUp || (c.wlan && cb.open(WLAN) == 0);
            && e.Returned? && c' == c.(btUp := c.btUp || (c.bt && cb.open(BT) == 0 && wl), wlanUp := wl)
            && (c.btUp != c.wlanUp ==> (e.g == CardMode(c') <==> BothCome(c, cb)))
            && (c.btUp == c.wlanUp ==>
                  (e.g == CardMode(c') <==> BothCome(c, cb) || !wl))
            && (BothCome(c, cb) ==> e.g == BothOn)
  {
    CardFacts(w, g0);
    var w1 := Do(w, WriteEnumMode(3), cb);
    AddOneEnds(w, WLAN, cb);
    WlanThenBtEnds(w1, cb);
    CardFacts(Do(w1, PlugInHardware(WLAN), cb), BtOn);
    CardFacts(Do(w1, PlugInHardware(BT), cb), WlanOn);
  }

  /** The indirect switch waits for ever exactly when Bluetooth alone is started, its close
      callback fails, and WLAN does not come up either. What it leaves is determined by the card
      and the callbacks: nothing changes when both devices are started; otherwise each is closed
      if it can be, WLAN is opened, and Bluetooth after it. g_state tells the truth exactly when
      WLAN stays down or Bluetooth is up. */
  lemma IndirectCoexistEnd(w: World, g0: Mode, cb: Callbacks)
    requires Sound(w)
    ensures var c := CardOf(w.st);
            var e := CoexistSwitch(w, g0, false, cb);
            var both := c.btUp && c.wlanUp;
            var wl := both || (c.wlanUp && cb.close(WLAN) != 0) || (c.wlan && cb.open(WLAN) == 0);
            var bt := both || (c.btUp && cb.close(BT) != 0) || (c.bt && cb.open(BT) == 0 && wl);
            var c' := CardOf(e.w.st);
            && c' == c.(btUp := bt, wlanUp := wl)
            && (e.Waits? <==> c.btUp && !c.wlanUp && cb.close(BT) != 0 && !(c.wlan && cb.open(WLAN) == 0))
            && (e.Returned? ==> (e.g == CardMode(c') <==> !wl || bt))
            && (c.bt && c.wlan && cb.open(BT) == 0 && cb.open(WLAN) == 0 ==> e.Returned? && e.g == BothOn && bt && wl)
  {
    CardFacts(w, g0);
    UnpluggedCard(w, cb);
    var w1 := Unplugged(w, CardMode(CardOf(w.st)), cb);
    WriteEnumKeepsCard(w1, 3, cb);
    WlanThenBtEnds(Do(w1, WriteEnumMode(3), cb), cb);
  }

  lemma UnplugEnd(w: World, g0: Mode, cb: Callbacks)
    requires Sound(w)
    ensures var c := CardOf(w.st);
            var e := UnplugSwitch(w, g0, cb);
            var c' := CardOf(e.w.st);
            && e.Returned? && e.g == BothOff
            && c' == c.(btUp := c.btUp && cb.close(BT) != 0, wlanUp := c.wlanUp && cb.close(WLAN) != 0)
  {
    CardFacts(w, g0);
    UnpluggedCard(w, cb);
  }

  lemma OneDeviceCard(serial: nat, cb: Callbacks)
    requires (serial == BT || serial == WLAN) && cb.open(serial) == 0
    ensures CardOf(RunFrom(Start(), OneDevice(serial, cb)).st)
            == Card(serial == BT, serial == WLAN, serial == BT, serial == WLAN)
  {
    OneDeviceUp(if serial == BT then 0 else 1, cb);
  }

  /** These ends are met. With Bluetooth alone registered and started, and a close callback that
      fails: the switch to WLAN names WLAN although Bluetooth is running, the direct switch to
      coexistence names both, and the indirect one waits for ever. With WLAN alone the indirect
      switch to coexistence names both, even when every callback succeeds. */
  lemma ClaimsCanBeWrong(g0: Mode, direct: bool, cb: Callbacks, good: Callbacks)
    requires cb.open(BT) == 0 && cb.close(BT) != 0 && AllCallsSucceed(good)
    ensures var w := RunFrom(Start(), OneDevice(BT, cb));
            && (var e := WlanSwitch(w, g0, direct, cb); e.Returned? && e.g != ModeOf(e.w.st))
            && (var e := CoexistSwitch(w, g0, true, cb); e.Returned? && e.g != ModeOf(e.w.st))
            && CoexistSwitch(w, g0, false, cb).Waits?
    ensures var w := RunFrom(Start(), OneDevice(WLAN, good));
            var e := CoexistSwitch(w, g0, false, good); e.Returned? && e.g != ModeOf(e.w.st)
  {
    var w := RunFrom(Start(), OneDevice(BT, cb));
    OneDeviceCard(BT, cb);
    SingleEnd(w, g0, direct, WLAN, 2, cb);
    DirectCoexistEnd(w, g0, cb);
    IndirectCoexistEnd(w, g0, cb);
    CardFacts(WlanSwitch(w, g0, direct, cb).w, g0);
    CardFacts(CoexistSwitch(w, g0, true, cb).w, g0);
    var w' := RunFrom(Start(), OneDevice(WLAN, good));
    OneDeviceCard(WLAN, good);
    IndirectCoexistEnd(w', g0, good);
    CardFacts(CoexistSwitch(w', g0, false, good).w, g0);
  }

  // ---------- the order of the calls ----------

  /** Leaving coexistence, Bluetooth is closed before WLAN. */
  lemma BluetoothClosesFirst(w: World, g0: Mode, cb: Callbacks)
    requires Sound(w) && CardMode(CardOf(w.st)) == BothOn
    ensures UnplugSwitch(w, g0, cb).w.trace
            == w.trace + [Closed(w.st.slots[0].intf, cb.close(BT)), Closed(w.st.slots[1].intf, cb.close(WLAN))]
  {
    CardFacts(w, g0);
    var w0 := Do(w, WriteEnumMode(0), cb);
    WriteEnumKeepsCard(w, 0, cb);
    ClosesBt(w0, cb);
    ClosesWlan(Do(w0, UnPlugHardware(BT), cb), cb);
    UnPlugBt(w0, cb);
    assert w0.trace == w.trace;
  }

  lemma ClosesBt(w: World, cb: Callbacks)
    requires Sound(w) && CardOf(w.st).btUp
    ensures var r := Do(w, UnPlugHardware(BT), cb);
            && r.trace == w.trace + [Closed(w.st.slots[0].intf, cb.close(BT))]
            && r.st.slots[1].intf == w.st.slots[1].intf
  {
  }

  lemma ClosesWlan(w: World, cb: Callbacks)
    requires Sound(w) && CardOf(w.st).wlanUp
    ensures Do(w, UnPlugHardware(WLAN), cb).trace == w.trace + [Closed(w.st.slots[1].intf, cb.close(WLAN))]
  {
  }

  // ---------- the enum mode a switch leaves behind ----------

  lemma EnumModeAfter(w: World, cmd: Cmd, cb: Callbacks)
    requires Sound(w) && CardIn(w.st)
    requires cmd.WriteEnumMode? || cmd == PlugInHardware(BT) || cmd == PlugInHardware(WLAN)
             || cmd == UnPlugHardware(BT) || cmd == UnPlugHardware(WLAN)
    ensures var st := Do(w, cmd, cb).st;
            CardIn(st) && st.enumMode == if cmd.WriteEnumMode? then cmd.mode else w.st.enumMode
  {
  }

  lemma EnumModeUnplugged(w: World, g: Mode, cb: Callbacks)
    requires Sound(w) && CardIn(w.st)
    ensures var st := Unplugged(w, g, cb).st;
            CardIn(st) && st.enumMode == if g == BothOff || InUse(w.st) == NONE_STARTED then w.st.enumMode else 0
  {
    var w0 := Do(w, WriteEnumMode(0), cb);
    EnumModeAfter(w, WriteEnumMode(0), cb);
    EnumModeAfter(w0, UnPlugHardware(BT), cb);
    EnumModeAfter(w0, UnPlugHardware(WLAN), cb);
    EnumModeAfter(Do(w0, UnPlugHardware(BT), cb), UnPlugHardware(WLAN), cb);
  }

  lemma EnumModeWlanThenBt(w: World, cb: Callbacks)
    requires Sound(w) && CardIn(w.st)
    ensures WlanThenBt(w, cb).w.st.enumMode == w.st.enumMode
  {
    EnumModeAfter(w, PlugInHardware(WLAN), cb);
    EnumModeAfter(Do(w, PlugInHardware(WLAN), cb), PlugInHardware(BT), cb);
  }

  lemma EnumModeSingle(w: World, g: Mode, mode: Option<nat>, serial: nat, cb: Callbacks)
    requires Sound(w) && CardIn(w.st) && (serial == BT || serial == WLAN)
    ensures PlugAlone(w, g, mode, serial, cb).w.st.enumMode
            == if mode.Some? then mode.value else Unplugged(w, g, cb).st.enumMode
  {
    var w1 := Unplugged(w, g, cb);
    EnumModeUnplugged(w, g, cb);
    if mode.Some? { EnumModeAfter(w1, WriteEnumMode(mode.value), cb); }
    EnumModeAfter(if mode.None? then w1 else Do(w1, WriteEnumMode(mode.value), cb), PlugInHardware(serial), cb);
  }

  lemma EnumModeDropRival(w: World, serial: nat, cb: Callbacks)
    requires Sound(w) && CardIn(w.st)
    ensures DropRival(w, serial, cb).w.st.enumMode == if serial == BT then w.st.enumMode else 2
  {
    EnumModeAfter(w, UnPlugHardware(WLAN), cb);
    EnumModeAfter(w, UnPlugHardware(BT), cb);
    EnumModeAfter(Do(w, UnPlugHardware(BT), cb), WriteEnumMode(2), cb);
  }

  lemma EnumModeCoexist(w: World, g: Mode, direct: bool, cb: Callbacks)
    requires Sound(w) && CardIn(w.st)
    ensures (if direct then AddMissing(w, g, cb) else Rebuild(w, g, cb)).w.st.enumMode == 3
  {
    var w1 := if direct then w else Unplugged(w, g, cb);
    EnumModeUnplugged(w, g, cb);
    var w2 := Do(w1, WriteEnumMode(3), cb);
    EnumModeAfter(w1, WriteEnumMode(3), cb);
    EnumModeAfter(w2, PlugInHardware(BT), cb);
    EnumModeAfter(w2, PlugInHardware(WLAN), cb);
    EnumModeWlanThenBt(w2, cb);
  }

  /** A switch that has something to do leaves the number of the new mode as the enum mode: 1, 2, 3, and 0 for
      none - but for the direct switch to Bluetooth, which leaves 0 when it had to unplug WLAN and
      otherwise does not write it. */
  lemma EnumModeLeft(w: World, g0: Mode, direct: bool, want: Mode, cb: Callbacks)
    requires Sound(w) && want != Undefined && CardIn(w.st) && CardMode(CardOf(w.st)) != want
    ensures Switch(w, g0, direct, want, cb).w.st.enumMode ==
              match want
              case BtOn => if !direct then 1 else if CardMode(CardOf(w.st)) == WlanOn then 0 else w.st.enumMode
              case WlanOn => 2
              case BothOn => 3
              case BothOff => 0
  {
    CardFacts(w, g0);
    var g := CardMode(CardOf(w.st));
    EnumModeUnplugged(w, g, cb);
    match want {
      case BtOn =>
        EnumModeDropRival(w, BT, cb);
        EnumModeSingle(w, g, if direct then None else Some(1), BT, cb);
      case WlanOn =>
        EnumModeDropRival(w, WLAN, cb);
        EnumModeSingle(w, g, Some(2), WLAN, cb);
      case BothOn => EnumModeCoexist(w, g, direct, cb);
      case BothOff =>
    }
  }

  // ---------- the main theorems ----------

  predicate AllCallsSucceed(cb: Callbacks)
  {
    cb.open(BT) == 0 && cb.open(WLAN) == 0 && cb.close(BT) == 0 && cb.close(WLAN) == 0
  }

  /** With both drivers registered and callbacks that succeed, every switch, in either variant
      and from any reachable bus, returns; the started devices are then exactly the requested
      ones, g_state names them, and both drivers are still registered. */
  lemma SwitchReachesMode(w: World, g0: Mode, direct: bool, want: Mode, cb: Callbacks)
    requires Sound(w) && CardOf(w.st).bt && CardOf(w.st).wlan && AllCallsSucceed(cb) && want != Undefined
    ensures var e := Switch(w, g0, direct, want, cb);
            e.Returned? && e.g == want && ModeOf(e.w.st) == want && CardOf(e.w.st).bt && CardOf(e.w.st).wlan
  {
    var e := Switch(w, g0, direct, want, cb);
    match want {
      case BtOn => SingleEnd(w, g0, direct, BT, 1, cb);
      case WlanOn => SingleEnd(w, g0, direct, WLAN, 2, cb);
      case BothOn =>
        CardFacts(w, g0);
        if direct { DirectCoexistEnd(w, g0, cb); } else { IndirectCoexistEnd(w, g0, cb); }
      case BothOff => UnplugEnd(w, g0, cb);
    }
    CardFacts(e.w, g0);
  }

  /** The two variants of a switch end with the same devices started and the same g_state. */
  lemma VariantsAgree(w: World, g: Mode, g': Mode, want: Mode, cb: Callbacks)
    requires Sound(w) && CardOf(w.st).bt && CardOf(w.st).wlan && AllCallsSucceed(cb) && want != Undefined
    ensures var a := Switch(w, g, true, want, cb);
            var b := Switch(w, g', false, want, cb);
            && a.Returned? && b.Returned? && a.g == b.g
            && StartedAt(a.w.st, 0) == StartedAt(b.w.st, 0) && StartedAt(a.w.st, 1) == StartedAt(b.w.st, 1)
  {
    SwitchReachesMode(w, g, true, want, cb);
    SwitchReachesMode(w, g', false, want, cb);
  }

  datatype Request = Request(want: Mode, direct: bool)

  /** Any number of switches in turn. */
  ghost function Serve(w: World, g: Mode, requests: seq<Request>, cb: Callbacks): (e: Ending)
    requires Sound(w)
    requires forall r :: r in requests ==> r.want != Undefined
    ensures SoundEnd(e)
    decreases |requests|
  {
    if requests == [] then Returned(g, w)
    else
      var e := Switch(w, g, requests[0].direct, requests[0].want, cb);
      if e.Waits? then e else Serve(e.w, e.g, requests[1..], cb)
  }

  /** The tool's g_state is the truth after every sequence of requests. */
  lemma {:induction false} SequenceReachesLast(w: World, g: Mode, requests: seq<Request>, cb: Callbacks)
    requires Sound(w) && CardOf(w.st).bt && CardOf(w.st).wlan && AllCallsSucceed(cb)
    requires requests != [] && forall r :: r in requests ==> r.want != Undefined
    ensures var e := Serve(w, g, requests, cb);
            var last := requests[|requests| - 1].want;
            e.Returned? && e.g == last && ModeOf(e.w.st) == last
    decreases |requests|
  {
    var e := Switch(w, g, requests[0].direct, requests[0].want, cb);
    SwitchReachesMode(w, g, requests[0].direct, requests[0].want, cb);
    if |requests| > 1 {
      var rest := requests[1..];
      assert rest[|rest| - 1] == requests[|requests| - 1];
      SequenceReachesLast(e.w, e.g, rest, cb);
    }
  }

  // ---------- the direct variant spares what it can ----------

  /** w' comes after w, with the same drivers registered, and the only devices closed in between
      are those in slots allowed by bt and wlan. */
  ghost predicate ClosesOnly(w: World, w': World, bt: bool, wlan: bool)
    requires Sound(w) && Sound(w')
  {
    && |w.trace| <= |w'.trace| && w'.trace[..|w.trace|] == w.trace
    && w'.st.slots[0].intf == w.st.slots[0].intf && w'.st.slots[1].intf == w.st.slots[1].intf
    && forall k :: |w.trace| <= k < |w'.trace| && w'.trace[k].Closed? ==>
         (bt && w'.trace[k].p == w.st.slots[0].intf) || (wlan && w'.trace[k].p == w.st.slots[1].intf)
  }

  lemma ClosesOnlyChain(w: World, w1: World, w2: World, bt: bool, wlan: bool)
    requires Sound(w) && Sound(w1) && Sound(w2) && ClosesOnly(w, w1, bt, wlan) && ClosesOnly(w1, w2, bt, wlan)
    ensures ClosesOnly(w, w2, bt, wlan)
  {
    assert w2.trace[..|w.trace|] == w1.trace[..|w.trace|];
    forall k | |w.trace| <= k < |w1.trace| ensures w2.trace[k] == w1.trace[k] {
      assert w2.trace[..|w1.trace|][k] == w2.trace[k];
    }
  }

  lemma AppendedCloses(w: World, w': World, bt: bool, wlan: bool, events: seq<Event>)
    requires Sound(w) && Sound(w') && w'.trace == w.trace + events
    requires w'.st.slots[0].intf == w.st.slots[0].intf && w'.st.slots[1].intf == w.st.slots[1].intf
    requires forall k :: 0 <= k < |events| && events[k].Closed? ==>
               (bt && events[k].p == w.st.slots[0].intf) || (wlan && events[k].p == w.st.slots[1].intf)
    ensures ClosesOnly(w, w', bt, wlan)
  {
    forall k | |w.trace| <= k < |w'.trace| && w'.trace[k].Closed?
      ensures (bt && w'.trace[k].p == w.st.slots[0].intf) || (wlan && w'.trace[k].p == w.st.slots[1].intf)
    {
      assert w'.trace[k] == events[k - |w.trace|];
    }
  }

  lemma DoCloses(w: World, cmd: Cmd, cb: Callbacks)
    requires Sound(w)
    requires cmd.WriteEnumMode? || cmd == PlugInHardware(BT) || cmd == PlugInHardware(WLAN)
             || cmd == UnPlugHardware(BT) || cmd == UnPlugHardware(WLAN)
    ensures ClosesOnly(w, Do(w, cmd, cb), cmd == UnPlugHardware(BT), cmd == UnPlugHardware(WLAN))
  {
    AppendedCloses(w, Do(w, cmd, cb), cmd == UnPlugHardware(BT), cmd == UnPlugHardware(WLAN),
                   Ioctl(w.st, cmd, cb).events);
  }

  lemma UnpluggedCloses(w: World, g: Mode, cb: Callbacks)
    requires Sound(w)
    ensures ClosesOnly(w, Unplugged(w, g, cb), g == BtOn || g == BothOn, g == WlanOn || g == BothOn)
  {
    if g != BothOff && CardIn(w.st) && InUse(w.st) != NONE_STARTED {
      WriteThenClose(w, cb);
      DoCloses(w, WriteEnumMode(0), cb);
      if g == BothOn { WriteThenCloseBoth(w, cb); }
    }
  }

  lemma WriteThenClose(w: World, cb: Callbacks)
    requires Sound(w)
    ensures var w0 := Do(w, WriteEnumMode(0), cb);
            && ClosesOnly(w, Do(w0, UnPlugHardware(BT), cb), true, false)
            && ClosesOnly(w, Do(w0, UnPlugHardware(WLAN), cb), false, true)
  {
    var w0 := Do(w, WriteEnumMode(0), cb);
    DoCloses(w, WriteEnumMode(0), cb);
    DoCloses(w0, UnPlugHardware(BT), cb);
    DoCloses(w0, UnPlugHardware(WLAN), cb);
    ClosesOnlyChain(w, w0, Do(w0, UnPlugHardware(BT), cb), true, false);
    ClosesOnlyChain(w, w0, Do(w0, UnPlugHardware(WLAN), cb), false, true);
  }

  lemma WriteThenCloseBoth(w: World, cb: Callbacks)
    requires Sound(w)
    ensures var w1 := Do(Do(w, WriteEnumMode(0), cb), UnPlugHardware(BT), cb);
            ClosesOnly(w, Do(w1, UnPlugHardware(WLAN), cb), true, true)
  {
    var w1 := Do(Do(w, WriteEnumMode(0), cb), UnPlugHardware(BT), cb);
    WriteThenClose(w, cb);
    DoCloses(w1, UnPlugHardware(WLAN), cb);
    ClosesOnlyChain(w, w1, Do(w1, UnPlugHardware(WLAN), cb), true, true);
  }

  lemma PlugAloneCloses(w: World, g: Mode, mode: Option<nat>, serial: nat, cb: Callbacks)
    requires Sound(w) && (serial == BT || serial == WLAN)
    ensures ClosesOnly(w, PlugAlone(w, g, mode, serial, cb).w, g == BtOn || g == BothOn, g == WlanOn || g == BothOn)
  {
    var bt, wlan := g == BtOn || g == BothOn, g == WlanOn || g == BothOn;
    var w1 := Unplugged(w, g, cb);
    UnpluggedCloses(w, g, cb);
    var w2 := if mode.None? then w1 else Do(w1, WriteEnumMode(mode.value), cb);
    if mode.Some? {
      DoCloses(w1, WriteEnumMode(mode.value), cb);
      ClosesOnlyChain(w, w1, w2, bt, wlan);
    }
    DoCloses(w2, PlugInHardware(serial), cb);
    ClosesOnlyChain(w, w2, Do(w2, PlugInHardware(serial), cb), bt, wlan);
  }

  lemma DropRivalCloses(w: World, serial: nat, cb: Callbacks)
    requires Sound(w) && (serial == BT || serial == WLAN)
    ensures ClosesOnly(w, DropRival(w, serial, cb).w, serial == WLAN, serial == BT)
  {
    DoCloses(w, UnPlugHardware(BT), cb);
    DoCloses(w, UnPlugHardware(WLAN), cb);
    if serial == WLAN {
      var w1 := Do(w, UnPlugHardware(BT), cb);
      DoCloses(w1, WriteEnumMode(2), cb);
      ClosesOnlyChain(w, w1, Do(w1, WriteEnumMode(2), cb), true, false);
    }
  }

  lemma WlanThenBtCloses(w: World, cb: Callbacks)
    requires Sound(w)
    ensures ClosesOnly(w, WlanThenBt(w, cb).w, false, false)
  {
    var w1 := Do(w, PlugInHardware(WLAN), cb);
    DoCloses(w, PlugInHardware(WLAN), cb);
    DoCloses(w1, PlugInHardware(BT), cb);
    ClosesOnlyChain(w, w1, Do(w1, PlugInHardware(BT), cb), false, false);
  }

  lemma AddMissingCloses(w: World, g: Mode, cb: Callbacks)
    requires Sound(w)
    ensures ClosesOnly(w, AddMissing(w, g, cb).w, false, false)
  {
    var w1 := Do(w, WriteEnumMode(3), cb);
    AddCloses(w, BT, cb);
    AddCloses(w, WLAN, cb);
    DoCloses(w, WriteEnumMode(3), cb);
    WlanThenBtCloses(w1, cb);
    ClosesOnlyChain(w, w1, WlanThenBt(w1, cb).w, false, false);
  }

  lemma DirectCoexistCloses(w: World, g0: Mode, cb: Callbacks)
    requires Sound(w)
    ensures ClosesOnly(w, CoexistSwitch(w, g0, true, cb).w, false, false)
  {
    AddMissingCloses(w, Adjusted(g0, w.st), cb);
  }

  lemma AddCloses(w: World, serial: nat, cb: Callbacks)
    requires Sound(w) && (serial == BT || serial == WLAN)
    ensures ClosesOnly(w, Do(Do(w, WriteEnumMode(3), cb), PlugInHardware(serial), cb), false, false)
  {
    var w1 := Do(w, WriteEnumMode(3), cb);
    DoCloses(w, WriteEnumMode(3), cb);
    DoCloses(w1, PlugInHardware(serial), cb);
    ClosesOnlyChain(w, w1, Do(w1, PlugInHardware(serial), cb), false, false);
  }

  lemma DirectSingleCloses(w: World, g0: Mode, serial: nat, enumMode: nat, cb: Callbacks)
    requires Sound(w) && (serial == BT || serial == WLAN)
    ensures var c := CardOf(w.st);
            ClosesOnly(w, SingleSwitch(w, g0, true, serial, enumMode, cb).w,
                       c.btUp && serial != BT, c.wlanUp && serial != WLAN)
  {
    CardFacts(w, g0);
    var g := Adjusted(g0, w.st);
    if g == BothOn {
      DropRivalCloses(w, serial, cb);
    } else {
      PlugAloneCloses(w, g, if serial == BT then None else Some(enumMode), serial, cb);
    }
  }

  /** The devices a direct switch may close: those started now and not wanted. */
  lemma DirectSwitchCloses(w: World, g0: Mode, want: Mode, cb: Callbacks)
    requires Sound(w) && want != Undefined
    ensures var c := CardOf(w.st);
            ClosesOnly(w, Switch(w, g0, true, want, cb).w,
                       c.btUp && want != BtOn && want != BothOn, c.wlanUp && want != WlanOn && want != BothOn)
  {
    match want {
      case BothOn => DirectCoexistCloses(w, g0, cb);
      case BtOn => DirectSingleCloses(w, g0, BT, 1, cb);
      case WlanOn => DirectSingleCloses(w, g0, WLAN, 2, cb);
      case BothOff =>
        CardFacts(w, g0);
        UnpluggedCloses(w, Adjusted(g0, w.st), cb);
    }
  }

  lemma TwoSlotsTwoBlocks(st: State)
    requires Inv(st) && st.slots[0].intf != 0
    ensures st.slots[0].intf != st.slots[1].intf
  {
  }

  /** Whether the callbacks succeed or not, the direct variant never closes a device that
      belongs both to the mode it leaves and to the mode it is asked for. */
  lemma DirectSparesShared(w: World, g0: Mode, want: Mode, cb: Callbacks, k: nat)
    requires Sound(w) && want != Undefined
    ensures var e := Switch(w, g0, true, want, cb);
            var btShared := StartedAt(w.st, 0) && (want == BtOn || want == BothOn);
            var wlanShared := StartedAt(w.st, 1) && (want == WlanOn || want == BothOn);
            && |w.trace| <= |e.w.trace|
            && (|w.trace| <= k < |e.w.trace| && e.w.trace[k].Closed? ==>
                  && (btShared ==> e.w.trace[k].p != w.st.slots[0].intf)
                  && (wlanShared ==> e.w.trace[k].p != w.st.slots[1].intf))
  {
    DirectSwitchCloses(w, g0, want, cb);
    if StartedAt(w.st, 0) { TwoSlotsTwoBlocks(w.st); }
  }
}
