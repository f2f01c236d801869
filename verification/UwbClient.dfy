/** The mode switches as they run: globals, ioctls and polling loops
    (applications/uwb/src/main.c, applications/uwb/src/callbacks.c; the command-line tool in
    applications/uwbtool has the same query, unplug and wait routines). Menus, icons,
    notifications and sleeps are left out. Before every ioctl the outside world takes the steps
    its schedule holds for that moment; the world is quiet when the schedule is empty. */
module UwbClient {
  import opened BusTypes
  import opened Options
  import opened BusSpec
  import opened BusRuns
  import opened ClientSpec
  import B = BusDriver
  import Interference

  class UwbClient {
    const bus: B.BusDriver
    const schedule: seq<seq<Step>>
    var now: nat                   // ioctls issued so far
    var gState: Mode               // g_state
    var isCardIn: bool             // g_iscardin
    var currentSerialNo: nat       // g_currentserialno
    var busPowerState: nat         // g_buspowerstate
    var dspPnpState: nat           // g_dsppnpstate
    var busResetFlag: nat          // g_busresetflag
    var clickingInProgress: bool   // g_isclickinginprogress
    var menuClicked: bool          // g_ismenuclicked
    var directly: bool             // g_bDirectlyFlag
    var rawEnumMode: int           // g_rawenummode
    var defaultMode: int           // g_defaultmode

    ghost function W(): World
      reads this, bus, bus.deviceData
    {
      World(bus.St(), bus.trace)
    }

    ghost predicate Valid()
      reads this, bus, bus.deviceData
    {
      bus.Valid() && Sound(W())
    }

    predicate Quiet() { schedule == [] }

    constructor (bus: B.BusDriver, schedule: seq<seq<Step>>)
      requires bus.Valid() && Sound(World(bus.St(), bus.trace))
      ensures Valid() && this.bus == bus && this.schedule == schedule
      ensures gState == Undefined && !clickingInProgress && !menuClicked && !directly
    {
      this.bus := bus;
      this.schedule := schedule;
      now := 0;
      gState := Undefined;
      isCardIn, currentSerialNo, busPowerState, dspPnpState, busResetFlag := false, 0, 0, 0, 0;
      clickingInProgress, menuClicked, directly := false, false, false;
      rawEnumMode, defaultMode := 0, 0;
    }

    /** The outside world's turn. */
    method Elapse()
      requires Valid()
      modifies this`now, bus, bus.deviceData
      ensures Valid() && (Quiet() ==> W() == old(W())) && now == old(now) + 1
    {
      if now < |schedule| {
        Interference.PerformAll(bus, schedule[now]);
      }
      now := now + 1;
    }

    /** ioctl_device; ok is false when the library call returns -1. */
    method IoctlDevice(cmd: Cmd, cb: Callbacks) returns (ok: bool, answer: nat)
      requires Valid()
      modifies this`now, bus, bus.deviceData
      ensures Valid() && now == old(now) + 1
      ensures Quiet() ==> W() == Do(old(W()), cmd, cb)
      ensures Quiet() ==> ok == PassesGate(old(W()).st, cmd)
      ensures IsQuery(cmd) ==> ok == PassesGate(W().st, cmd) && (ok ==> answer == Answer(W().st, cmd))
      ensures Quiet() && IsQuery(cmd) ==> W() == old(W())
      ensures cmd.ReadEnumMode? ==> ok == CardIn(W().st) && (ok ==> answer == EnumAnswer(W().st))
    {
      Elapse();
      ghost var w := W();
      PerformKeeps(w, Step(Op.Ctl(cmd), cb));
      var status, a := bus.UnlockedIoctl(true, cmd, cb);
      ok := status != Efault;
      answer := a;
      if cmd.ReadEnumMode? { EnumAnswerStays(w, cb); }
      StatusIsEfault(w.st, cmd, cb);
      if IsQuery(cmd) { QueryKeeps(w, cmd, cb); }
    }

    /** tdsp_query_device */
    method QueryDevice(cb: Callbacks)
      requires Valid()
      modifies this`now, this`isCardIn, this`currentSerialNo, bus, bus.deviceData
      ensures Valid() && (Quiet() ==> W() == old(W()))
      ensures isCardIn == CardIn(W().st)
      ensures currentSerialNo == if isCardIn then InUse(W().st) else NO_CARD
    {
      isCardIn := false;
      currentSerialNo := NO_CARD;
      var ok, ret := IoctlDevice(DisplayInUse, cb);
      if !ok { return; }
      currentSerialNo := ret;
      isCardIn := true;
    }

    /** initial_wb_defaultmode: at start-up the default mode becomes that of the started devices, if it is an allowed
        one, and none otherwise; it stays as it was without a card, or with a device nobody has used. */
    method InitialDefaultMode(allowed: seq<bool>, cb: Callbacks) returns (ret: int)
      requires Valid() && |allowed| == 3
      modifies this`now, this`rawEnumMode, this`defaultMode, bus, bus.deviceData
      ensures Valid() && (ret == 0 || ret == -1)
      ensures ret == -1 <==> !CardIn(W().st) || EnumAnswer(W().st) == 0xFFFFFFFF
      ensures ret == -1 ==> defaultMode == old(defaultMode)
      ensures ret == 0 ==> rawEnumMode == defaultMode && var bits := StartedBits(W().st);
                           0 <= bits <= 3 && defaultMode == if bits != 0 && allowed[bits - 1] then bits else 0
    {
      var ok, answer := IoctlDevice(ReadEnumMode, cb);
      EnumRange(W());
      if !ok { return -1; }
      var mode := if answer == 0xFFFFFFFF then -1 else answer;   // an unsigned long read as an int
      rawEnumMode := mode;
      if mode == -1 { return -1; }
      if mode != 0 && !allowed[mode - 1] {
        mode := 0;
      }
      rawEnumMode := mode;
      defaultMode := mode;
      return 0;
    }

    /** tdsp_query_power_state */
    method QueryPowerState(cb: Callbacks)
      requires Valid()
      modifies this`now, this`busPowerState, bus, bus.deviceData
      ensures Valid() && (Quiet() ==> W() == old(W()))
      ensures busPowerState == if CardIn(W().st) then 1 else 0
    {
      busPowerState := 0;
      var ok, ret := IoctlDevice(QueryBusPower, cb);
      if !ok { return; }
      busPowerState := ret;
    }

    /** tdsp_query_reset_flag */
    method QueryReset(cb: Callbacks)
      requires Valid()
      modifies this`now, this`busResetFlag, bus, bus.deviceData
      ensures Valid() && (Quiet() ==> W() == old(W()) && busResetFlag == 0)
    {
      busResetFlag := 0;
      var ok, ret := IoctlDevice(QueryResetFlag, cb);
      if !ok { return; }
      busResetFlag := ret;
    }

    /** tdsp_query_pnp_state; 7 is the client's UnKnown. */
    method QueryPnpState(serial: nat, cb: Callbacks)
      requires Valid()
      modifies this`now, this`dspPnpState, bus, bus.deviceData
      ensures Valid() && (Quiet() ==> W() == old(W())) && now == old(now) + 1
      ensures dspPnpState == if CardIn(W().st) then DeviceStateAnswer(W().st, serial) else 7
    {
      dspPnpState := 7;
      var ok, ret := IoctlDevice(QueryDeviceState(serial), cb);
      if !ok { return; }
      dspPnpState := ret;
    }

    /** tdsp_download_dsp_code and tdsp_set_init_flag: the bus accepts them and does nothing. */
    method ReloadCode(cb: Callbacks)
      requires Valid()
      modifies this`now, bus, bus.deviceData
      ensures Valid() && (Quiet() ==> W() == old(W()))
    {
      var ok, ret := IoctlDevice(Reload, cb);
    }

    /** adjust_func_state */
    method AdjustFuncState(cb: Callbacks)
      requires Valid()
      modifies this`now, this`gState, this`isCardIn, this`currentSerialNo, bus, bus.deviceData
      ensures Valid() && (Quiet() ==> W() == old(W()))
      ensures isCardIn == CardIn(W().st) && gState == Adjusted(old(gState), W().st) == ModeOf(W().st)
      ensures !isCardIn ==> gState == BothOff
    {
      QueryDevice(cb);
      if !isCardIn { gState := BothOff; }
      if currentSerialNo == 0x1 { gState := BtOn; }
      else if currentSerialNo == 0x2 { gState := WlanOn; }
      else if currentSerialNo == 0x3 { gState := BothOn; }
      else if currentSerialNo == 0xffff { gState := BothOff; }
      ViewIsExact(W(), old(gState));
    }

    /** tdsp_is_download_dspcode_ok */
    method IsDownloadOk(cb: Callbacks) returns (ok: bool)
      requires Valid()
      modifies this`now, this`isCardIn, this`currentSerialNo, bus, bus.deviceData
      ensures Valid() && (Quiet() ==> W() == old(W()))
      ensures ok == DownloadOk(W().st)
    {
      QueryDevice(cb);
      ok := isCardIn && currentSerialNo != 0xffff;
    }

    /** The polling loop that waits for the end of a reset, at most 60 times; in a quiet world, once. */
    method WaitReset(cb: Callbacks) returns (ghost polls: nat)
      requires Valid()
      modifies this`now, this`busResetFlag, bus, bus.deviceData
      ensures Valid() && (Quiet() ==> W() == old(W()) && polls == 1) && 0 < polls <= 60
    {
      var times := 0;
      while true
        invariant Valid() && times <= 60 && (Quiet() ==> times == 0)
        invariant Quiet() ==> W() == old(W())
        decreases 60 - times
      {
        QueryReset(cb);
        times := times + 1;
        if !(busResetFlag == 1 && times < 60) { break; }
      }
      polls := times;
    }

    /** unplugdevices, whatever happens meanwhile. It polls at most 60 + 600 + 1200 times. FALSE
        means that the card was out when it last asked. TRUE means that nothing was started, by
        the client's own record or by the bus's last answer, unless the last loop ran into its
        bound. In a quiet world it unplugs what g_state names. */
    method UnplugDevices(cb: Callbacks) returns (ok: bool, ghost polls: nat, ghost timedOut: bool)
      requires Valid()
      modifies this, bus, bus.deviceData
      ensures Valid() && directly == old(directly)
      ensures clickingInProgress == old(clickingInProgress) && menuClicked == old(menuClicked)
      ensures polls <= 60 + 600 + 1200
      ensures !ok ==> !CardIn(W().st)
      ensures ok && old(gState) != BothOff && !timedOut ==>
                CardIn(W().st) && forall i :: 0 <= i < SLOTS ==> !StartedAt(W().st, i)
      ensures timedOut ==> polls >= 1200
      ensures gState == if ok && polls > 0 then BothOff else old(gState)
      ensures Quiet() && CardIn(old(W()).st) ==>
                && ok && W() == Unplugged(old(W()), old(gState), cb)
                && (polls == 0 <==> old(gState) == BothOff || InUse(old(W()).st) == NONE_STARTED)
                && (polls > 0 ==> (timedOut <==> InUse(W().st) != NONE_STARTED))
    {
      polls, timedOut := 0, false;
      if gState == BothOff { return true, polls, timedOut; }
      QueryDevice(cb);
      AnswerMeans(W());
      if currentSerialNo == NO_CARD { return false, polls, timedOut; }
      if currentSerialNo == NONE_STARTED { return true, polls, timedOut; }
      ok, polls, timedOut := RemoveAndPoll(cb);
      if !ok { return false, polls, timedOut; }
      gState := BothOff;
    }

    /** unplugdevices after its first query. */
    method RemoveAndPoll(cb: Callbacks) returns (ok: bool, ghost polls: nat, ghost timedOut: bool)
      requires Valid()
      modifies this, bus, bus.deviceData
      ensures Valid() && directly == old(directly)
      ensures clickingInProgress == old(clickingInProgress) && menuClicked == old(menuClicked)
      ensures gState == old(gState) && 0 < polls <= 60 + 600 + 1200
      ensures !ok ==> !CardIn(W().st)
      ensures ok && !timedOut ==> CardIn(W().st) && forall i :: 0 <= i < SLOTS ==> !StartedAt(W().st, i)
      ensures timedOut ==> polls >= 1200
      ensures Quiet() && CardIn(old(W()).st) ==>
                ok && W() == var w0 := Do(old(W()), WriteEnumMode(0), cb);
                             match old(gState)
                             case BtOn => Do(w0, UnPlugHardware(BT), cb)
                             case WlanOn => Do(w0, UnPlugHardware(WLAN), cb)
                             case BothOn => Do(Do(w0, UnPlugHardware(BT), cb), UnPlugHardware(WLAN), cb)
                             case _ => w0
      ensures Quiet() && CardIn(old(W()).st) ==> (timedOut <==> InUse(W().st) != NONE_STARTED)
    {
      polls := WaitReset(cb);
      ghost var w0 := W();
      var done, a := IoctlDevice(WriteEnumMode(0), cb);
      StaysIn(w0, WriteEnumMode(0), cb);
      ghost var more;
      ok, more := RemoveDevices(cb);
      polls, timedOut := polls + more, false;
      if !ok { return; }
      ok, more, timedOut := PollUntilNone(cb);
      polls := polls + more;
    }

    /** The part of unplugdevices that removes devices, with the first polling loop. */
    method RemoveDevices(cb: Callbacks) returns (ok: bool, ghost polls: nat)
      requires Valid()
      modifies this, bus, bus.deviceData
      ensures Valid() && gState == old(gState)
      ensures directly == old(directly) && menuClicked == old(menuClicked)
      ensures clickingInProgress == old(clickingInProgress)
      ensures polls <= 600 && (!ok ==> !CardIn(W().st))
      ensures Quiet() && CardIn(old(W()).st) ==>
                && ok && CardIn(W().st)
                && W() == match old(gState)
                          case BtOn => Do(old(W()), UnPlugHardware(BT), cb)
                          case WlanOn => Do(old(W()), UnPlugHardware(WLAN), cb)
                          case BothOn => Do(Do(old(W()), UnPlugHardware(BT), cb), UnPlugHardware(WLAN), cb)
                          case _ => old(W())
    {
      ghost var w0 := W();
      polls := 0;
      StaysIn(w0, UnPlugHardware(BT), cb);
      StaysIn(w0, UnPlugHardware(WLAN), cb);
      if gState == BtOn {
        var done, a := IoctlDevice(UnPlugHardware(BT), cb);
      }
      if gState == WlanOn {
        var done, a := IoctlDevice(UnPlugHardware(WLAN), cb);
      }
      if gState == BothOn {
        var done, a := IoctlDevice(UnPlugHardware(BT), cb);
        ghost var w1 := W();
        StaysIn(w1, UnPlugHardware(WLAN), cb);
        ok, polls := PollWhileBt(cb);
        if !ok { return false, polls; }
        done, a := IoctlDevice(UnPlugHardware(WLAN), cb);
      }
      return true, polls;
    }

    /** The polling loop of unplugdevices that waits for Bluetooth to go. */
    method PollWhileBt(cb: Callbacks) returns (ok: bool, ghost polls: nat)
      requires Valid()
      modifies this`now, this`busPowerState, this`isCardIn, this`currentSerialNo, bus, bus.deviceData
      ensures Valid() && (Quiet() ==> W() == old(W())) && polls <= 600
      ensures !ok ==> !CardIn(W().st)
      ensures var st := old(W()).st;
              Quiet() && CardIn(st) ==>
                ok && polls == if StartedAt(st, 0) then 600 else if StartedAt(st, 1) then 1 else 0
    {
      if CardIn(W().st) { InUseMeans(W()); }
      var times := 0;
      while true
        invariant Valid() && times <= 600
        invariant Quiet() && CardIn(old(W()).st) && times > 0 ==> StartedAt(old(W()).st, 0) && times < 600
        invariant Quiet() ==> W() == old(W())
        decreases 600 - times
      {
        QueryPowerState(cb);
        if busPowerState != 1 { return false, times; }
        QueryDevice(cb);
        if currentSerialNo == 0xffff { break; }
        times := times + 1;
        if !(currentSerialNo % 2 == 1 && times < 600) { break; }
      }
      return true, times;
    }

    /** The last polling loop of unplugdevices. */
    method PollUntilNone(cb: Callbacks) returns (ok: bool, ghost polls: nat, ghost timedOut: bool)
      requires Valid()
      modifies this`now, this`busPowerState, this`isCardIn, this`currentSerialNo, bus, bus.deviceData
      ensures Valid() && (Quiet() ==> W() == old(W()))
      ensures polls <= 1200 && (timedOut ==> polls == 1200)
      ensures !ok ==> !CardIn(W().st)
      ensures ok && !timedOut ==> CardIn(W().st) && forall i :: 0 <= i < SLOTS ==> !StartedAt(W().st, i)
      ensures var st := old(W()).st;
              Quiet() && CardIn(st) ==>
                ok && (timedOut <==> InUse(st) != NONE_STARTED) && polls == if timedOut then 1200 else 1
    {
      var times := 0;
      while true
        invariant Valid() && times <= 1200
        invariant Quiet() && CardIn(old(W()).st) && times > 0 ==> InUse(old(W()).st) != NONE_STARTED && times < 1200
        invariant Quiet() ==> W() == old(W())
        decreases 1200 - times
      {
        QueryPowerState(cb);
        if busPowerState != 1 { return false, times, false; }
        QueryDevice(cb);
        times := times + 1;
        if !(currentSerialNo != 0xffff && times < 1200) { break; }
      }
      AnswerMeans(W());
      return true, times, currentSerialNo != 0xffff;
    }

    /** wait_device_unplug_stable: in a quiet world one query for a device that is down, and five more for one that
        is not. */
    method WaitUnplugStable(cb: Callbacks)
      requires Valid()
      modifies this`now, this`dspPnpState, bus, bus.deviceData
      ensures Valid() && (Quiet() ==> W() == old(W()))
      ensures old(now) + 2 <= now <= old(now) + 12
      ensures Quiet() && CardIn(old(W()).st) ==>
                now == old(now) + (if StartedAt(old(W()).st, 0) then 6 else 1)
                                + (if StartedAt(old(W()).st, 1) then 6 else 1)
    {
      WaitDown(BT, cb);
      WaitDown(WLAN, cb);
    }

    /** The half of wait_device_unplug_stable that is about one device. */
    method WaitDown(serial: nat, cb: Callbacks)
      requires Valid() && (serial == BT || serial == WLAN)
      modifies this`now, this`dspPnpState, bus, bus.deviceData
      ensures Valid() && (Quiet() ==> W() == old(W())) && old(now) < now <= old(now) + 6
      ensures now < old(now) + 6 ==> CardIn(W().st) && !StartedAt(W().st, serial - 1)
      ensures Quiet() && CardIn(old(W()).st) ==>
                now == old(now) + if StartedAt(old(W()).st, serial - 1) then 6 else 1
    {
      QueryPnpState(serial, cb);
      StateMeans(W(), serial);
      var waits := 0;
      while dspPnpState != 0xFF && waits < 5
        invariant Valid() && (Quiet() ==> W() == old(W())) && waits <= 5 && now == old(now) + 1 + waits
        invariant dspPnpState == 0xFF ==> CardIn(W().st) && !StartedAt(W().st, serial - 1)
        invariant Quiet() && CardIn(old(W()).st) ==>
                    (dspPnpState != 0xFF <==> StartedAt(old(W()).st, serial - 1)) && (waits > 0 ==> dspPnpState != 0xFF)
        decreases 5 - waits
      {
        QueryPnpState(serial, cb);
        StateMeans(W(), serial);
        waits := waits + 1;
      }
    }

    /** The polling loop after the direct variant has removed one of two devices: it ends when serial is
        alone, or at its bound. */
    method PollUntilAlone(serial: nat, cb: Callbacks) returns (powered: bool, ghost polls: nat)
      requires Valid()
      requires serial == BT || serial == WLAN
      modifies this`now, this`busPowerState, this`isCardIn, this`currentSerialNo, bus, bus.deviceData
      ensures Valid() && (Quiet() ==> W() == old(W()))
      ensures !powered ==> !CardIn(W().st)
      ensures powered && polls < 600 ==> CardIn(W().st) && InUse(W().st) == serial
      ensures polls <= 600
    {
      var times := 0;
      while true
        invariant Valid() && times <= 600
        invariant Quiet() ==> W() == old(W())
        decreases 600 - times
      {
        QueryPowerState(cb);
        if busPowerState != 1 { return false, times; }
        QueryDevice(cb);
        if currentSerialNo == serial { break; }
        times := times + 1;
        if !(currentSerialNo != serial && times < 600) { break; }
      }
      return true, times;
    }

    /** Write the enum mode if asked to, load the code, plug the device in, and ask whether
        anything is started. */
    method PlugAndCheck(serial: nat, mode: Option<nat>, cb: Callbacks) returns (good: bool)
      requires Valid()
      modifies this`now, this`isCardIn, this`currentSerialNo, bus, bus.deviceData
      ensures Valid() && good == DownloadOk(W().st)
      ensures Quiet() ==>
                var w := old(W());
                W() == Do(if mode.None? then w else Do(w, WriteEnumMode(mode.value), cb), PlugInHardware(serial), cb)
    {
      var done, a;
      if mode.Some? {
        done, a := IoctlDevice(WriteEnumMode(mode.value), cb);
      }
      ReloadCode(cb);
      done, a := IoctlDevice(PlugInHardware(serial), cb);
      good := IsDownloadOk(cb);
    }

    /** Plug the wanted device in; if nothing is started then, read the state off the bus and return
        from the handler. forget says whether g_state is reset before that. */
    method PlugWanted(serial: nat, mode: Option<nat>, forget: bool, cb: Callbacks) returns (early: bool)
      requires Valid() && clickingInProgress && !menuClicked
      modifies this, bus, bus.deviceData
      ensures Valid() && directly == old(directly) && !menuClicked && (early <==> !clickingInProgress)
      ensures !early ==> gState == old(gState)
      ensures Quiet() ==>
                var w := old(W());
                var w2 := if mode.None? then w else Do(w, WriteEnumMode(mode.value), cb);
                var w3 := Do(w2, PlugInHardware(serial), cb);
                W() == w3 && early == !DownloadOk(w3.st) && (early ==> gState == Adjusted(BothOff, w3.st))
    {
      var good := PlugAndCheck(serial, mode, cb);
      if !good {
        if forget { gState := BothOff; }
        AdjustFuncState(cb);
        AdjustedModes(W(), BothOff);
        clickingInProgress := false;
        return true;
      }
      return false;
    }

    /** What three of the handlers do first: they read g_state off the bus, and are done if there is
        no card or it is in the wanted mode already. */
    method LookFirst(own: Mode, cb: Callbacks) returns (done: bool)
      requires Valid() && clickingInProgress && own != BothOff && own != Undefined
      modifies this, bus, bus.deviceData
      ensures Valid() && directly == old(directly) && menuClicked == old(menuClicked) && clickingInProgress == !done
      ensures Quiet() ==> W() == old(W())
      ensures gState == ModeOf(W().st) && (done <==> !CardIn(W().st) || gState == own)
    {
      AdjustFuncState(cb);
      AdjustedModes(W(), gState);
      if !isCardIn {
        gState := BothOff;
        clickingInProgress := false;
        return true;
      }
      if gState == own {
        clickingInProgress := false;
        return true;
      }
      return false;
    }

    /** The handlers' way to unplug what is started. When there is no card they return. */
    method ClearOut(cb: Callbacks) returns (gone: bool)
      requires Valid() && clickingInProgress
      modifies this, bus, bus.deviceData
      ensures Valid() && directly == old(directly) && menuClicked == old(menuClicked) && clickingInProgress == !gone
      ensures gState == old(gState) || gState == BothOff
      ensures var w := old(W());
              Quiet() && CardIn(w.st) ==> !gone && W() == Unplugged(w, old(gState), cb) && CardIn(W().st)
    {
      UnpluggedStaysIn(W(), gState, cb);
      var ok, polls, timedOut := UnplugDevices(cb);
      if !ok {
        clickingInProgress := false;
        return true;
      }
      WaitUnplugStable(cb);
      return false;
    }

    /** The direct way out of coexistence: wait for the reset, remove the other device and poll
        until serial is alone; the WLAN handler then writes the enum mode. */
    method RemoveRival(serial: nat, cb: Callbacks) returns (powered: bool)
      requires Valid() && (serial == BT || serial == WLAN)
      modifies this`now, this`busResetFlag, this`busPowerState, this`isCardIn, this`currentSerialNo, bus, bus.deviceData
      ensures Valid() && (!powered ==> !CardIn(W().st))
      ensures Quiet() && CardIn(old(W()).st) ==> powered && W() == DropRival(old(W()), serial, cb).w
    {
      ghost var w := W();
      BothOnFacts(w, cb);
      var polls := WaitReset(cb);
      var done, a := IoctlDevice(UnPlugHardware(if serial == BT then WLAN else BT), cb);
      ghost var more;
      powered, more := PollUntilAlone(serial, cb);
      if !powered { return; }
      if serial == WLAN {
        done, a := IoctlDevice(WriteEnumMode(2), cb);
      }
    }

    /** The direct branch of on_bluetooth_activate. early says that it has returned from the handler. */
    method BluetoothDirectly(cb: Callbacks) returns (early: bool)
      requires Valid() && directly && clickingInProgress && !menuClicked && gState != BtOn && gState != Undefined
      modifies this, bus, bus.deviceData
      ensures Valid() && directly && !menuClicked && (early ==> !clickingInProgress)
      ensures var w := old(W());
              Quiet() && CardIn(w.st) && old(gState) == ModeOf(w.st) ==>
                var e := if old(gState) == BothOn then DropRival(w, BT, cb)
                         else PlugAlone(w, old(gState), None, BT, cb);
                W() == e.w && e.g == if early then gState else BtOn
    {
      AdjustedModes(W(), gState);
      if gState == WlanOn {
        var gone := ClearOut(cb);
        if gone { return true; }
      }
      if gState == WlanOn || gState == BothOff {
        early := PlugWanted(BT, None, false, cb);
        if early { return true; }
        gState := BtOn;
      }
      if gState == BothOn {
        var powered := RemoveRival(BT, cb);
        if !powered {
          gState := BothOff;
          clickingInProgress := false;
          return true;
        }
      }
      return false;
    }

    /** The indirect branch of on_bluetooth_activate. */
    method BluetoothIndirectly(cb: Callbacks) returns (early: bool)
      requires Valid() && !directly && clickingInProgress && !menuClicked && gState != BtOn && gState != Undefined
      modifies this, bus, bus.deviceData
      ensures Valid() && !directly && !menuClicked && (early ==> !clickingInProgress)
      ensures var w := old(W());
              Quiet() && CardIn(w.st) && old(gState) == ModeOf(w.st) ==>
                var e := PlugAlone(w, old(gState), Some(1), BT, cb);
                W() == e.w && e.g == if early then gState else BtOn
    {
      AdjustedModes(W(), gState);
      if gState == WlanOn || gState == BothOn {
        var gone := ClearOut(cb);
        if gone { return true; }
      }
      early := PlugWanted(BT, Some(1), true, cb);
    }

    /** on_bluetooth_activate once it has found that there is something to do. */
    method BluetoothBranches(cb: Callbacks)
      requires Valid() && clickingInProgress && !menuClicked && gState != BtOn && gState != Undefined
      modifies this, bus, bus.deviceData
      ensures Valid() && directly == old(directly) && !menuClicked && !clickingInProgress
      ensures var w := old(W());
              Quiet() && CardIn(w.st) && old(gState) == ModeOf(w.st) ==>
                var e := if directly && old(gState) == BothOn then DropRival(w, BT, cb)
                         else PlugAlone(w, old(gState), if directly then None else Some(1), BT, cb);
                W() == e.w && gState == e.g
    {
      var early;
      if directly {
        early := BluetoothDirectly(cb);
      } else {
        early := BluetoothIndirectly(cb);
      }
      if early { return; }
      gState := BtOn;
      clickingInProgress := false;
    }

    /** on_bluetooth_activate behind its guards. */
    method BluetoothUnderWay(cb: Callbacks)
      requires Valid() && clickingInProgress && !menuClicked
      modifies this, bus, bus.deviceData
      ensures Valid() && directly == old(directly) && !menuClicked && !clickingInProgress
      ensures Quiet() ==>
                var e := BtSwitch(old(W()), old(gState), directly, cb);
                W() == e.w && gState == e.g
    {
      ghost var g := gState;
      var done := LookFirst(BtOn, cb);
      SingleCases(W(), g, directly, BT, 1, cb);
      if done { return; }
      BluetoothBranches(cb);
    }

    /** on_bluetooth_activate: a click while another is in progress does nothing; otherwise the busy flag is
        released on every way out, and in a quiet world the switch is BtSwitch. */
    method OnBluetoothActivate(cb: Callbacks)
      requires Valid()
      modifies this, bus, bus.deviceData
      ensures Valid() && !menuClicked && directly == old(directly)
      ensures old(menuClicked) && !old(clickingInProgress) ==> !clickingInProgress
      ensures Quiet() && old(menuClicked) && !old(clickingInProgress) ==>
                var e := BtSwitch(old(W()), old(gState), old(directly), cb);
                W() == e.w && gState == e.g
      ensures !old(menuClicked) || old(clickingInProgress) ==>
                W() == old(W()) && gState == old(gState) && clickingInProgress == old(clickingInProgress)
    {
      if !menuClicked { return; }
      menuClicked := false;
      if clickingInProgress { return; }
      clickingInProgress := true;
      BluetoothUnderWay(cb);
    }

    /** The direct branch of on_wlan1_activate. early says that it has returned from the handler. */
    method WlanDirectly(cb: Callbacks) returns (early: bool)
      requires Valid() && directly && clickingInProgress && !menuClicked && gState != WlanOn && gState != Undefined
      modifies this, bus, bus.deviceData
      ensures Valid() && directly && !menuClicked && (early ==> !clickingInProgress)
      ensures var w := old(W());
              Quiet() && CardIn(w.st) && old(gState) == ModeOf(w.st) ==>
                var e := if old(gState) == BothOn then DropRival(w, WLAN, cb)
                         else PlugAlone(w, old(gState), Some(2), WLAN, cb);
                W() == e.w && e.g == if early then gState else WlanOn
    {
      AdjustedModes(W(), gState);
      if gState == BtOn {
        var gone := ClearOut(cb);
        if gone { return true; }
      }
      if gState == BtOn || gState == BothOff {
        early := PlugWanted(WLAN, Some(2), true, cb);
        if early { return true; }
        gState := WlanOn;
      }
      if gState == BothOn {
        var powered := RemoveRival(WLAN, cb);
        if !powered {
          gState := BothOff;
          clickingInProgress := false;
          return true;
        }
      }
      return false;
    }

    /** The indirect branch of on_wlan1_activate. */
    method WlanIndirectly(cb: Callbacks) returns (early: bool)
      requires Valid() && !directly && clickingInProgress && !menuClicked && gState != WlanOn && gState != Undefined
      modifies this, bus, bus.deviceData
      ensures Valid() && !directly && !menuClicked && (early ==> !clickingInProgress)
      ensures var w := old(W());
              Quiet() && CardIn(w.st) && old(gState) == ModeOf(w.st) ==>
                var e := PlugAlone(w, old(gState), Some(2), WLAN, cb);
                W() == e.w && e.g == if early then gState else WlanOn
    {
      AdjustedModes(W(), gState);
      if gState == BtOn || gState == BothOn {
        var gone := ClearOut(cb);
        if gone { return true; }
      }
      early := PlugWanted(WLAN, Some(2), true, cb);
    }

    /** on_wlan1_activate once it has found that there is something to do. */
    method WlanBranches(cb: Callbacks)
      requires Valid() && clickingInProgress && !menuClicked && gState != WlanOn && gState != Undefined
      modifies this, bus, bus.deviceData
      ensures Valid() && directly == old(directly) && !menuClicked && !clickingInProgress
      ensures var w := old(W());
              Quiet() && CardIn(w.st) && old(gState) == ModeOf(w.st) ==>
                var e := if directly && old(gState) == BothOn then DropRival(w, WLAN, cb)
                         else PlugAlone(w, old(gState), Some(2), WLAN, cb);
                W() == e.w && gState == e.g
    {
      var early;
      if directly {
        early := WlanDirectly(cb);
      } else {
        early := WlanIndirectly(cb);
      }
      if early { return; }
      gState := WlanOn;
      clickingInProgress := false;
    }

    /** on_wlan1_activate behind its guards. */
    method WlanUnderWay(cb: Callbacks)
      requires Valid() && clickingInProgress && !menuClicked
      modifies this, bus, bus.deviceData
      ensures Valid() && directly == old(directly) && !menuClicked && !clickingInProgress
      ensures Quiet() ==>
                var e := WlanSwitch(old(W()), old(gState), directly, cb);
                W() == e.w && gState == e.g
    {
      ghost var g := gState;
      var done := LookFirst(WlanOn, cb);
      SingleCases(W(), g, directly, WLAN, 2, cb);
      if done { return; }
      WlanBranches(cb);
    }

    /** on_wlan1_activate: a click while another is in progress does nothing; otherwise the busy flag is
        released on every way out, and in a quiet world the switch is WlanSwitch. */
    method OnWlanActivate(cb: Callbacks)
      requires Valid()
      modifies this, bus, bus.deviceData
      ensures Valid() && !menuClicked && directly == old(directly)
      ensures old(menuClicked) && !old(clickingInProgress) ==> !clickingInProgress
      ensures Quiet() && old(menuClicked) && !old(clickingInProgress) ==>
                var e := WlanSwitch(old(W()), old(gState), old(directly), cb);
                W() == e.w && gState == e.g
      ensures !old(menuClicked) || old(clickingInProgress) ==>
                W() == old(W()) && gState == old(gState) && clickingInProgress == old(clickingInProgress)
    {
      if !menuClicked { return; }
      menuClicked := false;
      if clickingInProgress { return; }
      clickingInProgress := true;
      WlanUnderWay(cb);
    }

    /** The unbounded loop that waits for WLAN, watched for patience rounds. In a quiet world it is
        left on its first query if WLAN is started, and otherwise goes on as long as it is watched. */
    method WaitForWlan(patience: nat, cb: Callbacks) returns (left: bool, powered: bool)
      requires Valid() && 0 < patience
      modifies this`now, this`dspPnpState, this`busPowerState, bus, bus.deviceData
      ensures Valid() && (Quiet() ==> W() == old(W()))
      ensures left && !powered ==> !CardIn(W().st)
      ensures left && powered ==> StartedAt(W().st, 1)
      ensures Quiet() && CardIn(old(W()).st) ==> left == StartedAt(W().st, 1) && powered
      ensures Quiet() && StartedAt(old(W()).st, 1) ==> now == old(now) + 1
    {
      var rounds := 0;
      while rounds < patience
        invariant Valid() && rounds <= patience
        invariant Quiet() ==> W() == old(W())
        invariant Quiet() && 0 < rounds ==> !StartedAt(W().st, 1)
        invariant rounds == 0 ==> now == old(now)
      {
        QueryPnpState(WLAN, cb);
        if dspPnpState != 1 {
          QueryPowerState(cb);
          if busPowerState != 1 { return true, false; }
          rounds := rounds + 1;
        } else {
          return true, true;
        }
      }
      return false, true;
    }

    /** The steps both variants of the coexistence switch take when nothing is started: WLAN
        first, then Bluetooth. returned is false while the wait loop has not been left; early
        says that the handler has returned. */
    method AddWlanThenBt(patience: nat, cb: Callbacks) returns (returned: bool, early: bool)
      requires Valid() && 0 < patience && clickingInProgress && !menuClicked
      modifies this, bus, bus.deviceData
      ensures Valid() && directly == old(directly) && !menuClicked
      ensures early ==> returned && !clickingInProgress
      ensures !returned ==> clickingInProgress
      ensures Quiet() && CardIn(old(W()).st) ==>
                var e := WlanThenBt(old(W()), cb);
                W() == e.w && returned == e.Returned? && (returned ==> e.g == if early then gState else BothOn)
    {
      StaysIn(W(), PlugInHardware(WLAN), cb);
      early := PlugWanted(WLAN, None, true, cb);
      if early { return true, true; }
      returned, early := WaitThenAddBt(patience, cb);
    }

    /** The rest of those steps, once something has been started. */
    method WaitThenAddBt(patience: nat, cb: Callbacks) returns (returned: bool, early: bool)
      requires Valid() && 0 < patience && clickingInProgress && !menuClicked
      modifies this, bus, bus.deviceData
      ensures Valid() && directly == old(directly) && !menuClicked
      ensures early ==> returned && !clickingInProgress
      ensures !returned ==> clickingInProgress
      ensures Quiet() && CardIn(old(W()).st) ==>
                && returned == StartedAt(old(W()).st, 1) && !early
                && W() == if returned then Do(old(W()), PlugInHardware(BT), cb) else old(W())
    {
      ghost var w1 := W();
      var left, powered := WaitForWlan(patience, cb);
      if !left { return false, false; }
      if !powered {
        clickingInProgress := false;
        return true, true;
      }
      ReloadCode(cb);
      ReloadCode(cb);
      StaysUp(w1, cb);
      var done, a := IoctlDevice(PlugInHardware(BT), cb);
      var good := IsDownloadOk(cb);
      if !good {
        clickingInProgress := false;
        return true, true;
      }
      return true, false;
    }

    /** The direct branch of on_coexist1_activate with one device started: the other is added. */
    method AddOther(serial: nat, cb: Callbacks) returns (early: bool)
      requires Valid() && clickingInProgress && !menuClicked
      modifies this, bus, bus.deviceData
      ensures Valid() && directly == old(directly) && !menuClicked && (early <==> !clickingInProgress)
      ensures Quiet() ==>
                var e := ClientSpec.AddOther(old(W()), old(gState), serial, cb);
                W() == e.w && e.g == if early then gState else BothOn
    {
      var done, a := IoctlDevice(WriteEnumMode(3), cb);
      ReloadCode(cb);
      early := PlugWanted(serial, None, false, cb);
      if early { ViewIsExact(W(), old(gState)); ViewIsExact(W(), BothOff); }
    }

    method CoexistDirectly(patience: nat, cb: Callbacks) returns (returned: bool, early: bool)
      requires Valid() && 0 < patience && clickingInProgress && !menuClicked
      requires gState == BtOn || gState == WlanOn || gState == BothOff
      modifies this, bus, bus.deviceData
      ensures Valid() && directly == old(directly) && !menuClicked
      ensures early ==> returned && !clickingInProgress
      ensures !returned ==> clickingInProgress
      ensures var w := old(W());
              Quiet() && CardIn(w.st) && old(gState) == ModeOf(w.st) ==>
                var e := AddMissing(w, old(gState), cb);
                W() == e.w && returned == e.Returned? && (returned ==> e.g == if early then gState else BothOn)
    {
      ghost var w := W();
      AdjustedModes(w, gState);
      if gState == BtOn {
        early := AddOther(WLAN, cb);
        return true, early;
      }
      if gState == WlanOn {
        early := AddOther(BT, cb);
        return true, early;
      }
      var done, a := IoctlDevice(WriteEnumMode(3), cb);
      StaysIn(w, WriteEnumMode(3), cb);
      returned, early := AddWlanThenBt(patience, cb);
    }

    method CoexistIndirectly(patience: nat, cb: Callbacks) returns (returned: bool, early: bool)
      requires Valid() && 0 < patience && clickingInProgress && !menuClicked
      requires gState == BtOn || gState == WlanOn || gState == BothOff
      modifies this, bus, bus.deviceData
      ensures Valid() && directly == old(directly) && !menuClicked
      ensures early ==> returned && !clickingInProgress
      ensures !returned ==> clickingInProgress
      ensures var w := old(W());
              Quiet() && CardIn(w.st) && old(gState) == ModeOf(w.st) ==>
                var e := Rebuild(w, old(gState), cb);
                W() == e.w && returned == e.Returned? && (returned ==> e.g == if early then gState else BothOn)
    {
      AdjustedModes(W(), gState);
      if gState == BtOn || gState == WlanOn {
        var gone := ClearOut(cb);
        if gone { return true, true; }
      }
      ghost var w1 := W();
      var done, a := IoctlDevice(WriteEnumMode(3), cb);
      StaysIn(w1, WriteEnumMode(3), cb);
      returned, early := AddWlanThenBt(patience, cb);
    }

    /** on_coexist1_activate once it has found that there is something to do. */
    method CoexistBranches(patience: nat, cb: Callbacks) returns (returned: bool)
      requires Valid() && 0 < patience && clickingInProgress && !menuClicked
      requires gState == BtOn || gState == WlanOn || gState == BothOff
      modifies this, bus, bus.deviceData
      ensures Valid() && directly == old(directly) && !menuClicked && clickingInProgress == !returned
      ensures var w := old(W());
              Quiet() && CardIn(w.st) && old(gState) == ModeOf(w.st) ==>
                var e := if directly then AddMissing(w, old(gState), cb) else Rebuild(w, old(gState), cb);
                W() == e.w && returned == e.Returned? && (returned ==> gState == e.g)
    {
      var early;
      if directly {
        returned, early := CoexistDirectly(patience, cb);
      } else {
        returned, early := CoexistIndirectly(patience, cb);
      }
      if !returned || early { return returned; }
      gState := BothOn;
      clickingInProgress := false;
    }

    /** on_coexist1_activate behind its guards. */
    method CoexistUnderWay(patience: nat, cb: Callbacks) returns (returned: bool)
      requires Valid() && 0 < patience && clickingInProgress && !menuClicked
      modifies this, bus, bus.deviceData
      ensures Valid() && directly == old(directly) && !menuClicked && clickingInProgress == !returned
      ensures Quiet() ==>
                var e := CoexistSwitch(old(W()), old(gState), directly, cb);
                W() == e.w && returned == e.Returned? && (returned ==> gState == e.g)
    {
      ghost var g := gState;
      var done := LookFirst(BothOn, cb);
      CoexistCases(W(), g, directly, cb);
      if done { return true; }
      returned := CoexistBranches(patience, cb);
    }

    /** on_coexist1_activate, watched for patience rounds of its wait loop. */
    method OnCoexistActivate(patience: nat, cb: Callbacks) returns (returned: bool)
      requires Valid() && 0 < patience
      modifies this, bus, bus.deviceData
      ensures Valid() && !menuClicked && directly == old(directly)
      ensures old(menuClicked) && !old(clickingInProgress) ==> clickingInProgress == !returned
      ensures Quiet() && old(menuClicked) && !old(clickingInProgress) ==>
                var e := CoexistSwitch(old(W()), old(gState), old(directly), cb);
                W() == e.w && returned == e.Returned? && (returned ==> gState == e.g)
      ensures !old(menuClicked) || old(clickingInProgress) ==>
                returned && W() == old(W()) && gState == old(gState) && clickingInProgress == old(clickingInProgress)
    {
      if !menuClicked { return true; }
      menuClicked := false;
      if clickingInProgress { return true; }
      clickingInProgress := true;
      returned := CoexistUnderWay(patience, cb);
    }

    /** on_unplug1_activate */
    method OnUnplugActivate(cb: Callbacks)
      requires Valid()
      modifies this, bus, bus.deviceData
      ensures Valid() && !menuClicked && directly == old(directly)
      ensures old(menuClicked) && !old(clickingInProgress) ==> !clickingInProgress
      ensures Quiet() && old(menuClicked) && !old(clickingInProgress) ==>
                var e := UnplugSwitch(old(W()), old(gState), cb);
                W() == e.w && gState == e.g
      ensures !old(menuClicked) || old(clickingInProgress) ==>
                W() == old(W()) && gState == old(gState) && clickingInProgress == old(clickingInProgress)
    {
      if !menuClicked { return; }
      menuClicked := false;
      if clickingInProgress { return; }
      clickingInProgress := true;
      AdjustFuncState(cb);
      AdjustedModes(W(), old(gState));
      if gState == BothOff {
        clickingInProgress := false;
        return;
      }
      if gState == BtOn || gState == WlanOn || gState == BothOn {
        var gone := ClearOut(cb);
        if gone { return; }
      }
      gState := BothOff;
      clickingInProgress := false;
    }
  }

  predicate IsQuery(cmd: Cmd)
  {
    cmd.QueryBusPower? || cmd.DisplayInUse? || cmd.QueryDeviceState? || cmd.QueryResetFlag? || cmd.Reload?
  }

  lemma StatusIsEfault(st: State, cmd: Cmd, cb: Callbacks)
    requires WellFormed(st)
    ensures Ioctl(st, cmd, cb).status == Efault <==> !PassesGate(st, cmd)
  {
    if cmd.UnPlugHardware? { B.UnplugFromSucceeds(st, 0, cb); }
  }

  /** Queries change nothing. */
  lemma QueryKeeps(w: World, cmd: Cmd, cb: Callbacks)
    requires Sound(w)
    requires IsQuery(cmd)
    ensures Do(w, cmd, cb) == w
  {
    assert w.trace + [] == w.trace;
  }

  /** Plugging, unplugging and writing the enum mode never make the card go away. */
  lemma StaysIn(w: World, cmd: Cmd, cb: Callbacks)
    requires Sound(w)
    requires cmd == UnPlugHardware(BT) || cmd == UnPlugHardware(WLAN) || cmd.WriteEnumMode? || cmd.PlugInHardware?
    ensures CardIn(w.st) ==> CardIn(Do(w, cmd, cb).st)
  {
  }

  lemma StaysUp(w: World, cb: Callbacks)
    requires Sound(w)
    ensures CardIn(w.st) && StartedAt(w.st, 1) ==> DownloadOk(Do(w, PlugInHardware(BT), cb).st)
  {
    StaysIn(w, PlugInHardware(BT), cb);
  }

  lemma AdjustedModes(w: World, g: Mode)
    requires Sound(w)
    ensures Adjusted(g, w.st) == ModeOf(w.st)
    ensures !CardIn(w.st) ==> ModeOf(w.st) == BothOff
    ensures CardIn(w.st) ==> (InUse(w.st) == NONE_STARTED <==> ModeOf(w.st) == BothOff)
  {
    ViewIsExact(w, g);
  }

  /** What the answer of DISPLAY_IN_USE says about the devices. */
  lemma AnswerMeans(w: World)
    requires Sound(w)
    ensures CardIn(w.st) <==> InUse(w.st) != NO_CARD
    ensures InUse(w.st) == NONE_STARTED <==> CardIn(w.st) && forall i :: 0 <= i < SLOTS ==> !StartedAt(w.st, i)
  {
  }

  /** Reading the enum mode does not change the answer. */
  lemma EnumAnswerStays(w: World, cb: Callbacks)
    requires Sound(w)
    ensures var r := Do(w, ReadEnumMode, cb).st; EnumAnswer(r) == EnumAnswer(w.st) && CardIn(r) == CardIn(w.st)
  {
    var r := Do(w, ReadEnumMode, cb).st;
    assert r.slots == w.st.slots && r.mem == w.st.mem;
    assert forall i :: 0 <= i < SLOTS ==>
                         StartedAt(r, i) == StartedAt(w.st, i) && Untouched(r, i) == Untouched(w.st, i);
  }

  lemma EnumRange(w: World)
    requires Sound(w)
    ensures EnumAnswer(w.st) == 0xFFFFFFFF || EnumAnswer(w.st) == StartedBits(w.st) <= 3
    ensures EnumAnswer(w.st) == 0xFFFFFFFF ==> StartedBits(w.st) == 0
  {
  }

  lemma InUseMeans(w: World)
    requires Sound(w) && CardIn(w.st)
    ensures InUse(w.st) % 2 == 1 && InUse(w.st) != NONE_STARTED <==> StartedAt(w.st, 0)
    ensures InUse(w.st) == NONE_STARTED <==> !StartedAt(w.st, 0) && !StartedAt(w.st, 1)
  {
  }

  lemma StateMeans(w: World, serial: nat)
    requires Sound(w) && (serial == BT || serial == WLAN)
    ensures DeviceStateAnswer(w.st, serial) == if StartedAt(w.st, serial - 1) then 1 else 0xff
  {
  }

  lemma BothOnFacts(w: World, cb: Callbacks)
    requires Sound(w)
    ensures CardIn(w.st) ==> CardIn(Do(w, UnPlugHardware(BT), cb).st) && CardIn(Do(w, UnPlugHardware(WLAN), cb).st)
  {
    StaysIn(w, UnPlugHardware(BT), cb);
    StaysIn(w, UnPlugHardware(WLAN), cb);
  }

  lemma UnpluggedStaysIn(w: World, g: Mode, cb: Callbacks)
    requires Sound(w)
    ensures CardIn(w.st) ==> CardIn(Unplugged(w, g, cb).st)
  {
    var w0 := Do(w, WriteEnumMode(0), cb);
    StaysIn(w, WriteEnumMode(0), cb);
    StaysIn(w0, UnPlugHardware(BT), cb);
    StaysIn(w0, UnPlugHardware(WLAN), cb);
    StaysIn(Do(w0, UnPlugHardware(BT), cb), UnPlugHardware(WLAN), cb);
  }

  /** What a switch to one device is, whatever g_state was before adjust_func_state. */
  lemma SingleCases(w: World, g0: Mode, direct: bool, serial: nat, mode: nat, cb: Callbacks)
    requires Sound(w) && (serial == BT || serial == WLAN)
    ensures var e := SingleSwitch(w, g0, direct, serial, mode, cb);
            var own := if serial == BT then BtOn else WlanOn;
            if !CardIn(w.st) then e == Returned(BothOff, w)
            else if ModeOf(w.st) == own then e == Returned(own, w)
            else if direct && ModeOf(w.st) == BothOn then e == DropRival(w, serial, cb)
            else e == PlugAlone(w, ModeOf(w.st), if direct && serial == BT then None else Some(mode), serial, cb)
  {
    ViewIsExact(w, g0);
  }

  lemma CoexistCases(w: World, g0: Mode, direct: bool, cb: Callbacks)
    requires Sound(w)
    ensures var e := CoexistSwitch(w, g0, direct, cb);
            if !CardIn(w.st) then e == Returned(BothOff, w)
            else if ModeOf(w.st) == BothOn then e == Returned(BothOn, w)
            else e == if direct then AddMissing(w, ModeOf(w.st), cb) else Rebuild(w, ModeOf(w.st), cb)
  {
    ViewIsExact(w, g0);
  }
}
