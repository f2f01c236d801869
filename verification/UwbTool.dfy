/** The command-line tool's mode switches (applications/uwbtool/callbacks.c). They take the steps of
    the GUI's indirect variants, through the same routines, but have a check of the configured
    modes instead of the menu-click guard. */
module UwbTool {
  import opened BusTypes
  import opened BusSpec
  import opened BusRuns
  import opened Options
  import opened ClientSpec
  import U = UwbClient

  class UwbTool {
    const core: U.UwbClient
    const allowedBt: bool      // g_allowedmodes[0]
    const allowedWlan: bool    // g_allowedmodes[1]
    const allowedCombo: bool   // g_allowedmodes[2]

    ghost predicate Valid()
      reads core, core.bus, core.bus.deviceData
    {
      core.Valid() && !core.directly && !core.menuClicked
    }

    constructor (core: U.UwbClient, bt: bool, wlan: bool, combo: bool)
      requires core.Valid() && !core.directly && !core.menuClicked
      ensures Valid() && this.core == core && allowedBt == bt && allowedWlan == wlan && allowedCombo == combo
    {
      this.core, allowedBt, allowedWlan, allowedCombo := core, bt, wlan, combo;
    }

    /** Nothing has happened except that the busy flag is now busy. */
    twostate predicate Untouched(busy: bool)
      reads core, core.bus, core.bus.deviceData
    {
      core.W() == old(core.W()) && core.gState == old(core.gState) && core.clickingInProgress == busy
    }

    /** on_bluetooth_activate: a request for a mode that is not allowed leaves the busy flag set, so
        that every later request is ignored; an allowed one releases it on every way out. */
    method OnBluetoothActivate(cb: Callbacks)
      requires Valid()
      modifies core, core.bus, core.bus.deviceData
      ensures Valid()
      ensures old(core.clickingInProgress) || !allowedBt ==> Untouched(true)
      ensures !old(core.clickingInProgress) && allowedBt ==> !core.clickingInProgress
      ensures !old(core.clickingInProgress) && allowedBt && core.Quiet() ==>
                var e := BtSwitch(old(core.W()), old(core.gState), false, cb);
                core.W() == e.w && core.gState == e.g
    {
      if core.clickingInProgress { return; }
      core.clickingInProgress := true;
      if !allowedBt { return; }
      core.BluetoothUnderWay(cb);
    }

    /** on_wlan_activate */
    method OnWlanActivate(cb: Callbacks)
      requires Valid()
      modifies core, core.bus, core.bus.deviceData
      ensures Valid()
      ensures old(core.clickingInProgress) || !allowedWlan ==> Untouched(true)
      ensures !old(core.clickingInProgress) && allowedWlan ==> !core.clickingInProgress
      ensures !old(core.clickingInProgress) && allowedWlan && core.Quiet() ==>
                var e := WlanSwitch(old(core.W()), old(core.gState), false, cb);
                core.W() == e.w && core.gState == e.g
    {
      if core.clickingInProgress { return; }
      core.clickingInProgress := true;
      if !allowedWlan { return; }
      core.WlanUnderWay(cb);
    }

    /** on_coexist_activate, watched for patience rounds of its wait loop. */
    method OnCoexistActivate(patience: nat, cb: Callbacks) returns (returned: bool)
      requires Valid() && 0 < patience
      modifies core, core.bus, core.bus.deviceData
      ensures Valid()
      ensures old(core.clickingInProgress) || !allowedCombo ==> returned && Untouched(true)
      ensures !old(core.clickingInProgress) && allowedCombo ==> core.clickingInProgress == !returned
      ensures !old(core.clickingInProgress) && allowedCombo && core.Quiet() ==>
                var e := CoexistSwitch(old(core.W()), old(core.gState), false, cb);
                core.W() == e.w && returned == e.Returned? && (returned ==> core.gState == e.g)
    {
      if core.clickingInProgress { return true; }
      core.clickingInProgress := true;
      if !allowedCombo { return true; }
      var done := core.LookFirst(BothOn, cb);
      if done { return true; }
      U.CoexistCases(core.W(), old(core.gState), false, cb);
      returned := AddBoth(patience, cb);
    }

    /** The rest of on_coexist_activate. */
    method AddBoth(patience: nat, cb: Callbacks) returns (returned: bool)
      requires Valid() && 0 < patience && core.clickingInProgress
      requires core.gState == BtOn || core.gState == WlanOn || core.gState == BothOff
      modifies core, core.bus, core.bus.deviceData
      ensures Valid() && core.clickingInProgress == !returned
      ensures var w := old(core.W());
              core.Quiet() && CardIn(w.st) && old(core.gState) == ModeOf(w.st) ==>
                var e := Rebuild(w, old(core.gState), cb);
                core.W() == e.w && returned == e.Returned? && (returned ==> core.gState == e.g)
    {
      ghost var w, g := core.W(), core.gState;
      U.AdjustedModes(w, g);
      if core.gState == BtOn || core.gState == WlanOn {
        var gone := core.ClearOut(cb);
        if gone { return true; }
      }
      ghost var w1 := core.W();
      U.StaysIn(w1, WriteEnumMode(3), cb);
      var done, a := core.IoctlDevice(WriteEnumMode(3), cb);
      returned := WlanFirst(patience, cb);
    }

    /** WLAN first; when it is started, Bluetooth. */
    method WlanFirst(patience: nat, cb: Callbacks) returns (returned: bool)
      requires Valid() && 0 < patience && core.clickingInProgress
      modifies core, core.bus, core.bus.deviceData
      ensures Valid() && core.clickingInProgress == !returned
      ensures core.Quiet() && CardIn(old(core.W()).st) ==>
                var e := WlanThenBt(old(core.W()), cb);
                core.W() == e.w && returned == e.Returned? && (returned ==> core.gState == e.g)
    {
      ghost var w := core.W();
      U.StaysIn(w, PlugInHardware(WLAN), cb);
      var early := core.PlugWanted(WLAN, None, true, cb);
      if early { return true; }
      returned := ThenBt(patience, cb);
    }

    /** The wait for WLAN, and Bluetooth. */
    method ThenBt(patience: nat, cb: Callbacks) returns (returned: bool)
      requires Valid() && 0 < patience && core.clickingInProgress
      modifies core, core.bus, core.bus.deviceData
      ensures Valid() && core.clickingInProgress == !returned
      ensures var w := old(core.W());
              core.Quiet() && CardIn(w.st) ==>
                && returned == StartedAt(w.st, 1)
                && core.W() == (if returned then Do(w, PlugInHardware(BT), cb) else w)
                && (returned ==> core.gState == BothOn)
    {
      var left, powered := core.WaitForWlan(patience, cb);
      if !left { return false; }
      if !powered {
        core.clickingInProgress := false;
        return true;
      }
      AddBt(cb);
      return true;
    }

    method AddBt(cb: Callbacks)
      requires Valid() && core.clickingInProgress
      modifies core, core.bus, core.bus.deviceData
      ensures Valid() && !core.clickingInProgress
      ensures var w := old(core.W());
              core.Quiet() && CardIn(w.st) && StartedAt(w.st, 1) ==>
                core.W() == Do(w, PlugInHardware(BT), cb) && core.gState == BothOn
    {
      U.StaysUp(core.W(), cb);
      core.ReloadCode(cb);
      var early := core.PlugWanted(BT, None, true, cb);
      if early { return; }
      core.ReloadCode(cb);
      core.gState := BothOn;
      core.clickingInProgress := false;
    }

    /** on_unplug_activate, which does not look at the configured modes. */
    method OnUnplugActivate(cb: Callbacks)
      requires Valid()
      modifies core, core.bus, core.bus.deviceData
      ensures Valid()
      ensures old(core.clickingInProgress) ==> Untouched(true)
      ensures !old(core.clickingInProgress) ==> !core.clickingInProgress
      ensures !old(core.clickingInProgress) && core.Quiet() ==>
                var e := UnplugSwitch(old(core.W()), old(core.gState), cb);
                core.W() == e.w && core.gState == e.g
    {
      if core.clickingInProgress { return; }
      core.clickingInProgress := true;
      core.AdjustFuncState(cb);
      U.AdjustedModes(core.W(), old(core.gState));
      if core.gState == BothOff {
        core.clickingInProgress := false;
        return;
      }
      var gone := core.ClearOut(cb);
      if gone { return; }
      core.gState := BothOff;
      core.clickingInProgress := false;
    }
  }
}
