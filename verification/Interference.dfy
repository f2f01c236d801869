/** What other programs and the USB subsystem do to the bus behind a client's back. */
module Interference {
  import opened BusTypes
  import opened BusSpec
  import opened BusRuns
  import opened BusProperties
  import B = BusDriver

  /** One step of the outside world, carried out on the bus itself. */
  method PerformStep(bus: B.BusDriver, s: Step)
    requires bus.Valid() && Sound(World(bus.St(), bus.trace))
    modifies bus, bus.deviceData
    ensures bus.Valid() && Sound(World(bus.St(), bus.trace))
    ensures World(bus.St(), bus.trace) == StepFrom(old(World(bus.St(), bus.trace)), s)
  {
    ghost var w := World(bus.St(), bus.trace);
    PerformKeeps(w, s);
    match s.op {
      case Alloc(p) =>
        var q := bus.BusNewInterface(p);
        assert w.trace + [] == w.trace;
      case Open(p, serial) =>
        if p in bus.mem && p != 0
           && p != bus.deviceData[0].intf && p != bus.deviceData[1].intf && p != bus.deviceData[2].intf
        {
          var status := bus.BusOpenInterface(p, serial, s.cb);
        } else {
          assert w.trace + [] == w.trace;
        }
      case Close(p) =>
        if p in bus.mem {
          var status := bus.BusCloseInterface(p, s.cb);
        } else {
          assert w.trace + [] == w.trace;
        }
      case Ctl(cmd) =>
        var status, answer := bus.UnlockedIoctl(true, cmd, s.cb);
    }
  }

  /** A burst of such steps. */
  method PerformAll(bus: B.BusDriver, steps: seq<Step>)
    requires bus.Valid() && Sound(World(bus.St(), bus.trace))
    modifies bus, bus.deviceData
    ensures bus.Valid() && Sound(World(bus.St(), bus.trace))
    ensures World(bus.St(), bus.trace) == RunFrom(old(World(bus.St(), bus.trace)), steps)
  {
    ghost var w := World(bus.St(), bus.trace);
    var i := 0;
    while i < |steps|
      invariant i <= |steps|
      invariant bus.Valid() && Sound(World(bus.St(), bus.trace))
      invariant World(bus.St(), bus.trace) == RunFrom(w, steps[..i])
    {
      PerformStep(bus, steps[i]);
      assert steps[..i + 1][..i] == steps[..i];
      i := i + 1;
    }
    assert steps[..i] == steps;
  }

  /** The drivers' getters after any run: an interface in slot i shows the hotkey value set last,
      and the WLAN interface the antenna value set last, before or after it registered. */
  method FlagsAfterRun(bus: B.BusDriver, steps: seq<Step>, i: nat) returns (hotkey: nat, antenna: nat)
    requires bus.Valid() && World(bus.St(), bus.trace) == Start() && i < SLOTS
    modifies bus, bus.deviceData
    ensures bus.Valid() && World(bus.St(), bus.trace) == RunFrom(Start(), steps)
    ensures bus.deviceData[i].intf != 0 ==>
              hotkey == LastHotkey(steps) % 2 && (i == 1 ==> antenna == LastAntenna(steps) % 4)
  {
    PerformAll(bus, steps);
    FlagHistory(steps);
    assert FlagsOk(bus.St(), i, LastHotkey(steps) % 2, LastAntenna(steps) % 4);
    hotkey, antenna := 0, 0;
    var p := bus.deviceData[i].intf;
    if p != 0 {
      hotkey := bus.BusGetHotkeyFlag(p);
      antenna := bus.BusGetAntennaFlag(p);
    }
  }
}
