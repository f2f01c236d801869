/** The bus driver as it runs: a slot array, driver-wide fields and the interface blocks it
    points to, updated in place by registration calls and ioctls. Every method is tied to a
    function of BusSpec (driver_src/bus/businit.c, driver_src/bus/busioctl.c). */
module BusDriver {
  import opened BusTypes
  import opened Options
  import opened BusSpec
  import opened BusProperties

  class BusDriver {
    const deviceData: array<Slot>
    var mem: map<Addr, Interface>
    var enumMode: nat
    var busPowerState: PowerState
    var devicePnPState: PnpState
    /** What the bus has done to the drivers since the module was loaded. */
    ghost var trace: seq<Event>

    ghost function St(): State
      reads this, deviceData
    {
      State(deviceData[..], mem, enumMode, busPowerState, devicePnPState)
    }

    ghost predicate Valid()
      reads this, deviceData
    {
      WellFormed(St())
    }

    /** tdspbus_init_module */
    constructor ()
      ensures Valid() && fresh(deviceData)
      ensures St() == InitialState() && trace == []
    {
      var slots := new Slot[SLOTS](i => Slot(0, 0, 0, NotStarted, 0));
      slots[0] := Slot(BT, 0, 0, NotStarted, 0);
      slots[1] := Slot(WLAN, 0, 0, NotStarted, 0);
      slots[2] := Slot(GPS, 0, 0, NotStarted, 0);
      deviceData := slots;
      mem, enumMode, busPowerState, devicePnPState := map[], 0, PowerWirlessOff, NotStarted;
      trace := [];
    }

    /** The open callback of an interface. */
    method CallOpen(p: Addr, cb: Callbacks) returns (ret: int)
      requires p in mem && mem[p].hasOpen
      modifies this`trace
      ensures ret == cb.open(mem[p].serialNo) && trace == old(trace) + [Opened(p, ret)]
    {
      ret := cb.open(mem[p].serialNo);
      trace := trace + [Opened(p, ret)];
    }

    /** The close callback of an interface. */
    method CallClose(p: Addr, cb: Callbacks) returns (ret: int)
      requires p in mem && mem[p].hasClose
      modifies this`trace
      ensures ret == cb.close(mem[p].serialNo) && trace == old(trace) + [Closed(p, ret)]
    {
      ret := cb.close(mem[p].serialNo);
      trace := trace + [Closed(p, ret)];
    }

    /** Bus_FindPdoBySerialNo; SLOTS stands for the NULL answer. */
    method FindPdoBySerialNo(serial: nat) returns (k: nat)
      requires Valid()
      ensures k <= SLOTS
      ensures k < SLOTS ==> FindPdo(St(), serial) == Some(k)
      ensures k == SLOTS ==> FindPdo(St(), serial) == None
    {
      var i := 0;
      while i < SLOTS
        invariant i <= SLOTS
        invariant forall j :: 0 <= j < i ==> deviceData[j].serialNo != serial
      {
        if deviceData[i].serialNo == serial {
          if deviceData[i].intf != 0 { return i; } else { return SLOTS; }
        }
        i := i + 1;
      }
      return SLOTS;
    }

    /** Bus_PlugInDevice */
    method PlugInDevice(serial: nat, cb: Callbacks) returns (status: Status)
      requires Valid() && Linked(St())
      modifies this, deviceData
      ensures Valid()
      ensures St() == PlugIn(old(St()), serial, cb).st
      ensures status == PlugIn(old(St()), serial, cb).status
      ensures trace == old(trace) + PlugIn(old(St()), serial, cb).events
    {
      var s := serial % 0x1000000;
      if s == GPS { return InvalidParameter; }
      if devicePnPState == NotStarted { return NoSuchDevice; }
      var k := FindPdoBySerialNo(s);
      if k == SLOTS { return NoSuchDevice; }
      var p := deviceData[k].intf;
      if mem[p].devstate == Started { return InvalidParameter; }
      var ret := CallOpen(p, cb);
      if ret == 0 {
        mem := mem[p := mem[p].(devstate := Started)];
        deviceData[k] := deviceData[k].(oldFromWb := mem[p].devstate);
      }
      return Success;
    }

    /** The part of Bus_UnPlugDevice that closes the device found in slot k. */
    method CloseSlot(k: nat, cb: Callbacks)
      requires Valid() && Linked(St()) && k < SLOTS && deviceData[k].intf != 0
      requires mem[deviceData[k].intf].devstate != NotStarted
      modifies this, deviceData
      ensures Valid() && Linked(St())
      ensures St() == UnplugSlot(old(St()), k, cb).st
      ensures trace == old(trace) + UnplugSlot(old(St()), k, cb).events
    {
      var p := deviceData[k].intf;
      deviceData[k] := deviceData[k].(oldFromWb := mem[p].devstate);
      var ret := CallClose(p, cb);
      if ret == 0 {
        mem := mem[p := mem[p].(devstate := Stopped)];
        deviceData[k] := deviceData[k].(oldFromWb := mem[p].devstate);
      }
      assert deviceData[..] == UnplugSlot(old(St()), k, cb).st.slots;
    }

    /** Bus_UnPlugDevice: serial number 0 unplugs every registered device by calling itself. */
    method UnPlugDevice(serial: nat, cb: Callbacks) returns (status: Status)
      requires Valid() && Linked(St())
      modifies this, deviceData
      ensures Valid() && Linked(St())
      ensures St() == UnPlug(old(St()), serial, cb).st
      ensures status == UnPlug(old(St()), serial, cb).status
      ensures trace == old(trace) + UnPlug(old(St()), serial, cb).events
      decreases if serial == 0 then 2 else 0, 0
    {
      if serial == 0 {
        UnPlugAll(cb);
        UnplugFromSucceeds(old(St()), 0, cb);
        return Success;
      }
      var k := FindPdoBySerialNo(serial % 0x1000000);
      if k == SLOTS { return NoSuchDevice; }
      if mem[deviceData[k].intf].devstate == NotStarted { return NoSuchDevice; }
      CloseSlot(k, cb);
      return Success;
    }

    /** The loop of Bus_UnPlugDevice for serial number 0. */
    method UnPlugAll(cb: Callbacks)
      requires Valid() && Linked(St())
      modifies this, deviceData
      ensures Valid() && Linked(St())
      ensures St() == UnplugFrom(old(St()), 0, cb).st
      ensures trace == old(trace) + UnplugFrom(old(St()), 0, cb).events
      decreases 1, 1
    {
      ghost var all := UnplugFrom(St(), 0, cb);
      for i := 0 to SLOTS
        invariant Valid() && Linked(St())
        invariant all.st == UnplugFrom(St(), i, cb).st
        invariant old(trace) + all.events == trace + UnplugFrom(St(), i, cb).events
      {
        ghost var st, tr := St(), trace;
        UnPlugAt(i, cb);
        UnplugFromStep(st, i, cb, tr);
      }
    }

    /** One round of that loop. */
    method UnPlugAt(i: nat, cb: Callbacks)
      requires Valid() && Linked(St()) && i < SLOTS
      modifies this, deviceData
      ensures Valid() && Linked(St())
      ensures St() == UnplugSlot(old(St()), i, cb).st
      ensures trace == old(trace) + UnplugSlot(old(St()), i, cb).events
      decreases 1, 0
    {
      if deviceData[i].intf != 0 {
        var rc := UnPlugDevice(deviceData[i].serialNo, cb);
      }
    }

    /** The part of registration that fills slot i. */
    method EnterSlot(i: nat, p: Addr)
      requires Valid() && i < SLOTS && p in mem
      modifies this, deviceData
      ensures Valid() && St() == Enter(old(St()), i, p)
      ensures trace == old(trace) + [Registered(p)]
    {
      mem := mem[p := mem[p].(devstate := NotStarted)];
      deviceData[i] := deviceData[i].(intf := p);
      devicePnPState := Started;
      mem := mem[p := mem[p].(paraFlag := Or(deviceData[i].hotKey, 2 * deviceData[i].antenna))];
      busPowerState := PowerWirlessOn;
      trace := trace + [Registered(p)];
      assert deviceData[..] == Enter(old(St()), i, p).slots;
    }

    /** register_tdspbus_usbdev */
    method RegisterUsbDev(p: Addr, cb: Callbacks) returns (status: Status)
      requires Valid()
      requires p != 0 ==> p in mem
      modifies this, deviceData
      ensures Valid()
      ensures St() == Register(old(St()), p, cb).st
      ensures status == Register(old(St()), p, cb).status
      ensures trace == old(trace) + Register(old(St()), p, cb).events
    {
      if p == 0 { return InvalidParameter; }
      if mem[p].serialNo == 0 { return InvalidParameter; }
      if mem[p].serialNo == GPS { return InvalidParameter; }
      if !mem[p].hasOpen || !mem[p].hasClose { return InvalidParameter; }
      var i := 0;
      while i < SLOTS
        invariant i <= SLOTS
        invariant forall j :: 0 <= j < i ==> deviceData[j].serialNo != mem[p].serialNo
      {
        if deviceData[i].serialNo == mem[p].serialNo {
          if deviceData[i].intf != 0 { return MinusOne; }
          break;
        }
        i := i + 1;
      }
      if i >= SLOTS { return MinusOne; }
      EnterSlot(i, p);
      if deviceData[i].oldFromWb == Started || deviceData[i].oldFromWb == StartWithOS {
        var ret := CallOpen(p, cb);
        if ret == 0 {
          mem := mem[p := mem[p].(devstate := Started)];
        }
      }
      return Success;
    }

    /** unregister_tdspbus_usbdev */
    method UnregisterUsbDev(p: Addr, cb: Callbacks) returns (status: Status)
      requires Valid() && Linked(St())
      requires p != 0 ==> p in mem
      modifies this, deviceData
      ensures Valid()
      ensures St() == Unregister(old(St()), p, cb).st
      ensures status == Unregister(old(St()), p, cb).status
      ensures trace == old(trace) + Unregister(old(St()), p, cb).events
    {
      if p == 0 { return InvalidParameter; }
      if mem[p].serialNo == 0 { return InvalidParameter; }
      var k := FindPdoBySerialNo(mem[p].serialNo);
      if k == SLOTS { return NoSuchDevice; }
      var closeFlag, removed := false, false;
      if deviceData[k].intf == p {
        if mem[p].devstate == Started { closeFlag := true; }
        deviceData[k] := deviceData[k].(intf := 0);
        removed := true;
      }
      var i := 0;
      while i < SLOTS
        invariant i <= SLOTS
        invariant forall j :: 0 <= j < i ==> deviceData[j].intf == 0
      {
        if deviceData[i].intf != 0 { break; }
        i := i + 1;
      }
      if i >= SLOTS {
        devicePnPState := NotStarted;
        busPowerState := PowerWirlessOff;
      }
      if closeFlag {
        var ret := CallClose(p, cb);
      }
      if removed {
        trace := trace + [Retired(p)];
      }
      return Success;
    }

    /** SET_HOTKEY_FLAG at one slot. */
    method SetHotkeyAt(i: nat, v: nat)
      requires Valid() && i < SLOTS
      modifies this`mem, deviceData
      ensures Valid() && St() == HotkeyAt(old(St()), i, v)
    {
      deviceData[i] := deviceData[i].(hotKey := v % 2);
      deviceData[i] := deviceData[i].(oldFromWb := StartWithOS);
      var p := deviceData[i].intf;
      if p != 0 {
        mem := mem[p := mem[p].(paraFlag := mem[p].paraFlag - mem[p].paraFlag % 2)];
        mem := mem[p := mem[p].(paraFlag := Or(mem[p].paraFlag, deviceData[i].hotKey))];
      }
      assert deviceData[..] == HotkeyAt(old(St()), i, v).slots;
    }

    /** SET_HOTKEY_FLAG */
    method SetHotkeyFlag(v: nat)
      requires Valid()
      modifies this`mem, deviceData
      ensures Valid() && St() == HotkeyFrom(old(St()), 0, v)
    {
      for i := 0 to SLOTS
        invariant Valid() && HotkeyFrom(old(St()), 0, v) == HotkeyFrom(St(), i, v)
      {
        SetHotkeyAt(i, v);
      }
    }

    /** SET_ANTENNA at one slot. */
    method SetAntennaAt(i: nat, v: nat)
      requires Valid() && i < SLOTS
      modifies this`mem, deviceData
      ensures Valid() && St() == AntennaAt(old(St()), i, v)
    {
      deviceData[i] := deviceData[i].(antenna := v % 4);
      var p := deviceData[i].intf;
      if deviceData[i].serialNo == WLAN && p != 0 {
        mem := mem[p := mem[p].(paraFlag := mem[p].paraFlag - 2 * (mem[p].paraFlag / 2 % 4))];
        mem := mem[p := mem[p].(paraFlag := Or(mem[p].paraFlag, 2 * deviceData[i].antenna))];
      }
      assert deviceData[..] == AntennaAt(old(St()), i, v).slots;
    }

    /** SET_ANTENNA */
    method SetAntennaFlag(v: nat)
      requires Valid()
      modifies this`mem, deviceData
      ensures Valid() && St() == AntennaFrom(old(St()), 0, v)
    {
      for i := 0 to SLOTS
        invariant Valid() && AntennaFrom(old(St()), 0, v) == AntennaFrom(St(), i, v)
      {
        SetAntennaAt(i, v);
      }
    }

    /** DISPLAY_IN_USE. The two bytes of val are kept apart: val is 0x100 * hi + lo. */
    method DisplayInUseDevice() returns (val: nat)
      requires Valid()
      ensures val == InUse(St())
    {
      var lo, hi := 0, 0;
      var i := 0;
      while i < SLOTS
        invariant i <= SLOTS
        invariant lo == (if 0 < i && StartedAt(St(), 0) then BT else 0)
                        + (if 1 < i && StartedAt(St(), 1) then WLAN else 0)
                        + (if 2 < i && StartedAt(St(), 2) then GPS else 0)
        invariant hi == 0 || hi == 0xff
        invariant hi == 0xff || lo != 0 <==> exists j :: 0 <= j < i && deviceData[j].intf != 0
      {
        var p := deviceData[i].intf;
        if p != 0 {
          if mem[p].devstate == Started {
            OrSmall(lo, deviceData[i].serialNo);
            lo := Or(lo, deviceData[i].serialNo);
          } else {
            hi := 0xff;
          }
        }
        i := i + 1;
      }
      if hi != 0 || lo != 0 {
        if lo == 0 { val := 0xffff; } else { val := lo; }
      } else {
        val := 0x10000;
      }
    }

    /** READ_ENUM_MODE. The two low bytes of EnumMode are kept apart until the end. */
    method ReadEnum() returns (val: nat)
      requires Valid()
      modifies this`enumMode
      ensures Valid() && val == EnumAnswer(old(St())) && St() == old(St()).(enumMode := val)
    {
      var lo, hi := 0, 0;
      var k := FindPdoBySerialNo(BT);
      if k != SLOTS {
        if mem[deviceData[k].intf].devstate == Started {
          lo := BT;
        } else if deviceData[k].oldFromWb == NotStarted {
          hi := BT;
        }
      }
      k := FindPdoBySerialNo(WLAN);
      if k != SLOTS {
        if mem[deviceData[k].intf].devstate == Started {
          OrSmall(lo, WLAN);
          lo := Or(lo, WLAN);
        } else if deviceData[k].oldFromWb == NotStarted {
          OrSmall(hi, WLAN);
          hi := Or(hi, WLAN);
        }
      }
      if lo != 0 {
        enumMode := lo;
      } else if hi != 0 {
        enumMode := 0xFFFFFFFF;
      } else {
        enumMode := 0;
      }
      val := enumMode;
    }

    /** QUERY_DEVICE_STATE */
    method QueryDevState(serial: nat) returns (val: nat)
      requires Valid()
      ensures val == DeviceStateAnswer(St(), serial)
    {
      val := 0xff;
      var k := FindPdoBySerialNo(serial);
      if k != SLOTS && mem[deviceData[k].intf].devstate == Started {
        val := 1;
      }
    }

    /** tdspbus_unlocked_ioctl: the gate, then one command. A file that was not opened on this
        driver is refused. */
    method UnlockedIoctl(ours: bool, cmd: Cmd, cb: Callbacks) returns (status: Status, answer: nat)
      requires Valid() && Linked(St())
      modifies this, deviceData
      ensures Valid()
      ensures !ours ==> St() == old(St()) && trace == old(trace) && status == Efault
      ensures ours ==>
                && St() == Ioctl(old(St()), cmd, cb).st && status == Ioctl(old(St()), cmd, cb).status
                && trace == old(trace) + Ioctl(old(St()), cmd, cb).events
      ensures ours && PassesGate(old(St()), cmd) && !cmd.Identify? ==> answer == Answer(old(St()), cmd)
    {
      answer := 0;
      if !ours { return Efault, 0; }
      if devicePnPState != Started && !cmd.SetHotkey? && !cmd.SetAntenna? {
        return Efault, 0;
      }
      status := Success;
      match cmd {
        case PlugInHardware(s) => status := PlugInDevice(s, cb);
        case UnPlugHardware(s) => status := UnPlugDevice(s, cb);
        case QueryBusPower => answer := PowerWord(busPowerState);
        case DisplayInUse => answer := DisplayInUseDevice();
        case QueryDeviceState(s) => answer := QueryDevState(s);
        case SetHotkey(v) => SetHotkeyFlag(v);
        case SetAntenna(v) => SetAntennaFlag(v);
        case ReadEnumMode => answer := ReadEnum();
        case WriteEnumMode(m) => enumMode := m;
        case QueryResetFlag =>
        case Reload =>
        case Identify =>
        case Unserved => status := InvalidParameter;
      }
    }

    // ---------- the device drivers' side (driver_src/wlan/tdsp_bus.c, driver_src/new_bluetooth/tdsp_bus.c) ----------

    /** Bus_new_interface: the allocator offers block p, or 0 when it has none. */
    method BusNewInterface(p: Addr) returns (r: Addr)
      requires Valid()
      modifies this`mem
      ensures Valid() && St() == NewInterface(old(St()), p)
      ensures r == if p == 0 || p in old(mem) then 0 else p
    {
      if p == 0 || p in mem { return 0; }
      mem := mem[p := Interface(0, 0, NotStarted, false, false)];
      return p;
    }

    /** Bus_openInterface: register, retry once, free the block if that fails too. */
    method BusOpenInterface(p: Addr, serial: nat, cb: Callbacks) returns (status: Status)
      requires Valid() && p != 0 && p in mem
      modifies this, deviceData
      ensures St() == OpenInterface(old(St()), p, serial, cb).st
      ensures status == OpenInterface(old(St()), p, serial, cb).status
      ensures trace == old(trace) + OpenInterface(old(St()), p, serial, cb).events
    {
      mem := mem[p := mem[p].(serialNo := serial)];
      mem := mem[p := mem[p].(hasOpen := true)];
      mem := mem[p := mem[p].(hasClose := true)];
      assert St() == Prepared(old(St()), p, serial);
      status := RegisterUsbDev(p, cb);
      if status != Success {
        status := RegisterUsbDev(p, cb);
      }
      if status != Success {
        mem := mem - {p};
      }
    }

    /** Bus_closeInterface: unregister, then free. */
    method BusCloseInterface(p: Addr, cb: Callbacks) returns (status: Status)
      requires Valid() && Linked(St())
      requires p != 0 ==> p in mem
      modifies this, deviceData
      ensures St() == CloseInterface(old(St()), p, cb).st
      ensures status == CloseInterface(old(St()), p, cb).status
      ensures trace == old(trace) + CloseInterface(old(St()), p, cb).events
    {
      if p == 0 { return Efault; }
      status := UnregisterUsbDev(p, cb);
      mem := mem - {p};
      status := Success;
    }

    /** Bus_get_hotkey_flag: for a registered interface, the value its slot keeps. */
    method BusGetHotkeyFlag(p: Addr) returns (b: nat)
      requires Valid() && p in mem
      ensures b == mem[p].paraFlag % 2
      ensures forall i, h, a :: 0 <= i < SLOTS && deviceData[i].intf == p != 0 && FlagsOk(St(), i, h, a) ==> b == h
    {
      b := mem[p].paraFlag % 2;
    }

    /** Bus_get_antenna_flag: for the registered WLAN interface, the value its slot keeps. */
    method BusGetAntennaFlag(p: Addr) returns (b: nat)
      requires Valid() && p in mem
      ensures b == mem[p].paraFlag / 2 % 4
      ensures forall h, a :: deviceData[1].intf == p != 0 && FlagsOk(St(), 1, h, a) ==> b == a
    {
      b := mem[p].paraFlag / 2 % 4;
    }
  }

  /** Or of a number with a higher bit is their sum. */
  lemma OrSmall(a: nat, b: nat)
    requires (b == 1 && a == 0) || (b == 2 && a < 2) || (b == 4 && a < 4)
    ensures Or(a, b) == a + b
  {
    if b == 4 && 1 < a { assert Or(a / 2, 2) == a / 2 + 2; }
  }

  lemma UnplugFromStep(st: State, i: nat, cb: Callbacks, tr: seq<Event>)
    requires WellFormed(st) && i < SLOTS
    ensures var o := UnplugSlot(st, i, cb);
            && UnplugFrom(st, i, cb).st == UnplugFrom(o.st, i + 1, cb).st
            && tr + UnplugFrom(st, i, cb).events == (tr + o.events) + UnplugFrom(o.st, i + 1, cb).events
  {
  }

  lemma UnplugFromSucceeds(st: State, i: nat, cb: Callbacks)
    requires WellFormed(st) && i <= SLOTS
    ensures UnplugFrom(st, i, cb).status == Success
    decreases SLOTS - i
  {
  }
}
