/** What each operation of the bus does to its state, as functions on values
    (driver_src/bus/businit.c, busioctl.c; driver_src/wlan/tdsp_bus.c). */
module BusSpec {
  import opened BusTypes
  import opened Options

  /** The slots carry their fixed serial numbers and no slot points to freed memory. */
  ghost predicate WellFormed(st: State)
  {
    && |st.slots| == SLOTS
    && st.slots[0].serialNo == BT && st.slots[1].serialNo == WLAN && st.slots[2].serialNo == GPS
    && forall i :: 0 <= i < SLOTS && st.slots[i].intf != 0 ==> st.slots[i].intf in st.mem
  }

  /** Every registered interface carries its slot's serial number and both callbacks. */
  ghost predicate Linked(st: State)
    requires WellFormed(st)
  {
    forall i :: 0 <= i < SLOTS && st.slots[i].intf != 0 ==>
      var d := st.mem[st.slots[i].intf];
      d.serialNo == st.slots[i].serialNo && d.hasOpen && d.hasClose
  }

  function InitialState(): (st: State)
  {
    State([Slot(BT, 0, 0, NotStarted, 0), Slot(WLAN, 0, 0, NotStarted, 0), Slot(GPS, 0, 0, NotStarted, 0)],
          map[], 0, PowerWirlessOff, NotStarted)
  }

  function SlotOf(serial: nat): (i: Option<nat>)
    ensures i.Some? ==> i.value < SLOTS
  {
    if serial == BT then Some(0) else if serial == WLAN then Some(1) else if serial == GPS then Some(2) else None
  }

  /** The slot of the serial number, if a driver is registered there. */
  function FindPdo(st: State, serial: nat): (i: Option<nat>)
    requires |st.slots| == SLOTS
    ensures i.Some? ==> i.value < SLOTS && st.slots[i.value].intf != 0
  {
    match SlotOf(serial)
    case None => None
    case Some(i) => if st.slots[i].intf != 0 then Some(i) else None
  }

  ghost predicate Held(st: State, p: Addr)
  {
    p != 0 && exists i :: 0 <= i < |st.slots| && st.slots[i].intf == p
  }

  predicate AnyOccupied(st: State)
    requires |st.slots| == SLOTS
  {
    st.slots[0].intf != 0 || st.slots[1].intf != 0 || st.slots[2].intf != 0
  }

  /** Slot i has a driver and its device is open. */
  predicate StartedAt(st: State, i: nat)
    requires i < |st.slots|
    requires st.slots[i].intf != 0 ==> st.slots[i].intf in st.mem
  {
    st.slots[i].intf != 0 && st.mem[st.slots[i].intf].devstate == Started
  }

  function SetDevstate(st: State, i: nat, d: PnpState): State
    requires i < |st.slots| && st.slots[i].intf in st.mem
  {
    var p := st.slots[i].intf;
    st.(mem := st.mem[p := st.mem[p].(devstate := d)])
  }

  function SetWanted(st: State, i: nat, d: PnpState): State
    requires i < |st.slots|
  {
    st.(slots := st.slots[i := st.slots[i].(oldFromWb := d)])
  }

  /** HOTKEY_FLAG_AND */
  function Masked(serial: nat): nat { serial % 0x1000000 }

  function PlugIn(st: State, serial: nat, cb: Callbacks): (o: Outcome)
    requires WellFormed(st)
    ensures WellFormed(o.st)
  {
    var s := Masked(serial);
    if s == GPS then Outcome(st, InvalidParameter, [])
    else if st.pnp == NotStarted then Outcome(st, NoSuchDevice, [])
    else match FindPdo(st, s)
      case None => Outcome(st, NoSuchDevice, [])
      case Some(i) =>
        var p := st.slots[i].intf;
        if st.mem[p].devstate == Started then Outcome(st, InvalidParameter, [])
        else
          var ret := cb.open(s);
          Outcome(if ret == 0 then SetWanted(SetDevstate(st, i, Started), i, Started) else st,
                  Success, [Opened(p, ret)])
  }

  /** Unplugging the occupant of slot i. */
  function UnplugSlot(st: State, i: nat, cb: Callbacks): (o: Outcome)
    requires WellFormed(st) && i < SLOTS
    ensures WellFormed(o.st)
  {
    var p := st.slots[i].intf;
    if p == 0 || st.mem[p].devstate == NotStarted then Outcome(st, NoSuchDevice, [])
    else
      var ret := cb.close(st.slots[i].serialNo);
      Outcome(if ret == 0 then SetWanted(SetDevstate(st, i, Stopped), i, Stopped)
              else SetWanted(st, i, st.mem[p].devstate),
              Success, [Closed(p, ret)])
  }

  /** Unplugging slots i, i+1, ... in turn. */
  function UnplugFrom(st: State, i: nat, cb: Callbacks): (o: Outcome)
    requires WellFormed(st) && i <= SLOTS
    ensures WellFormed(o.st)
    decreases SLOTS - i
  {
    if i == SLOTS then Outcome(st, Success, [])
    else
      var o := UnplugSlot(st, i, cb);
      var rest := UnplugFrom(o.st, i + 1, cb);
      rest.(events := o.events + rest.events)
  }

  function UnPlug(st: State, serial: nat, cb: Callbacks): (o: Outcome)
    requires WellFormed(st)
    ensures WellFormed(o.st)
  {
    if serial == 0 then UnplugFrom(st, 0, cb)
    else match FindPdo(st, Masked(serial))
      case None => Outcome(st, NoSuchDevice, [])
      case Some(i) => UnplugSlot(st, i, cb)
  }

  /** The flag byte a freshly registered interface receives. */
  function ParaFlagOf(slot: Slot): nat { Or(slot.hotKey, 2 * slot.antenna) }

  /** Interface p takes slot i and the bus powers up. */
  function Enter(st: State, i: nat, p: Addr): (r: State)
    requires WellFormed(st) && i < SLOTS && p in st.mem
    ensures WellFormed(r)
  {
    State(st.slots[i := st.slots[i].(intf := p)],
          st.mem[p := st.mem[p].(devstate := NotStarted, paraFlag := ParaFlagOf(st.slots[i]))],
          st.enumMode, PowerWirlessOn, Started)
  }

  function Register(st: State, p: Addr, cb: Callbacks): (o: Outcome)
    requires WellFormed(st)
    requires p != 0 ==> p in st.mem
    ensures WellFormed(o.st)
  {
    if p == 0 || st.mem[p].serialNo == 0 || st.mem[p].serialNo == GPS
       || !st.mem[p].hasOpen || !st.mem[p].hasClose then Outcome(st, InvalidParameter, [])
    else match SlotOf(st.mem[p].serialNo)
      case None => Outcome(st, MinusOne, [])
      case Some(i) =>
        if st.slots[i].intf != 0 then Outcome(st, MinusOne, [])
        else
          var entered := Enter(st, i, p);
          if st.slots[i].oldFromWb == Started || st.slots[i].oldFromWb == StartWithOS then
            var ret := cb.open(st.mem[p].serialNo);
            Outcome(if ret == 0 then SetDevstate(entered, i, Started) else entered, Success,
                    [Registered(p), Opened(p, ret)])
          else Outcome(entered, Success, [Registered(p)])
  }

  /** The bus powers down when its last device leaves. */
  function Settle(st: State): (r: State)
    requires |st.slots| == SLOTS
  {
    if AnyOccupied(st) then st else st.(pnp := NotStarted, power := PowerWirlessOff)
  }

  function Unregister(st: State, p: Addr, cb: Callbacks): (o: Outcome)
    requires WellFormed(st)
    requires p != 0 ==> p in st.mem
    ensures WellFormed(o.st)
  {
    if p == 0 || st.mem[p].serialNo == 0 then Outcome(st, InvalidParameter, [])
    else match FindPdo(st, st.mem[p].serialNo)
      case None => Outcome(st, NoSuchDevice, [])
      case Some(i) =>
        if st.slots[i].intf != p then Outcome(Settle(st), Success, [])
        else
          Outcome(Settle(st.(slots := st.slots[i := st.slots[i].(intf := 0)])), Success,
                  (if st.mem[p].devstate == Started then [Closed(p, cb.close(st.mem[p].serialNo))] else [])
                  + [Retired(p)])
  }

  // ---------- the drivers' side: allocate, register with one retry, unregister and free ----------

  /** An allocator may fail (p == 0) and never hands out a live block. */
  function NewInterface(st: State, p: Addr): (r: State)
    requires WellFormed(st)
    ensures WellFormed(r)
  {
    if p == 0 || p in st.mem then st
    else st.(mem := st.mem[p := Interface(0, 0, NotStarted, false, false)])
  }

  function Prepared(st: State, p: Addr, serial: nat): (r: State)
    requires WellFormed(st) && p in st.mem
    ensures WellFormed(r) && p in r.mem
  {
    st.(mem := st.mem[p := st.mem[p].(serialNo := serial, hasOpen := true, hasClose := true)])
  }

  /** Bus_openInterface; its result is not WellFormed when it frees a block a slot still points to. */
  function OpenInterface(st: State, p: Addr, serial: nat, cb: Callbacks): (o: Outcome)
    requires WellFormed(st) && p != 0 && p in st.mem
  {
    var first := Register(Prepared(st, p, serial), p, cb);
    if first.status == Success then first
    else
      var second := Register(first.st, p, cb);
      var events := first.events + second.events;
      if second.status == Success then second.(events := events)
      else Outcome(second.st.(mem := second.st.mem - {p}), second.status, events)
  }

  function CloseInterface(st: State, p: Addr, cb: Callbacks): (o: Outcome)
    requires WellFormed(st)
    requires p != 0 ==> p in st.mem
  {
    if p == 0 then Outcome(st, Efault, [])
    else
      var o := Unregister(st, p, cb);
      Outcome(o.st.(mem := o.st.mem - {p}), Success, o.events)
  }

  // ---------- ioctls ----------

  /** The flag byte with bit 0 replaced. */
  function HotkeyFlag(f: nat, v: nat): nat { Or(f - f % 2, v % 2) }

  /** The flag byte with bits 1 and 2 replaced. */
  function AntennaFlag(f: nat, v: nat): nat { Or(f - 2 * (f / 2 % 4), 2 * (v % 4)) }

  function SetFlag(st: State, p: Addr, f: nat): State
    requires p in st.mem
  {
    st.(mem := st.mem[p := st.mem[p].(paraFlag := f)])
  }

  /** SET_HOTKEY_FLAG at slot i: the value is kept, the device counts as started by the
      system, and a registered interface gets the value in bit 0 of its flags. */
  function HotkeyAt(st: State, i: nat, v: nat): (r: State)
    requires WellFormed(st) && i < SLOTS
    ensures WellFormed(r)
  {
    var r := st.(slots := st.slots[i := st.slots[i].(hotKey := v % 2, oldFromWb := StartWithOS)]);
    var p := st.slots[i].intf;
    if p == 0 then r else SetFlag(r, p, HotkeyFlag(st.mem[p].paraFlag, v))
  }

  function HotkeyFrom(st: State, i: nat, v: nat): (r: State)
    requires WellFormed(st) && i <= SLOTS
    ensures WellFormed(r)
    decreases SLOTS - i
  {
    if i == SLOTS then st else HotkeyFrom(HotkeyAt(st, i, v), i + 1, v)
  }

  /** SET_ANTENNA at slot i: the value is kept, and only the WLAN interface gets it in bits 1 and 2. */
  function AntennaAt(st: State, i: nat, v: nat): (r: State)
    requires WellFormed(st) && i < SLOTS
    ensures WellFormed(r)
  {
    var r := st.(slots := st.slots[i := st.slots[i].(antenna := v % 4)]);
    var p := st.slots[i].intf;
    if st.slots[i].serialNo != WLAN || p == 0 then r else SetFlag(r, p, AntennaFlag(st.mem[p].paraFlag, v))
  }

  function AntennaFrom(st: State, i: nat, v: nat): (r: State)
    requires WellFormed(st) && i <= SLOTS
    ensures WellFormed(r)
    decreases SLOTS - i
  {
    if i == SLOTS then st else AntennaFrom(AntennaAt(st, i, v), i + 1, v)
  }

  function StartedBits(st: State): nat
    requires WellFormed(st)
  {
    (if StartedAt(st, 0) then BT else 0) + (if StartedAt(st, 1) then WLAN else 0)
    + (if StartedAt(st, 2) then GPS else 0)
  }

  /** The answer of DISPLAY_IN_USE. */
  function InUse(st: State): nat
    requires WellFormed(st)
  {
    if !AnyOccupied(st) then NO_CARD
    else if StartedBits(st) == 0 then NONE_STARTED
    else StartedBits(st)
  }

  /** A device the user has never asked for: registered, not open, and no wish recorded. */
  predicate Untouched(st: State, i: nat)
    requires WellFormed(st) && i < SLOTS
  {
    st.slots[i].intf != 0 && !StartedAt(st, i) && st.slots[i].oldFromWb == NotStarted
  }

  /** The answer of READ_ENUM_MODE; all ones is the driver's (ULONG)(-1). */
  function EnumAnswer(st: State): nat
    requires WellFormed(st)
  {
    if StartedAt(st, 0) || StartedAt(st, 1) then
      (if StartedAt(st, 0) then BT else 0) + (if StartedAt(st, 1) then WLAN else 0)
    else if Untouched(st, 0) || Untouched(st, 1) then 0xFFFFFFFF
    else 0
  }

  function DeviceStateAnswer(st: State, serial: nat): nat
    requires WellFormed(st)
  {
    match FindPdo(st, serial)
    case Some(i) => if StartedAt(st, i) then 1 else 0xff
    case None => 0xff
  }

  predicate PassesGate(st: State, cmd: Cmd)
  {
    st.pnp == Started || cmd.SetHotkey? || cmd.SetAntenna?
  }

  /** The effect of an ioctl on the bus. */
  function Ioctl(st: State, cmd: Cmd, cb: Callbacks): (o: Outcome)
    requires WellFormed(st)
    ensures WellFormed(o.st)
  {
    if !PassesGate(st, cmd) then Outcome(st, Efault, [])
    else match cmd
      case PlugInHardware(s) => PlugIn(st, s, cb)
      case UnPlugHardware(s) => UnPlug(st, s, cb)
      case SetHotkey(v) => Outcome(HotkeyFrom(st, 0, v), Success, [])
      case SetAntenna(v) => Outcome(AntennaFrom(st, 0, v), Success, [])
      case ReadEnumMode => Outcome(st.(enumMode := EnumAnswer(st)), Success, [])
      case WriteEnumMode(m) => Outcome(st.(enumMode := m), Success, [])
      case Unserved => Outcome(st, InvalidParameter, [])
      case _ => Outcome(st, Success, [])
  }

  /** The word an ioctl copies back to the caller, when it passes the gate. What Identify copies is not
      part of the model. */
  function Answer(st: State, cmd: Cmd): nat
    requires WellFormed(st)
  {
    match cmd
    case QueryBusPower => PowerWord(st.power)
    case DisplayInUse => InUse(st)
    case QueryDeviceState(s) => DeviceStateAnswer(st, s)
    case ReadEnumMode => EnumAnswer(st)
    case _ => 0
  }

  function PowerWord(p: PowerState): nat
  {
    match p
    case PowerWirlessOff => 0
    case PowerWirlessOn => 1
    case PowerOff2On => 2
    case PowerOn2Off => 3
    case PowerUnKnown => 4
  }

  // ---------- runs ----------

  /** One step. A driver opens only a block it has allocated and not yet opened, and
      closes only a block it has. */
  function Perform(st: State, s: Step): (o: Outcome)
    requires WellFormed(st)
  {
    match s.op
    case Alloc(p) => Outcome(NewInterface(st, p), Success, [])
    case Open(p, serial) =>
      if p in st.mem && p != 0 && p != st.slots[0].intf && p != st.slots[1].intf && p != st.slots[2].intf
      then OpenInterface(st, p, serial, s.cb) else Outcome(st, Success, [])
    case Close(p) =>
      if p in st.mem then CloseInterface(st, p, s.cb) else Outcome(st, Success, [])
    case Ctl(cmd) => Ioctl(st, cmd, s.cb)
  }
}
