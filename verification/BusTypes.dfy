/** The data of the 3DSP bus driver: device slots, interface blocks and the
    commands that drive them (driver_src/bus/businit.h). */
module BusTypes {

  /** A kernel address; 0 is NULL. */
  type Addr = nat

  /** Bitwise or of two unsigned words. A mask of the low n bits is written % 2^n, and a shift by
      n is written * or / 2^n. */
  function Or(a: nat, b: nat): nat
    decreases a
  {
    if a == 0 then b
    else if b == 0 then a
    else 2 * Or(a / 2, b / 2) + (if a % 2 == 1 || b % 2 == 1 then 1 else 0)
  }

  const BT: nat := 1
  const WLAN: nat := 2
  const GPS: nat := 4
  const SLOTS: nat := 3

  /** The answers of DISPLAY_IN_USE beside a set of serial bits. */
  const NONE_STARTED: nat := 0xffff
  const NO_CARD: nat := 0x10000

  datatype PnpState =
    | NotStarted | Started | StopPending | Stopped | RemovePending | SurpriseRemovePending | Deleted
    | Starting | ErrorInitPending | DeviceNone | ErrorOccur | UnKnown | StartWithOS

  datatype PowerState = PowerWirlessOff | PowerWirlessOn | PowerOff2On | PowerOn2Off | PowerUnKnown

  datatype Status = Success | InvalidParameter | NoSuchDevice | MinusOne | Efault

  /** TDSPBUS_INTERFACE: the block a device driver allocates and hands to the bus.
      hasOpen and hasClose say whether the callback pointers are set. */
  datatype Interface = Interface(serialNo: nat, paraFlag: nat, devstate: PnpState, hasOpen: bool, hasClose: bool)

  /** TDSPBUS_DEVICE_DATA: one slot of the bus. */
  datatype Slot = Slot(serialNo: nat, hotKey: nat, antenna: nat, oldFromWb: PnpState, intf: Addr)

  /** FDO_DEVICE_DATA, together with the kernel memory that holds the interface blocks.
      A block that has been freed is no longer in mem. */
  datatype State = State(slots: seq<Slot>, mem: map<Addr, Interface>,
                         enumMode: nat, power: PowerState, pnp: PnpState)

  /** What the open and close callbacks of each device return during one step. */
  datatype Callbacks = Callbacks(open: nat -> int, close: nat -> int)

  /** The history of a bus: who was registered, which callbacks ran and what they returned. */
  datatype Event =
    | Registered(p: Addr)
    | Opened(p: Addr, ret: int)
    | Closed(p: Addr, ret: int)
    | Retired(p: Addr)

  datatype Outcome = Outcome(st: State, status: Status, events: seq<Event>)

  datatype Cmd =
    | PlugInHardware(serial: nat)
    | UnPlugHardware(serial: nat)
    | QueryBusPower
    | DisplayInUse
    | QueryDeviceState(serial: nat)
    | SetHotkey(value: nat)
    | SetAntenna(value: nat)
    | ReadEnumMode
    | WriteEnumMode(mode: nat)
    | QueryResetFlag    // QUERY_DSP_START_FLAG and QUERY_AUTO_ENUM_FLAG too: always 0
    | Reload            // RELOAD_*_CODE and SET_INIT_FLAG: succeed without doing anything
    | Identify          // versions, chip, company, port and radio numbers: only copied out
    | Unserved          // EJECT_HARDWARE, *_REGISTER, GET_SUB_SYSTEM_ID_INFO and unknown commands

  /** One step of the world around the bus: a driver allocates, opens or closes an
      interface block, or a program issues an ioctl. */
  datatype Op =
    | Alloc(p: Addr)
    | Open(p: Addr, serial: nat)
    | Close(p: Addr)
    | Ctl(cmd: Cmd)

  datatype Step = Step(op: Op, cb: Callbacks)
}
