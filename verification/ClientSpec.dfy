/** What the mode-switching programs do to the bus, as functions on worlds: the GUI's direct and
    indirect variants of every switch (applications/uwb/src/callbacks.c, main.c). A quiet world
    is assumed: between two ioctls of a switch only the switch itself touches the bus. */
module ClientSpec {
  import opened BusTypes
  import opened Options
  import opened BusSpec
  import opened BusRuns
  import opened BusProperties

  /** g_state */
  datatype Mode = BtOn | WlanOn | BothOn | BothOff | Undefined

  /** The mode that a set of started devices amounts to. */
  function ModeOf(st: State): Mode
    requires WellFormed(st)
  {
    if StartedAt(st, 0) then (if StartedAt(st, 1) then BothOn else BtOn)
    else if StartedAt(st, 1) then WlanOn else BothOff
  }

  function CardIn(st: State): bool { st.pnp == Started }

  /** adjust_func_state on the answer of DISPLAY_IN_USE. */
  function AdjustMode(g: Mode, cardIn: bool, serialNo: nat): Mode
  {
    var g1 := if !cardIn then BothOff else g;
    if serialNo == 1 then BtOn
    else if serialNo == 2 then WlanOn
    else if serialNo == 3 then BothOn
    else if serialNo == 0xffff then BothOff
    else g1
  }

  function Adjusted(g: Mode, st: State): Mode
    requires WellFormed(st)
  {
    AdjustMode(g, CardIn(st), if CardIn(st) then InUse(st) else NO_CARD)
  }

  /** After adjust_func_state the client knows whether a card is in and its g_state is the
      abstraction of the set of started devices, whatever g_state was before. */
  lemma ViewIsExact(w: World, g: Mode)
    requires Sound(w)
    ensures (CardIn(w.st) <==> AnyOccupied(w.st)) && Adjusted(g, w.st) == ModeOf(w.st)
  {
  }

  /** initial_wb_defaultmode looks g_allowedmodes up at nenummode - 1 only when that is an index
      of the three modes, whatever WRITE_ENUM_MODE stored before. */
  lemma EnumModeInRange(steps: seq<Step>, mode: nat)
    ensures var st := RunFrom(Start(), steps).st.(enumMode := mode);
            WellFormed(st) && (EnumAnswer(st) != 0xFFFFFFFF && EnumAnswer(st) != 0 ==> 0 <= EnumAnswer(st) - 1 < 3)
  {
    EnumModeAgrees(steps, mode);
  }

  ghost function Do(w: World, cmd: Cmd, cb: Callbacks): (r: World)
    requires Sound(w)
    ensures Sound(r)
  {
    StepFrom(w, Step(Ctl(cmd), cb))
  }

  /** unplugdevices has nothing to do, or writes enum mode 0 and unplugs what g names. */
  ghost function Unplugged(w: World, g: Mode, cb: Callbacks): (r: World)
    requires Sound(w)
    ensures Sound(r)
  {
    if g == BothOff || !CardIn(w.st) || InUse(w.st) == NONE_STARTED then w
    else
      var w0 := Do(w, WriteEnumMode(0), cb);
      match g
      case BtOn => Do(w0, UnPlugHardware(BT), cb)
      case WlanOn => Do(w0, UnPlugHardware(WLAN), cb)
      case BothOn => Do(Do(w0, UnPlugHardware(BT), cb), UnPlugHardware(WLAN), cb)
      case _ => w0
  }

  /** tdsp_is_download_dspcode_ok */
  predicate DownloadOk(st: State)
    requires WellFormed(st)
  {
    CardIn(st) && InUse(st) != NONE_STARTED
  }

  /** How a switch ends: it returns with some g_state, or it waits for ever. */
  datatype Ending = Returned(g: Mode, w: World) | Waits(w: World)

  ghost predicate SoundEnd(e: Ending) { Sound(e.w) }

  /** Switching to the single device serial, whose mode is own. */
  ghost function SingleSwitch(w: World, g0: Mode, direct: bool, serial: nat, enumMode: nat, cb: Callbacks): (e: Ending)
    requires Sound(w) && (serial == BT || serial == WLAN)
    ensures SoundEnd(e)
  {
    var own := if serial == BT then BtOn else WlanOn;
    var g := Adjusted(g0, w.st);
    if !CardIn(w.st) then Returned(BothOff, w)
    else if g == own then Returned(own, w)
    else if direct && g == BothOn then DropRival(w, serial, cb)
    else PlugAlone(w, g, if direct && serial == BT then None else Some(enumMode), serial, cb)
  }

  /** The direct way out of coexistence: only the rival device is unplugged. */
  ghost function DropRival(w: World, serial: nat, cb: Callbacks): (e: Ending)
    requires Sound(w)
    ensures SoundEnd(e)
  {
    if serial == BT then Returned(BtOn, Do(w, UnPlugHardware(WLAN), cb))
    else Returned(WlanOn, Do(Do(w, UnPlugHardware(BT), cb), WriteEnumMode(2), cb))
  }

  /** Unplug what is started, perhaps write the enum mode, plug the wanted device in. */
  ghost function PlugAlone(w: World, g: Mode, mode: Option<nat>, serial: nat, cb: Callbacks): (e: Ending)
    requires Sound(w)
    ensures SoundEnd(e)
  {
    var w1 := Unplugged(w, g, cb);
    var w2 := if mode.None? then w1 else Do(w1, WriteEnumMode(mode.value), cb);
    var w3 := Do(w2, PlugInHardware(serial), cb);
    Returned(if !DownloadOk(w3.st) then Adjusted(BothOff, w3.st) else if serial == BT then BtOn else WlanOn, w3)
  }

  ghost function BtSwitch(w: World, g0: Mode, direct: bool, cb: Callbacks): (e: Ending)
    requires Sound(w)
    ensures SoundEnd(e)
  {
    SingleSwitch(w, g0, direct, BT, 1, cb)
  }

  ghost function WlanSwitch(w: World, g0: Mode, direct: bool, cb: Callbacks): (e: Ending)
    requires Sound(w)
    ensures SoundEnd(e)
  {
    SingleSwitch(w, g0, direct, WLAN, 2, cb)
  }

  /** WLAN first, wait until it is started, then Bluetooth. */
  ghost function WlanThenBt(w: World, cb: Callbacks): (e: Ending)
    requires Sound(w)
    ensures SoundEnd(e)
  {
    var w1 := Do(w, PlugInHardware(WLAN), cb);
    if !DownloadOk(w1.st) then Returned(Adjusted(BothOff, w1.st), w1)
    else if !StartedAt(w1.st, 1) then Waits(w1)
    else Returned(BothOn, Do(w1, PlugInHardware(BT), cb))
  }

  /** The indirect way into coexistence: unplug what is started, then start both. */
  ghost function Rebuild(w: World, g: Mode, cb: Callbacks): (e: Ending)
    requires Sound(w)
    ensures SoundEnd(e)
  {
    WlanThenBt(Do(Unplugged(w, g, cb), WriteEnumMode(3), cb), cb)
  }

  /** The direct way into coexistence: only what is missing is plugged in. */
  ghost function AddMissing(w: World, g: Mode, cb: Callbacks): (e: Ending)
    requires Sound(w)
    ensures SoundEnd(e)
  {
    if g == BtOn then AddOther(w, g, WLAN, cb)
    else if g == WlanOn then AddOther(w, g, BT, cb)
    else WlanThenBt(Do(w, WriteEnumMode(3), cb), cb)
  }

  ghost function AddOther(w: World, g: Mode, serial: nat, cb: Callbacks): (e: Ending)
    requires Sound(w)
    ensures SoundEnd(e)
  {
    var w2 := Do(Do(w, WriteEnumMode(3), cb), PlugInHardware(serial), cb);
    Returned(if DownloadOk(w2.st) then BothOn else Adjusted(g, w2.st), w2)
  }

  ghost function CoexistSwitch(w: World, g0: Mode, direct: bool, cb: Callbacks): (e: Ending)
    requires Sound(w)
    ensures SoundEnd(e)
  {
    var g := Adjusted(g0, w.st);
    if !CardIn(w.st) then Returned(BothOff, w)
    else if g == BothOn then Returned(BothOn, w)
    else if direct then AddMissing(w, g, cb)
    else Rebuild(w, g, cb)
  }

  ghost function UnplugSwitch(w: World, g0: Mode, cb: Callbacks): (e: Ending)
    requires Sound(w)
    ensures SoundEnd(e)
  {
    var g := Adjusted(g0, w.st);
    Returned(BothOff, Unplugged(w, g, cb))
  }

  /** A request of the user. */
  ghost function Switch(w: World, g0: Mode, direct: bool, want: Mode, cb: Callbacks): (e: Ending)
    requires Sound(w) && want != Undefined
    ensures SoundEnd(e)
  {
    match want
    case BtOn => BtSwitch(w, g0, direct, cb)
    case WlanOn => WlanSwitch(w, g0, direct, cb)
    case BothOn => CoexistSwitch(w, g0, direct, cb)
    case BothOff => UnplugSwitch(w, g0, cb)
  }
}
