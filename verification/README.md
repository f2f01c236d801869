# Verified model of the 3DSP USB combo-card software

The 3DSP card carries a Bluetooth and a WLAN device behind one small bus driver. The bus keeps a table of
three slots (Bluetooth = 1, WLAN = 2, GPS = 4). Device drivers register and unregister interface blocks in it;
programs drive it with ioctls that open and close devices, set flags and ask for state. A GUI (`uwb`) and a
command-line tool (`uwbtool`) switch between Bluetooth only, WLAN only, both, and none by polling that bus.
This project models the bus, its clients, and several self-contained pieces of the drivers and programs, and
proves what they keep in every run.

How the model is built:

- **The bus.** `BusDriver` is the driver as it runs: a slot array, driver-wide fields and the interface blocks,
  updated in place by methods with the source's loops and the recursive unplug-all. Each method is tied to a
  function of `BusSpec`; `BusRuns` and `BusProperties` prove theorems about every run of these functions. A run is
  any sequence of allocations, registrations, removals and ioctls. What a callback returns is an arbitrary
  parameter of each step. `BusHistory` reads every slot, every answer and every reopening off the log of such a run:
  what was asked, which callbacks were called, and what they returned.
- **Kernel memory.** The interface blocks live in a map from addresses to blocks. A freed block leaves the map, and
  its address may be handed out again. Every dereference is therefore an obligation that the block is live.
- **History.** The bus keeps a history of registrations and callback calls. It is a model variable; the source has
  no such thing.
- **The clients.** `UwbClient` and `UwbTool` are the programs as they run, with every polling loop. Before each ioctl
  the outside world takes whatever steps its schedule holds. `ClientSpec` says what each switch does when nothing
  interferes; `SwitchTheorems` proves what that achieves; `UwbSession` calls the handlers for any sequence of clicks.
  The one loop without a bound (waiting for WLAN) is watched
  for an arbitrary number of rounds; `Waits` means that it is never left.
- **The rest.** `ScanWriter`/`ScanTheorems`/`ScanReader` (scan results, written and read back), `HexCodec` (hexadecimal text), `Frequency` (channels),
  `EssidMonitor` (wifi-radar's link monitor), `Worklet` (the work-queue wrapper).

Machine words: a mask of the low bits is written as a remainder and a shift as a multiplication or division;
`Or` is bitwise or. Status codes are opaque, except that an ioctl fails for a client exactly at the bus's gate.
Division in the frequency code truncates toward zero as in C, and its loop counter wraps as a signed char does.
The configuration is the shipped one (`TDSP_RF_WLAN_SUPPORT` only).

Where the code does not do what one might expect, the code is modelled and the exact condition is proved:

- Unplugging closes a device again that is already stopped (`BusProperties.RepeatedClose`; a run that does it:
  `RepeatedCloseHappens`).
- Opening a block that is already registered frees it under the slot table, or enters it twice; this is the only way
  for a driver to break the bus (`InterfaceOwner.OpenIsSafeExactlyOnce`; a run: `SecondOpenFreesHeldBlock`).
- When a callback fails or a driver is missing, `g_state` can be wrong, and the indirect switch to coexistence can
  wait for ever. What each switch leaves, and whether `g_state` is right, is given by the devices and callback results
  before it (`SwitchTheorems.SingleEnd`, `DirectCoexistEnd`, `IndirectCoexistEnd`; runs that end wrongly:
  `ClaimsCanBeWrong`).
- `uwbtool` keeps its busy flag after a request for a mode that is not configured (`UwbTool.UwbTool`).
- A schedule call made while the worklet function runs is lost, unless a later call comes when it is not running;
  every other call is answered (`Worklet.CallIsServedExactly`; an interleaving with a lost call: `LostWakeup`).
- An access point without a non-zero rate makes the scan call fail with `-E2BIG` however large the buffer is
  (`ScanTheorems.ScanResult`, `RefusedWithRoom`).
- Frequencies written with an exponent above 6 are refused (`Frequency.FrequencyRoundTrip`, `RefusedEncoding`).
- In wifi-radar an empty ESSID counts as connected; only the text `None` counts as silence.

## Model

| member | source | states |
|---|---|---|
| BusDriver.BusDriver.FindPdoBySerialNo | driver_src/bus/businit.c:53-69 | the search finds the slot of a serial number exactly when a driver occupies it |
| BusDriver.BusDriver.PlugInDevice | driver_src/bus/businit.c:71-128 | the whole new state, the status and the callback calls of a plug-in request |
| BusDriver.BusDriver.UnPlugDevice | driver_src/bus/businit.c:131-186 | terminates through its recursion; the whole new state, status and calls, for one serial number or for all |
| BusDriver.BusDriver.constructor | driver_src/bus/businit.c:231-241 | the state after module initialisation |
| BusDriver.BusDriver.RegisterUsbDev | driver_src/bus/businit.c:288-393 | the whole new state, status and calls of a registration, including every refusal |
| BusDriver.BusDriver.UnregisterUsbDev | driver_src/bus/businit.c:395-458 | the pointer is removed, the bus powers down with its last device, an open device is closed |
| BusDriver.BusDriver.DisplayInUseDevice | driver_src/bus/busioctl.c:206-250 | the accumulated word is the set of started serial numbers, or one of the two special answers |
| BusDriver.BusDriver.ReadEnum | driver_src/bus/busioctl.c:670-711 | the answer and stored mode: started devices, all ones, or 0 |
| BusDriver.BusDriver.QueryDevState | driver_src/bus/busioctl.c:429-452 | 1 exactly for a registered device that is started, 0xff otherwise |
| BusDriver.BusDriver.SetHotkeyFlag | driver_src/bus/busioctl.c:527-552 | the in-place loop over the slots gives the state of the step function at every slot |
| BusDriver.BusDriver.SetAntennaFlag | driver_src/bus/busioctl.c:553-579 | the same for the antenna value |
| BusDriver.BusDriver.UnlockedIoctl | driver_src/bus/busioctl.c:101-1087 | a file not opened on the driver is refused; without a card only the two flag settings pass; effects, status and answer of every command, the unserved ones among them |
| BusDriver.BusDriver.BusNewInterface | driver_src/wlan/tdsp_bus.c:69-87 | a new zeroed block, or no block and no change |
| BusDriver.BusDriver.BusOpenInterface | driver_src/wlan/tdsp_bus.c:89-118 | register, retry once, free on failure |
| BusDriver.BusDriver.BusCloseInterface | driver_src/wlan/tdsp_bus.c:28-40 | unregister first, then free |
| Interference.FlagsAfterRun | driver_src/wlan/tdsp_bus.c:130-143 | after any run carried out on the bus, the drivers' getters return the last hotkey value and, for WLAN, the last antenna value |
| BusRuns.ReachableIsSound | driver_src/bus/businit.c:71-458 | after every run open was called only on registered devices that were not open and close only on devices opened before; the history alone tells who is registered and each device's state |
| BusRuns.PerformKeeps | driver_src/bus/businit.c:71-458 | every step of every actor keeps the bus invariant, the call discipline and their agreement |
| BusRuns.FailedRegisterChangesNothing | driver_src/bus/businit.c:293-364 | a failing registration changes nothing and calls nothing, so a retry sees the same bus |
| BusHistory.HistoryTells | driver_src/bus/businit.c:113-126 | after every run the log of requests, callback results and hotkey sets decides who sits in each slot, whether its device is up, whether it is wanted, and whether it was never used |
| BusHistory.RegistrationOpensExactly | driver_src/bus/businit.c:380-386 | a driver that registers is opened at once exactly if the log says its device is wanted: it came up and was not closed by an unplug since, or the hotkey flag was set since |
| BusHistory.AnswersFromHistory | driver_src/bus/busioctl.c:206-726 | every answer of the bus, read off the log: started devices, enum mode - all ones exactly if nothing is started and some registered device was never up and never hotkeyed -, device state, power, reset flag |
| BusHistory.GateFromHistory | driver_src/bus/busioctl.c:118-123 | an ioctl fails at the gate exactly if the log says that nobody is registered and it is not a flag setting |
| BusHistory.PlugInCallsExactly | driver_src/bus/businit.c:71-128 | which open calls a plug-in request makes, when it succeeds, and that it changes something exactly if the call returns 0 |
| BusHistory.UnplugCallsExactly | driver_src/bus/businit.c:131-186 | which close calls an unplug request makes, and when it succeeds |
| BusHistory.RegisterAcceptsExactly | driver_src/bus/businit.c:293-364 | which registrations are accepted, and how the refused ones are told apart |
| BusHistory.BtKeepsAntenna | driver_src/bus/busioctl.c:553-579 | the Bluetooth interface keeps the antenna bits it registered with |
| BusProperties.CardPresence | driver_src/bus/busioctl.c:118-123 | in every reachable state: started, powered and occupied coincide, serial numbers match their slots, GPS stays empty, and the no-card answer never passes the gate |
| BusProperties.EnumModeAgrees | driver_src/bus/busioctl.c:670-726 | READ_ENUM_MODE equals DISPLAY_IN_USE once something is started and is 0 or all ones otherwise, whatever was written before |
| BusProperties.CloseOnUnregister | driver_src/bus/businit.c:432-454 | leaving the bus calls close exactly when the device is open |
| BusProperties.RepeatedClose | driver_src/bus/businit.c:131-186 | an unplug request, for one device or for all, closes a stopped device again exactly when it targets a registered device in that state |
| BusProperties.RepeatedCloseHappens | driver_src/bus/businit.c:131-186 | a run after which it does |
| BusProperties.ReinsertionReopens | driver_src/bus/businit.c:380-386 | a card pulled while open is opened at its next registration, whatever happens in between |
| BusProperties.UnpluggedStaysDown | driver_src/bus/businit.c:176-182 | an unplugged device stays down, and only plug-in requests for it call its open callback, through re-registrations, failed plug-ins and other requests, until such a call returns 0 or the hotkey flag is set |
| BusProperties.UnplugKeepsDown | driver_src/bus/businit.c:131-186 | the same, stated from an unplug request, for one device or for all, whose close callback returned 0 |
| BusProperties.FlagHistory | driver_src/bus/busioctl.c:537-576 | after every run each interface shows the last hotkey value, the WLAN interface the last antenna value, set before or after registration, and no other flag bit |
| BusProperties.FlagsAtRegistration | driver_src/bus/businit.c:376 | an interface that registers starts with the last hotkey and antenna values |
| UnplugAll.UnplugAllIsAnyOrder | driver_src/bus/businit.c:148-159 | unplugging all equals single unplugs of the registered devices in any order: same state, same calls; empty slots and never-started devices untouched |
| UnplugAll.OrderIrrelevant | driver_src/bus/businit.c:148-159 | two orders that cover the registered devices end in the same state |
| InterfaceOwner.NoDanglingPointer | driver_src/bus/businit.c:288-458 | after every run no slot points to freed memory and no two slots share a block |
| InterfaceOwner.ProbeOutcome | driver_src/wlan/tdsp_bus.c:69-118 | a probe succeeds exactly for BT or WLAN with a free slot; a failed probe leaves bus and memory as they were |
| InterfaceOwner.DisconnectOutcome | driver_src/new_bluetooth/tdsp_bus.c:70-83 | after a disconnect the block is gone, no slot refers to it, everything else is unchanged |
| InterfaceOwner.OpenIsSafeExactlyOnce | driver_src/new_bluetooth/tdsp_bus.c:117-143 | opening a block keeps the invariant if and only if the block is not already registered |
| InterfaceOwner.SecondOpenFreesHeldBlock | driver_src/new_bluetooth/tdsp_bus.c:117-143 | a reachable bus on which a second opening frees a block that its slot still points to |
| ClientSpec.ViewIsExact | applications/uwb/src/main.c:1048-1072 | after adjust_func_state the client knows whether a card is in, and g_state is the mode of the started devices |
| ClientSpec.EnumModeInRange | applications/uwb/src/main.c:694-719 | the index into g_allowedmodes is in range, whatever enum mode was stored |
| SwitchTheorems.SwitchReachesMode | applications/uwb/src/callbacks.c:14-597 | with both drivers registered and callbacks that succeed, every switch, in both variants, from every reachable bus, ends with exactly the wanted devices started and g_state naming them |
| UwbSession.ServeAll | applications/uwb/src/callbacks.c:14-597 | the handlers, clicked any number of times in any mix of variants, end with exactly the last wanted devices started, g_state naming them, and the busy flag clear |
| UwbSession.ServeClicks | applications/uwb/src/callbacks.c:14-597 | for every callback result, the clicked handlers do what the switch functions say one after another, and the busy flag stays set exactly when one of them waits for ever |
| SwitchTheorems.VariantsAgree | applications/uwb/src/callbacks.c:54-159 | direct and indirect variants end with the same devices started and the same g_state |
| SwitchTheorems.DirectSparesShared | applications/uwb/src/callbacks.c:365-534 | the direct variant never closes a device of both the old and the wanted mode, even when callbacks fail |
| SwitchTheorems.SingleEnd | applications/uwb/src/callbacks.c:14-326 | for every card and every callback result: which devices are started afterwards, and g_state is right exactly when the other device was down or could be closed |
| SwitchTheorems.DirectCoexistEnd | applications/uwb/src/callbacks.c:365-468 | the direct switch always returns; which devices are started afterwards, and when its claim is right, in terms of the card and callback results before it |
| SwitchTheorems.IndirectCoexistEnd | applications/uwb/src/callbacks.c:469-534 | it waits for ever exactly when Bluetooth alone was started, could not be closed, and WLAN does not come up; which devices are started afterwards, and when its claim is right, in terms of the card and callback results before it |
| SwitchTheorems.ClaimsCanBeWrong | applications/uwb/src/callbacks.c:174-534 | reachable buses on which the switches to WLAN and to coexistence end with a wrong g_state, and one on which the indirect switch waits for ever |
| SwitchTheorems.UnplugEnd | applications/uwb/src/callbacks.c:548-597 | what unplugging leaves started, for every callback result |
| SwitchTheorems.EnumModeLeft | applications/uwb/src/callbacks.c:54-534 | the enum mode each switch, in each variant, leaves on the bus |
| SwitchTheorems.BluetoothClosesFirst | applications/uwb/src/main.c:620-650 | leaving coexistence, Bluetooth is closed before WLAN |
| Interference.PerformAll | driver_src/bus/businit.c:71-458 | a burst of outside steps, carried out on the bus, is a run |
| UwbClient.UwbClient.QueryDevice | applications/uwb/src/main.c:266-293 | g_iscardin and g_currentserialno are the truth about the bus at the moment of the query |
| UwbClient.UwbClient.AdjustFuncState | applications/uwb/src/main.c:1048-1072 | g_state is the mode of the started devices at the moment of the query, under any interference |
| UwbClient.UwbClient.InitialDefaultMode | applications/uwb/src/main.c:694-719 | under any interference the default mode becomes that of the started devices if it is allowed and 0 otherwise, or stays as it was; every table access is in range |
| UwbClient.UwbClient.UnplugDevices | applications/uwbtool/main.c:618-716 | under any interference it polls at most 60 + 600 + 1200 times; FALSE means no card, TRUE before the last bound means nothing started at the last query; g_state is cleared exactly after a removal that returned TRUE; in a quiet world it unplugs what g_state names and times out exactly if something stays started |
| UwbClient.UwbClient.WaitUnplugStable | applications/uwb/src/main.c:671-692 | the two bounded waits end, change nothing, and in a quiet world ask once for a device that is down and six times for one that is not |
| UwbClient.UwbClient.WaitForWlan | applications/uwbtool/callbacks.c:356-375 | in a quiet world the unbounded loop is left on its first query if WLAN is started, and never if it is not |
| UwbClient.UwbClient.OnBluetoothActivate | applications/uwb/src/callbacks.c:14-172 | the busy flag is released on every way out, under any interference; in a quiet world the handler is the switch function; a click while busy does nothing |
| UwbClient.UwbClient.OnWlanActivate | applications/uwb/src/callbacks.c:174-326 | the same for WLAN |
| UwbClient.UwbClient.OnCoexistActivate | applications/uwb/src/callbacks.c:328-546 | the same for coexistence; the flag stays set exactly while the wait loop has not been left |
| UwbClient.UwbClient.OnUnplugActivate | applications/uwb/src/callbacks.c:548-597 | the same for unplugging |
| UwbTool.UwbTool.OnBluetoothActivate | applications/uwbtool/callbacks.c:28-102 | an allowed request releases the busy flag and, in a quiet world, is the indirect switch; a disallowed one leaves the flag set |
| UwbTool.UwbTool.OnWlanActivate | applications/uwbtool/callbacks.c:104-173 | the same for WLAN |
| UwbTool.UwbTool.OnCoexistActivate | applications/uwbtool/callbacks.c:286-402 | the same for coexistence |
| UwbTool.UwbTool.OnUnplugActivate | applications/uwbtool/callbacks.c:404-442 | the same for unplugging, with no mode check |
| HexCodec.EncodeIe | driver_src/wlan/lwlan_ioctl.c:465-486 | all or nothing: leader and digits with a NUL behind them, or 0; a non-empty element is encoded exactly when leader and digits leave room for the NUL; nothing is touched beyond the given size |
| HexCodec.KeyString2Hex | driver_src/wlan/lwlan_ioctl.c:1451-1486 | 1 exactly when enough pairs of digits are there; the bytes of the good pairs are stored; it never reads past a NUL |
| HexCodec.EncodeThenDecode | driver_src/wlan/lwlan_ioctl.c:465-486 | decoding after the leader answers 1 and gives the encoded bytes back |
| HexCodec.HexRoundTrip | driver_src/wlan/lwlan_ioctl.c:1451-1486 | decoding the digits of any byte string gives the string |
| HexCodec.HexStr2Int | applications/uwbtool/main.c:986-1010 | succeeds exactly on all-hex input, and then the power sum is the base-16 value |
| HexCodec.DigitsAre | applications/uwbtool/main.c:986-1010 | the characters that are digits, of either case, and their values |
| HexCodec.NoOverflow | applications/uwbtool/main.c:1007 | every term and partial sum stays below the value, so nothing overflows when the value fits an int |
| HexCodec.ParsersAgree | applications/uwbtool/main.c:986-1010 | two digits mean the same byte to the tool's parser and the driver's decoder |
| HexCodec.GetEepromData | applications/uwbtool/main.c:1366-1406 | accepts exactly all-hex strings of the right, even, length and stores their bytes with a zero behind |
| HexCodec.SplitVersion | applications/uwbtool/main.c:1277-1312 | the four fields parsed from the printed version recombine to the 32-bit word |
| Frequency.ChannelRoundTrip | driver_src/wlan/lwlan_ioctl.c:53-114 | converting a channel to a frequency and back is the identity exactly on non-negative channels |
| Frequency.Frequencies | driver_src/wlan/lwlan_ioctl.c:53-114 | the frequencies of the channels, and their spacing |
| Frequency.ScaleDown | driver_src/wlan/lwlan_ioctl.c:226-231 | the repeated division is one division by the power of ten its counter stands for |
| Frequency.IwSetFreq | driver_src/wlan/lwlan_ioctl.c:187-251 | a number up to 1000 is the channel itself; anything else is rounded down to MHz, is invalid below 1001 MHz, and selects the channel in whose 5 MHz band it lies; the refusals of an adapter that is down, not in ad-hoc mode or unwilling |
| Frequency.FrequencyRoundTrip | driver_src/wlan/lwlan_ioctl.c:214-239 | every 32-bit mantissa and exponent that denote a reported frequency select its channel, except exponents above 6, which are refused |
| Frequency.RefusedEncoding | driver_src/wlan/lwlan_ioctl.c:226-236 | an encoding of a channel's frequency that is refused |
| Frequency.DriverEncoding | driver_src/wlan/lwlan_ioctl.c:275-279 | the driver's own encoding denotes the frequency, fits 32 bits, and selects the channel |
| ScanWriter.GetScanRes | driver_src/wlan/lwlan_ioctl.c:492-782 | writes only inside the buffer; contents, length and return value are those of the writing function on the full list |
| ScanReader.ScanReadBack | driver_src/wlan/lwlan_ioctl.c:532-782 | a successful scan is read back: for each access point, in order, its address, name, mode, protocol, channel, signal, privacy, non-zero rates, beacon interval and elements, each once and in the driver's order |
| ScanReader.BeaconReads | driver_src/wlan/lwlan_ioctl.c:688-692 | the beacon text is its leader and the interval in decimal, and fits the local buffer |
| ScanReader.RatesEventKnowsItself | driver_src/wlan/lwlan_ioctl.c:651-680 | the header of a rates event carries its length, and the values stand behind it in order |
| ScanWriter.Writer.PutRates | driver_src/wlan/lwlan_ioctl.c:651-680 | a header that knows its length and as many non-zero rates as fit, or nothing |
| ScanTheorems.ScanResult | driver_src/wlan/lwlan_ioctl.c:532-782 | what is written is an event-wise prefix of the full list, only the last rates event shortened; success exactly when every access point has a rate and bearable elements and the whole list fits, and then everything is there; on failure nothing more could have been written |
| ScanTheorems.RefusedWithRoom | driver_src/wlan/lwlan_ioctl.c:651-696 | an access point that is refused in a buffer with any amount of room to spare |
| ScanTheorems.ShortenedStops | driver_src/wlan/lwlan_ioctl.c:684-696 | a rate that does not fit makes the following beacon event fail |
| ScanTheorems.RatesComplete | driver_src/wlan/lwlan_ioctl.c:657-665 | every non-zero rate is in the list of values, at its place |
| EssidMonitor.EssidMonitor.CheckEssid | applications/3dsp-wifi-radar/wifi-radar:636-693 | the supplicant is killed exactly when the link has swung more than five times in the running window, or at the tenth silent poll |
| EssidMonitor.FlapKillExactly | applications/3dsp-wifi-radar/wifi-radar:647-673 | a kill for flapping comes exactly when there are more than five ups and downs in the running window, counted on the polls themselves |
| EssidMonitor.FlappingIsNoticed | applications/3dsp-wifi-radar/wifi-radar:647-673 | from a fresh window, up to 39 polls without a long connection lead to a kill exactly at the sixth up or down |
| EssidMonitor.AlternatingIsNoticed | applications/3dsp-wifi-radar/wifi-radar:647-673 | a link that goes up and down in turn is noticed at its sixth poll, and not before |
| EssidMonitor.EssidMonitor.DisconnectProfile | applications/3dsp-wifi-radar/wifi-radar:2348-2356 | after a disconnect by the user the next poll kills nothing, and the count of silent polls starts anew |
| EssidMonitor.FlapKillJustified | applications/3dsp-wifi-radar/wifi-radar:647-673 | a kill for flapping implies at least five real changes within the last 39 polls |
| EssidMonitor.SilenceKillExactly | applications/3dsp-wifi-radar/wifi-radar:655-677 | a kill for silence comes exactly on the tenth None poll in a row, with no disconnect since the last other poll |
| EssidMonitor.SilentMeans | applications/3dsp-wifi-radar/wifi-radar:655-658 | what that count is, read off the history |
| EssidMonitor.SilenceDoesNotRecur | applications/3dsp-wifi-radar/wifi-radar:675-677 | no second kill for silence before another non-None poll |
| EssidMonitor.CountersBounded | applications/3dsp-wifi-radar/wifi-radar:636-677 | all four counters stay bounded in every history |
| Worklet.WorkletData.Interleave | driver_src/wlan/tdsp_tasklet.c:19-68 | callers and worker taking their steps in any order keep the invariant; at rest the flag is clear |
| Worklet.NeverStuck | driver_src/wlan/tdsp_tasklet.c:19-74 | in every interleaving at most one run per schedule call, and the flag is clear at rest |
| Worklet.CallIsServedExactly | driver_src/wlan/tdsp_tasklet.c:31-68 | a schedule call is followed by a start of the function if and only if the function is not running at the call, or a later call comes when it is not running |
| Worklet.LostWakeup | driver_src/wlan/tdsp_tasklet.c:31-68 | an interleaving in which a schedule call is followed by no start of the function |

## Left out

- Menus, icons, notifications, sleeps, the shell script for Bluetooth and the reset of the GUI: user interface and I/O.
- The `Adap_*` and `Bluetooth_Adap_*` libraries: closed binaries; their results are parameters.
- Device files: opening the bus device always succeeds here, and an ioctl is a method call. Failing copies between user and kernel space are not modelled.
- GPS, the other radio types and the other bus power states: not part of the shipped configuration; the bus never enters those power states.
- The probe functions around the interface blocks (`driver_src/wlan/lwlan_entry.c`, `driver_src/new_bluetooth/lbluetooth_entry.c`): an interface block enters the model as an allocation, an opening and a closing, in any interleaving with everything else.
- The steps inside one ioctl or registration are not interleaved with each other: the bus takes no lock, and the model treats each as atomic.
- NULL arguments of get_eeprom_data_2write, and the GUI's own copy of hexstr2intnum, which lacks the digit check.
- The variant of the scan writer without IWEVGENIE: its text encoder is modelled in HexCodec, its use in the writer is not.
- The layout of wireless events in memory belongs to the Linux kernel: header lengths are parameters, the size of a rate value (8 bytes) and the all-or-nothing rule with a strict bound are the kernel interface's contract.
- IE offsets of a scan result: an element enters the model as the bytes at its offset.
- wifi-radar's scanning, connecting and killing themselves; a connect or disconnect by the user is one step between two polls.
- tdsp_worklet_kill and the tasklet wrappers: allocation and forwarding only.
- BusDriver.BusDriver.UnlockedIoctl: what the queries for versions and for chip, company, port and radio numbers copy out is not modelled; they succeed and change nothing.
- HexCodec.NoOverflow: the power is an exact integer here, because 16 to these powers is exact in a C double.
- UwbClient.UwbClient.WaitForWlan: the loop is watched for a given number of rounds, because it has no bound of its own.
