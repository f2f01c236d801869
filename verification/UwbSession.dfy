/** A whole session at the GUI: one click after another, through the handlers as they run. */
module UwbSession {
  import opened BusTypes
  import opened BusRuns
  import opened ClientSpec
  import opened SwitchTheorems
  import U = UwbClient

  ghost predicate Askable(requests: seq<Request>) { forall r :: r in requests ==> r.want != Undefined }

  /** One click on a menu item, with the flag that chooses the variant. */
  method Click(client: U.UwbClient, r: Request, patience: nat, cb: Callbacks) returns (returned: bool)
    requires client.Valid() && client.Quiet() && !client.clickingInProgress && r.want != Undefined && 0 < patience
    modifies client, client.bus, client.bus.deviceData
    ensures client.Valid() && client.clickingInProgress == !returned
    ensures var e := Switch(old(client.W()), old(client.gState), r.direct, r.want, cb);
            client.W() == e.w && returned == e.Returned? && (returned ==> client.gState == e.g)
  {
    client.menuClicked, client.directly := true, r.direct;
    returned := true;
    match r.want {
      case BtOn => client.OnBluetoothActivate(cb);
      case WlanOn => client.OnWlanActivate(cb);
      case BothOn => returned := client.OnCoexistActivate(patience, cb);
      case BothOff => client.OnUnplugActivate(cb);
    }
  }

  /** The handlers, called for one request after another until one of them does not return. They do to the
      bus what Serve says. */
  method ServeClicks(client: U.UwbClient, requests: seq<Request>, patience: nat, cb: Callbacks) returns (returned: bool)
    requires client.Valid() && client.Quiet() && !client.clickingInProgress && Askable(requests) && 0 < patience
    modifies client, client.bus, client.bus.deviceData
    ensures client.Valid() && client.clickingInProgress == !returned
    ensures var e := Serve(old(client.W()), old(client.gState), requests, cb);
            client.W() == e.w && returned == e.Returned? && (returned ==> client.gState == e.g)
  {
    ghost var e := Serve(client.W(), client.gState, requests, cb);
    var i := 0;
    returned := true;
    while i < |requests| && returned
      invariant i <= |requests| && client.Valid() && client.clickingInProgress == !returned
      invariant returned ==> e == Serve(client.W(), client.gState, requests[i..], cb)
      invariant !returned ==> e.Waits? && e.w == client.W()
    {
      assert requests[i..][0] == requests[i] && requests[i..][1..] == requests[i + 1..];
      returned := Click(client, requests[i], patience, cb);
      i := i + 1;
    }
    if returned { assert requests[i..] == []; }
  }

  /** With both drivers registered and callbacks that succeed, any number of clicks in any mix of variants,
      from any reachable bus, ends with the last request fulfilled: exactly its devices are
      started, g_state names it, and the busy flag is clear. */
  method ServeAll(client: U.UwbClient, requests: seq<Request>, patience: nat, cb: Callbacks)
    requires client.Valid() && client.Quiet() && !client.clickingInProgress && Askable(requests) && 0 < patience
    requires CardOf(client.W().st).bt && CardOf(client.W().st).wlan && AllCallsSucceed(cb)
    requires requests != []
    modifies client, client.bus, client.bus.deviceData
    ensures client.Valid() && !client.clickingInProgress
    ensures client.gState == ModeOf(client.W().st) == requests[|requests| - 1].want
  {
    SequenceReachesLast(client.W(), client.gState, requests, cb);
    var returned := ServeClicks(client, requests, patience, cb);
  }
}
