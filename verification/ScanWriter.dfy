/** The writer of scan results (_ioctl_sub_get_scan_res in driver_src/wlan/lwlan_ioctl.c, the
    variant with IWEVGENIE). The kernel's iwe_stream_add_event, iwe_stream_add_point and
    iwe_stream_add_value are modelled by their contract: an item is added whole, if it ends
    strictly before the end of the buffer, or not at all. */
module ScanWriter {
  import opened Options
  import opened Frequency

  type byte = x: int | 0 <= x < 256
  type uint16 = x: int | 0 <= x < 0x1_0000

  /** SCAN_RES, as far as the writer looks at it. rates are the bytes behind suprate's length;
      rsn and wpa are the information elements, with their two header bytes. */
  datatype AccessPoint = AccessPoint(
    bssid: seq<byte>, ssid: seq<byte>, ess: bool, ibss: bool, is80211g: bool, channel: byte, rssi: byte,
    privacy: bool, rates: seq<byte>, beaconInterval: uint16, rsn: Option<seq<byte>>, wpa: Option<seq<byte>>)

  /** The wireless events the writer emits. */
  datatype IwEvent =
    | ApAddr(bssid: seq<byte>)
    | Essid(ssid: seq<byte>)
    | OperMode(master: bool)
    | Name(g: bool)
    | Freq(m: int, e: int)
    | Quality(rssi: byte)
    | Encode(on: bool)
    | Rates(values: seq<nat>)
    | Beacon(interval: nat)
    | Genie(ie: seq<byte>)

  /** The kernel's event layout: the header lengths IW_EV_*_LEN and how items look in memory. */
  datatype Layout = Layout(
    lcp: nat, addr: nat, uint: nat, name: nat, freq: nat, qual: nat, point: nat,
    encode: IwEvent -> seq<byte>, header: nat -> seq<byte>, value: nat -> seq<byte>)

  /** The size of struct iw_param. */
  const PARAM: nat := 8
  /** The size of the local buffer an information element is copied to. */
  const MAX_IE: nat := 158

  function Decimal(n: nat): string
  {
    (if n < 10 then "" else Decimal(n / 10)) + ["0123456789"[n % 10]]
  }

  /** What the driver prints into the beacon event. */
  function BeaconText(n: nat): string { "Beacon Interval:" + Decimal(n) }

  function Size(L: Layout, e: IwEvent): nat
  {
    match e
    case ApAddr(_) => L.addr
    case Essid(s) => L.point + |s|
    case OperMode(_) => L.uint
    case Name(_) => L.name
    case Freq(_, _) => L.freq
    case Quality(_) => L.qual
    case Encode(_) => L.point
    case Rates(v) => L.lcp + PARAM * |v|
    case Beacon(n) => L.point + |BeaconText(n)|
    case Genie(b) => L.point + |b|
  }

  ghost predicate LayoutOk(L: Layout)
  {
    && L.lcp > 0 && L.addr > 0 && L.uint > 0 && L.name > 0 && L.freq > 0 && L.qual > 0 && L.point > 0
    && (forall e: IwEvent :: !e.Rates? ==> |L.encode(e)| == Size(L, e))
    && (forall n: nat :: |L.header(n)| == L.lcp)
    && (forall v: nat :: |L.value(v)| == PARAM)
  }

  function EncValues(L: Layout, values: seq<nat>): seq<byte>
  {
    if values == [] then [] else EncValues(L, values[..|values| - 1]) + L.value(values[|values| - 1])
  }

  /** The bytes of an event; a rates event is a header that knows its length, and the values. */
  function Enc(L: Layout, e: IwEvent): seq<byte>
  {
    if e.Rates? then L.header(L.lcp + PARAM * |e.values|) + EncValues(L, e.values) else L.encode(e)
  }

  function EncAll(L: Layout, events: seq<IwEvent>): seq<byte>
  {
    if events == [] then [] else EncAll(L, events[..|events| - 1]) + Enc(L, events[|events| - 1])
  }

  lemma {:induction false} EncValuesSize(L: Layout, values: seq<nat>)
    requires LayoutOk(L)
    ensures |EncValues(L, values)| == PARAM * |values|
  {
    if values != [] { EncValuesSize(L, values[..|values| - 1]); }
  }

  lemma EncSize(L: Layout, e: IwEvent)
    requires LayoutOk(L)
    ensures |Enc(L, e)| == Size(L, e)
  {
    if e.Rates? { EncValuesSize(L, e.values); }
  }

  // ---------- the list to write ----------

  /** The rates of an access point in bit/s, zero entries dropped; the top bit marks basic rates. */
  function RateValues(rates: seq<byte>): seq<nat>
  {
    if rates == [] then []
    else
      var rest := RateValues(rates[..|rates| - 1]);
      var r: nat := rates[|rates| - 1] % 128;
      if r != 0 then rest + [r * 500000] else rest
  }

  /** The frequency event of a channel. */
  function FreqOf(channel: byte): IwEvent { Freq(GetFreqMantissa(channel), 1) }

  function ModePart(ap: AccessPoint, next: seq<IwEvent>): seq<IwEvent>
  {
    if ap.ess || ap.ibss then [OperMode(ap.ess)] + next else next
  }

  function IePart(ie: Option<seq<byte>>, next: seq<IwEvent>): seq<IwEvent>
  {
    if ie.Some? then [Genie(ie.value)] + next else next
  }

  function FromRates(ap: AccessPoint, next: seq<IwEvent>): seq<IwEvent>
  {
    [Rates(RateValues(ap.rates))] + ([Beacon(ap.beaconInterval)] + IePart(ap.rsn, IePart(ap.wpa, next)))
  }

  function FromName(ap: AccessPoint, next: seq<IwEvent>): seq<IwEvent>
  {
    [Name(ap.is80211g)] + ([FreqOf(ap.channel)] + ([Quality(ap.rssi)] + ([Encode(ap.privacy)] + FromRates(ap, next))))
  }

  /** Everything there is to say about an access point, and what follows. */
  function EventsOf(ap: AccessPoint, next: seq<IwEvent>): seq<IwEvent>
  {
    [ApAddr(ap.bssid)] + ([Essid(ap.ssid)] + ModePart(ap, FromName(ap, next)))
  }

  function FullList(aps: seq<AccessPoint>): seq<IwEvent>
  {
    if aps == [] then [] else EventsOf(aps[0], FullList(aps[1..]))
  }

  // ---------- writing, as a function ----------

  datatype Done = Done(emitted: seq<IwEvent>, used: nat, ok: bool)

  /** How many of n values fit behind a rates header placed at used. */
  function Fitting(L: Layout, used: nat, limit: int, n: nat): (k: nat)
    ensures Fits(L, used, limit, n, k)
  {
    var room := limit - 1 - used - L.lcp;
    if room < PARAM then 0 else if room / PARAM < n then room / PARAM else n
  }

  /** k of n values fit, and no more. */
  predicate Fits(L: Layout, used: nat, limit: int, n: nat, k: nat)
  {
    && k <= n
    && (k < n ==> used + L.lcp + PARAM * k + PARAM >= limit)
    && (k > 0 ==> used + L.lcp + PARAM * k < limit)
  }

  lemma FitsOnly(L: Layout, used: nat, limit: int, n: nat, k: nat)
    requires Fits(L, used, limit, n, k)
    ensures k == Fitting(L, used, limit, n)
  {
  }

  /** What the writer makes of a list of events when used bytes of limit are taken. */
  function Write(L: Layout, events: seq<IwEvent>, used: nat, limit: int): (d: Done)
    decreases |events|
  {
    if events == [] then Done([], used, true)
    else
      var e := events[0];
      if e.Rates? then
        var k := Fitting(L, used, limit, |e.values|);
        if k == 0 then Done([], used, false)
        else
          var rest := Write(L, events[1..], used + L.lcp + PARAM * k, limit);
          Done([Rates(e.values[..k])] + rest.emitted, rest.used, rest.ok)
      else if (e.Genie? && |e.ie| > MAX_IE) || used + Size(L, e) >= limit then Done([], used, false)
      else
        var rest := Write(L, events[1..], used + Size(L, e), limit);
        Done([e] + rest.emitted, rest.used, rest.ok)
  }

  lemma EncAllAppend(L: Layout, events: seq<IwEvent>, e: IwEvent)
    ensures EncAll(L, events + [e]) == EncAll(L, events) + Enc(L, e)
  {
    assert (events + [e])[..|events|] == events;
  }

  /** The run will end as goal when done is written and todo is still to come. */
  ghost predicate Follows(L: Layout, goal: Done, done: seq<IwEvent>, todo: seq<IwEvent>, used: nat, limit: int)
  {
    var rest := Write(L, todo, used, limit);
    goal == Done(done + rest.emitted, rest.used, rest.ok)
  }

  /** The first event is written whole, or the run ends here. */
  lemma EventFits(L: Layout, goal: Done, done: seq<IwEvent>, e: IwEvent, more: seq<IwEvent>, used: nat, limit: int)
    requires !e.Rates? && !(e.Genie? && |e.ie| > MAX_IE)
    requires Follows(L, goal, done, [e] + more, used, limit)
    requires used + Size(L, e) < limit
    ensures Follows(L, goal, done + [e], more, used + Size(L, e), limit)
  {
    assert ([e] + more)[1..] == more;
    var rest := Write(L, more, used + Size(L, e), limit);
    assert done + ([e] + rest.emitted) == (done + [e]) + rest.emitted;
  }

  lemma EventStops(L: Layout, goal: Done, done: seq<IwEvent>, e: IwEvent, more: seq<IwEvent>, used: nat, limit: int)
    requires Follows(L, goal, done, [e] + more, used, limit) && !e.Rates?
    requires used + Size(L, e) >= limit || (e.Genie? && |e.ie| > MAX_IE)
    ensures goal == Done(done, used, false)
  {
    assert done + [] == done;
  }

  /** The rates event is written as far as it fits, or the run ends here. */
  lemma RatesGo(L: Layout, goal: Done, done: seq<IwEvent>, values: seq<nat>, more: seq<IwEvent>,
                used: nat, limit: int, done': seq<IwEvent>, used': nat)
    requires Follows(L, goal, done, [Rates(values)] + more, used, limit)
    requires var k := Fitting(L, used, limit, |values|);
             if k > 0 then done' == done + [Rates(values[..k])] && used' == used + L.lcp + PARAM * k
             else done' == done && used' == used
    ensures if Fitting(L, used, limit, |values|) > 0 then Follows(L, goal, done', more, used', limit)
            else goal == Done(done', used', false)
  {
    var k := Fitting(L, used, limit, |values|);
    assert ([Rates(values)] + more)[1..] == more;
    if k > 0 {
      var rest := Write(L, more, used + L.lcp + PARAM * k, limit);
      assert done + ([Rates(values[..k])] + rest.emitted) == (done + [Rates(values[..k])]) + rest.emitted;
    } else {
      assert done + [] == done;
    }
  }

  // ---------- writing, as it runs ----------

  class Writer {
    const buf: array<byte>
    const beg: nat
    const end: nat
    const L: Layout
    var cur: nat
    /** How the run will end, and what has been written so far. */
    ghost const goal: Done
    ghost var emitted: seq<IwEvent>

    ghost predicate Placed()
      reads this, buf
    {
      && beg <= cur <= buf.Length && end <= buf.Length && beg <= buf.Length
      && (cur == beg || cur < end)
      && buf[beg..cur] == EncAll(L, emitted)
    }

    /** todo is still to be written. */
    ghost predicate Valid(todo: seq<IwEvent>)
      reads this, buf
    {
      Placed() && LayoutOk(L) && Follows(L, goal, emitted, todo, cur - beg, end - beg)
    }

    /** The writer has stopped as its specification says it stops. */
    ghost predicate Stopped(ok: bool)
      reads this, buf
    {
      Placed() && goal == Done(emitted, cur - beg, ok)
    }

    constructor (buf: array<byte>, beg: nat, end: nat, L: Layout, ghost todo: seq<IwEvent>)
      requires beg <= buf.Length && end <= buf.Length && LayoutOk(L)
      ensures Valid(todo) && this.buf == buf && this.beg == beg && this.end == end && this.L == L
      ensures cur == beg && emitted == [] && goal == Write(L, todo, 0, end - beg)
    {
      this.buf, this.beg, this.end, this.L := buf, beg, end, L;
      cur := beg;
      emitted := [];
      goal := Write(L, todo, 0, end - beg);
    }

    /** memcpy into the stream, inside [beg, end). */
    method CopyTo(at: nat, bytes: seq<byte>)
      requires at + |bytes| <= buf.Length
      modifies buf
      ensures buf[..at] == old(buf[..at])
      ensures buf[at..at + |bytes|] == bytes
      ensures buf[at + |bytes|..] == old(buf[at + |bytes|..])
    {
      for k := 0 to |bytes|
        invariant buf[..at] == old(buf[..at])
        invariant buf[at..at + k] == bytes[..k]
        invariant buf[at + |bytes|..] == old(buf[at + |bytes|..])
      {
        buf[at + k] := bytes[k];
      }
    }

    /** Bytes are appended to the stream when they end strictly before its end. */
    method Append(bytes: seq<byte>) returns (added: bool)
      requires beg <= cur <= buf.Length && end <= buf.Length
      modifies this`cur, buf
      ensures added == (old(cur) + |bytes| < end)
      ensures cur == if added then old(cur) + |bytes| else old(cur)
      ensures cur <= buf.Length
      ensures buf[beg..cur] == old(buf[beg..cur]) + if added then bytes else []
      ensures buf[..beg] == old(buf[..beg]) && buf[end..] == old(buf[end..])
    {
      added := cur + |bytes| < end;
      if added {
        CopyTo(cur, bytes);
        assert buf[..beg] == buf[..cur][..beg];
        assert buf[beg..cur] == buf[..cur][beg..];
        assert buf[end..] == buf[cur + |bytes|..][end - cur - |bytes|..];
        cur := cur + |bytes|;
      }
    }

    /** iwe_stream_add_event and iwe_stream_add_point, with the writer's check that the stream has
        advanced. */
    method Add(e: IwEvent) returns (ok: bool)
      requires Placed() && LayoutOk(L) && !e.Rates?
      modifies this`cur, this`emitted, buf
      ensures Placed() && ok == (old(cur) + Size(L, e) < end)
      ensures cur == (if ok then old(cur) + Size(L, e) else old(cur))
      ensures emitted == old(emitted) + if ok then [e] else []
      ensures buf[..beg] == old(buf[..beg]) && buf[end..] == old(buf[end..])
    {
      EncSize(L, e);
      var last := cur;
      var added := Append(Enc(L, e));
      if added {
        EncAllAppend(L, emitted, e);
        assert buf[beg..cur] == EncAll(L, emitted + [e]);
        emitted := emitted + [e];
      }
      ok := cur != last;
    }

    /** The same, on the way through the list: more is what is to be written after e. */
    method Put(e: IwEvent, ghost more: seq<IwEvent>) returns (ok: bool)
      requires Valid([e] + more) && !e.Rates? && !(e.Genie? && |e.ie| > MAX_IE)
      modifies this`cur, this`emitted, buf
      ensures buf[..beg] == old(buf[..beg]) && buf[end..] == old(buf[end..])
      ensures ok ==> Valid(more)
      ensures !ok ==> Stopped(false)
    {
      ghost var done, used := emitted, cur - beg;
      ok := Add(e);
      if ok {
        EventFits(L, goal, done, e, more, used, end - beg);
      } else {
        EventStops(L, goal, done, e, more, used, end - beg);
      }
    }

    /** iwe_stream_add_value: the value is appended and the header at event patched, or nothing
        happens. */
    method AddValue(event: nat, at: nat, v: nat) returns (next: nat)
      requires LayoutOk(L) && event + L.lcp <= at && end <= buf.Length && event <= buf.Length
      modifies buf
      ensures buf[..event] == old(buf[..event]) && buf[end..] == old(buf[end..])
      ensures at + PARAM < end ==>
                next == at + PARAM
                && buf[event..next] == L.header(next - event) + old(buf[event + L.lcp..at]) + L.value(v)
      ensures at + PARAM >= end ==> next == at && buf[..] == old(buf[..])
    {
      next := at;
      if at + PARAM < end {
        ghost var before := buf[..];
        CopyTo(at, L.value(v));
        next := at + PARAM;
        ghost var mid := buf[..];
        assert mid[..at] == before[..at] && mid[at..next] == L.value(v) && mid[next..] == before[next..];
        CopyTo(event, L.header(next - event));
        AddedValue(before, mid, buf[..], event, at, end, L.header(next - event), L.value(v));
      }
    }

    /** The loop over the rates: a value for every non-zero rate, as far as they fit. */
    method PlaceRates(rates: seq<byte>) returns (curVal: nat, ghost k: nat)
      requires LayoutOk(L) && Placed()
      modifies buf
      ensures buf[..cur] == old(buf[..cur]) && buf[end..] == old(buf[end..])
      ensures Placed() && RatesIn(L, buf[..], cur, curVal, k, RateValues(rates))
      ensures Fits(L, cur - beg, end - beg, |RateValues(rates)|, k)
    {
      curVal := cur + L.lcp;
      k := 0;
      ghost var values := [];
      var j := 0;
      while j < |rates|
        invariant j <= |rates| && Placed() && values == RateValues(rates[..j])
        invariant RatesIn(L, buf[..], cur, curVal, k, values)
        invariant Fits(L, cur - beg, end - beg, |values|, k)
        invariant buf[..cur] == old(buf[..cur]) && buf[end..] == old(buf[end..])
      {
        assert rates[..j + 1][..j] == rates[..j];
        var rate: nat := rates[j] % 128;
        if rate != 0 {
          curVal, k := AddRate(curVal, rate * 500000, values, k);
          values := values + [rate * 500000];
        }
        j := j + 1;
      }
      assert rates[..j] == rates;
    }

    /** The rates event: nothing at all, or a header and as many values as fit. */
    method AddRates(rates: seq<byte>) returns (ok: bool)
      requires Placed() && LayoutOk(L)
      modifies this`cur, this`emitted, buf
      ensures Placed()
      ensures var values := RateValues(rates);
              var k := Fitting(L, old(cur) - beg, end - beg, |values|);
              && ok == (k > 0)
              && cur == (if ok then old(cur) + L.lcp + PARAM * k else old(cur))
              && emitted == old(emitted) + if ok then [Rates(values[..k])] else []
      ensures buf[..beg] == old(buf[..beg]) && buf[end..] == old(buf[end..])
    {
      ghost var k;
      ghost var before := buf[..];
      ghost var values := RateValues(rates);
      var curVal;
      curVal, k := PlaceRates(rates);
      FitsOnly(L, cur - beg, end - beg, |values|, k);
      ShorterPrefix(before, buf[..], beg, cur);
      ok := curVal - cur > L.lcp;
      if ok { Commit(curVal, values, k); }
    }

    /** The same, on the way through the list. The writer gives up when no value was placed. */
    method PutRates(rates: seq<byte>, ghost more: seq<IwEvent>) returns (ok: bool)
      requires Valid([Rates(RateValues(rates))] + more)
      modifies this`cur, this`emitted, buf
      ensures buf[..beg] == old(buf[..beg]) && buf[end..] == old(buf[end..])
      ensures ok ==> Valid(more)
      ensures !ok ==> Stopped(false)
    {
      ghost var done, used, values := emitted, cur - beg, RateValues(rates);
      ok := AddRates(rates);
      RatesGo(L, goal, done, values, more, used, end - beg, emitted, cur - beg);
    }

    /** The stream position moves behind the rates that were placed. */
    method Commit(curVal: nat, ghost values: seq<nat>, ghost k: nat)
      requires Placed() && curVal < end && 0 < k && RatesIn(L, buf[..], cur, curVal, k, values)
      modifies this`cur, this`emitted
      ensures Placed() && cur == curVal && emitted == old(emitted) + [Rates(values[..k])]
    {
      ghost var e := Rates(values[..k]);
      assert buf[cur..curVal] == buf[..][cur..curVal];
      assert buf[beg..curVal] == buf[beg..cur] + buf[cur..curVal];
      assert Enc(L, e) == buf[cur..curVal];
      EncAllAppend(L, emitted, e);
      emitted := emitted + [e];
      cur := curVal;
    }

    method AddRate(curVal: nat, v: nat, ghost values: seq<nat>, ghost k: nat) returns (next: nat, ghost k': nat)
      requires LayoutOk(L) && Placed()
      requires RatesIn(L, buf[..], cur, curVal, k, values) && Fits(L, cur - beg, end - beg, |values|, k)
      modifies buf
      ensures buf[..cur] == old(buf[..cur]) && buf[end..] == old(buf[end..])
      ensures Placed()
      ensures RatesIn(L, buf[..], cur, next, k', values + [v]) && Fits(L, cur - beg, end - beg, |values| + 1, k')
    {
      ghost var before := buf[..];
      next := AddValue(cur, curVal, v);
      SameSlice(before, buf[..], beg, cur);
      k' := RateStep(L, before, buf[..], beg, cur, curVal, end, k, values, v);
    }

    /** The information element copied to the local buffer, if it fits there, and added. */
    method PutIe(ie: seq<byte>, ghost more: seq<IwEvent>) returns (ok: bool)
      requires Valid([Genie(ie)] + more)
      modifies this`cur, this`emitted, buf
      ensures buf[..beg] == old(buf[..beg]) && buf[end..] == old(buf[end..])
      ensures ok ==> Valid(more)
      ensures !ok ==> Stopped(false)
    {
      if |ie| > MAX_IE {
        EventStops(L, goal, emitted, Genie(ie), more, cur - beg, end - beg);
        return false;
      }
      ok := Put(Genie(ie), more);
    }

    /** The events of an access point up to the encryption flag. */
    method PutFixed(ap: AccessPoint, ghost more: seq<IwEvent>) returns (ok: bool)
      requires Valid(EventsOf(ap, more))
      modifies this`cur, this`emitted, buf
      ensures buf[..beg] == old(buf[..beg]) && buf[end..] == old(buf[end..])
      ensures ok ==> Valid(FromRates(ap, more))
      ensures !ok ==> Stopped(false)
    {
      ok := Put(ApAddr(ap.bssid), [Essid(ap.ssid)] + ModePart(ap, FromName(ap, more)));
      if !ok { return; }
      ok := Put(Essid(ap.ssid), ModePart(ap, FromName(ap, more)));
      if !ok { return; }
      if ap.ess || ap.ibss {
        ok := Put(OperMode(ap.ess), FromName(ap, more));
        if !ok { return; }
      }
      ok := PutAttributes(ap, more);
    }

    /** Protocol, frequency, quality and encryption. */
    method PutAttributes(ap: AccessPoint, ghost more: seq<IwEvent>) returns (ok: bool)
      requires Valid(FromName(ap, more))
      modifies this`cur, this`emitted, buf
      ensures buf[..beg] == old(buf[..beg]) && buf[end..] == old(buf[end..])
      ensures ok ==> Valid(FromRates(ap, more))
      ensures !ok ==> Stopped(false)
    {
      ok := Put(Name(ap.is80211g),
                [FreqOf(ap.channel)] + ([Quality(ap.rssi)] + ([Encode(ap.privacy)] + FromRates(ap, more))));
      if !ok { return; }
      ok := Put(FreqOf(ap.channel), [Quality(ap.rssi)] + ([Encode(ap.privacy)] + FromRates(ap, more)));
      if !ok { return; }
      ok := Put(Quality(ap.rssi), [Encode(ap.privacy)] + FromRates(ap, more));
      if !ok { return; }
      ok := Put(Encode(ap.privacy), FromRates(ap, more));
    }

    /** Rates, beacon interval and the two information elements. */
    method PutVariable(ap: AccessPoint, ghost more: seq<IwEvent>) returns (ok: bool)
      requires Valid(FromRates(ap, more))
      modifies this`cur, this`emitted, buf
      ensures buf[..beg] == old(buf[..beg]) && buf[end..] == old(buf[end..])
      ensures ok ==> Valid(more)
      ensures !ok ==> Stopped(false)
    {
      ok := PutRates(ap.rates, [Beacon(ap.beaconInterval)] + IePart(ap.rsn, IePart(ap.wpa, more)));
      if !ok { return; }
      ok := Put(Beacon(ap.beaconInterval), IePart(ap.rsn, IePart(ap.wpa, more)));
      if !ok { return; }
      if ap.rsn.Some? {
        ok := PutIe(ap.rsn.value, IePart(ap.wpa, more));
        if !ok { return; }
      }
      if ap.wpa.Some? {
        ok := PutIe(ap.wpa.value, more);
      }
    }

    /** One round of the loop over the access points. */
    method PutAccessPoint(ap: AccessPoint, ghost more: seq<IwEvent>) returns (ok: bool)
      requires Valid(EventsOf(ap, more))
      modifies this`cur, this`emitted, buf
      ensures buf[..beg] == old(buf[..beg]) && buf[end..] == old(buf[end..])
      ensures ok ==> Valid(more)
      ensures !ok ==> Stopped(false)
    {
      if cur >= end {
        EventStops(L, goal, emitted, ApAddr(ap.bssid), [Essid(ap.ssid)] + ModePart(ap, FromName(ap, more)),
                   cur - beg, end - beg);
        return false;
      }
      ok := PutFixed(ap, more);
      if !ok { return; }
      ok := PutVariable(ap, more);
    }

    /** The loop over the access points. */
    method PutAll(aps: seq<AccessPoint>) returns (ok: bool)
      requires Valid(FullList(aps))
      modifies this`cur, this`emitted, buf
      ensures buf[..beg] == old(buf[..beg]) && buf[end..] == old(buf[end..])
      ensures Stopped(ok)
    {
      var i := 0;
      assert aps[0..] == aps;
      while i < |aps|
        invariant i <= |aps| && Valid(FullList(aps[i..]))
        invariant buf[..beg] == old(buf[..beg]) && buf[end..] == old(buf[end..])
      {
        assert aps[i..][0] == aps[i] && aps[i..][1..] == aps[i + 1..];
        ok := PutAccessPoint(aps[i], FullList(aps[i + 1..]));
        if !ok { return false; }
        i := i + 1;
      }
      Finished(this);
      return true;
    }

    /** The whole list, and how much of the buffer it has taken. */
    method WriteAll(aps: seq<AccessPoint>) returns (ok: bool, used: nat)
      requires Valid(FullList(aps))
      modifies this`cur, this`emitted, buf
      ensures buf[..beg] == old(buf[..beg]) && buf[end..] == old(buf[end..])
      ensures ok == goal.ok && used == goal.used && beg + used <= buf.Length && (used > 0 ==> beg + used < end)
      ensures buf[beg..beg + used] == EncAll(L, goal.emitted)
    {
      ok := PutAll(aps);
      used := Used(ok);
    }

    method Used(ghost ok: bool) returns (used: nat)
      requires Stopped(ok)
      ensures ok == goal.ok && used == goal.used && beg + used <= buf.Length && (used > 0 ==> beg + used < end)
      ensures buf[beg..beg + used] == EncAll(L, goal.emitted)
    {
      used := cur - beg;
    }
  }

  const E2BIG: int := 7

  /** _ioctl_sub_get_scan_res. It writes only inside [beg, end); what it has written, how much,
      and whether it returns 0 is what Write says of the full list. */
  method GetScanRes(buf: array<byte>, beg: nat, end: nat, L: Layout, aps: seq<AccessPoint>)
    returns (err: int, actual: nat)
    requires beg <= buf.Length && end <= buf.Length && LayoutOk(L)
    modifies buf
    ensures var d := Write(L, FullList(aps), 0, end - beg);
            && err == (if d.ok then 0 else -E2BIG) && actual == d.used
            && beg + actual <= buf.Length && (actual > 0 ==> beg + actual < end)
            && buf[beg..beg + actual] == EncAll(L, d.emitted)
    ensures buf[..beg] == old(buf[..beg]) && buf[end..] == old(buf[end..])
  {
    var w := new Writer(buf, beg, end, L, FullList(aps));
    var ok;
    ok, actual := w.WriteAll(aps);
    err := if ok then 0 else -E2BIG;
  }

  /** With nothing left to write the run has ended well. */
  lemma Finished(w: Writer)
    requires w.Valid([])
    ensures w.Stopped(true)
  {
    assert w.emitted + [] == w.emitted;
  }

  /** Behind cur stand the header and the first k values of a rates event. */
  ghost predicate RatesIn(L: Layout, s: seq<byte>, cur: nat, curVal: nat, k: nat, values: seq<nat>)
  {
    && curVal == cur + L.lcp + PARAM * k && k <= |values|
    && (k > 0 ==> curVal <= |s| && s[cur..curVal] == L.header(L.lcp + PARAM * k) + EncValues(L, values[..k]))
  }

  lemma RatesGrow(L: Layout, before: seq<byte>, after: seq<byte>, cur: nat, curVal: nat, values: seq<nat>, v: nat)
    requires LayoutOk(L) && RatesIn(L, before, cur, curVal, |values|, values)
    requires |before| == |after| && curVal + PARAM <= |after|
    requires after[cur..curVal + PARAM] == L.header(curVal + PARAM - cur) + before[cur + L.lcp..curVal] + L.value(v)
    ensures RatesIn(L, after, cur, curVal + PARAM, |values| + 1, values + [v])
  {
    ValuesGrow(L, values, v);
    assert values[..|values|] == values;
    if |values| > 0 {
      SliceTail(before, cur, L.lcp, curVal, L.header(L.lcp + PARAM * |values|), EncValues(L, values));
    } else {
      assert before[cur + L.lcp..curVal] == [];
    }
  }

  lemma ShorterPrefix(s: seq<byte>, t: seq<byte>, m: nat, n: nat)
    requires m <= n <= |s| && n <= |t| && s[..n] == t[..n]
    ensures s[..m] == t[..m]
  {
    assert s[..m] == s[..n][..m];
  }

  lemma SameSlice(s: seq<byte>, t: seq<byte>, m: nat, n: nat)
    requires m <= n <= |s| && n <= |t| && s[..n] == t[..n]
    ensures s[m..n] == t[m..n]
  {
    assert s[m..n] == s[..n][m..] && t[m..n] == t[..n][m..];
  }

  /** What adding a value, if there is room for it, does to the rates event behind cur. */
  lemma RateStep(L: Layout, before: seq<byte>, after: seq<byte>, beg: nat, cur: nat, curVal: nat, end: nat,
                 k: nat, values: seq<nat>, v: nat) returns (k': nat)
    requires LayoutOk(L) && beg <= cur && RatesIn(L, before, cur, curVal, k, values)
    requires Fits(L, cur - beg, end - beg, |values|, k)
    requires |before| == |after| && end <= |after|
    requires curVal + PARAM < end ==>
               after[cur..curVal + PARAM] == L.header(curVal + PARAM - cur) + before[cur + L.lcp..curVal] + L.value(v)
    requires curVal + PARAM >= end ==> after == before
    ensures RatesIn(L, after, cur, if curVal + PARAM < end then curVal + PARAM else curVal, k', values + [v])
    ensures Fits(L, cur - beg, end - beg, |values| + 1, k')
  {
    if curVal + PARAM < end {
      RatesGrow(L, before, after, cur, curVal, values, v);
      k' := k + 1;
    } else {
      assert (values + [v])[..k] == values[..k];
      k' := k;
    }
  }

  lemma ValuesGrow(L: Layout, values: seq<nat>, v: nat)
    ensures (values + [v])[..|values| + 1] == values + [v]
    ensures EncValues(L, values + [v]) == EncValues(L, values) + L.value(v)
  {
    assert (values + [v])[..|values|] == values;
  }

  lemma SliceTail(s: seq<byte>, from: nat, mid: nat, to: nat, header: seq<byte>, rest: seq<byte>)
    requires from + mid <= to <= |s| && |header| == mid && s[from..to] == header + rest
    ensures s[from + mid..to] == rest
  {
    assert s[from + mid..to] == s[from..to][mid..];
  }

  /** Two copies, the second before the first. */
  lemma AddedValue(before: seq<byte>, mid: seq<byte>, after: seq<byte>, event: nat, at: nat, end: nat,
                   header: seq<byte>, value: seq<byte>)
    requires |before| == |mid| == |after| && event + |header| <= at && at + |value| < end <= |before|
    requires mid[..at] == before[..at] && mid[at..at + |value|] == value
    requires mid[at + |value|..] == before[at + |value|..]
    requires after[..event] == mid[..event] && after[event..event + |header|] == header
             && after[event + |header|..] == mid[event + |header|..]
    ensures after[..event] == before[..event] && after[end..] == before[end..]
    ensures after[event..at + |value|] == header + before[event + |header|..at] + value
  {
    var n := at + |value|;
    assert after[..event] == mid[..at][..event];
    assert after[end..] == after[event + |header|..][end - event - |header|..] == mid[end..] == mid[n..][end - n..];
    assert after[event + |header|..n] == after[event + |header|..][..n - event - |header|] == mid[event + |header|..n];
    assert mid[event + |header|..at] == mid[..at][event + |header|..] == before[event + |header|..at];
    assert mid[event + |header|..n] == mid[event + |header|..at] + mid[at..n];
    assert after[event..n] == after[event..event + |header|] + after[event + |header|..n];
  }
}
