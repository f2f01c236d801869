/** What a program reads out of a list of wireless events, and that it reads back what was scanned. */
module ScanReader {
  import opened Options
  import opened Frequency
  import opened ScanWriter
  import opened ScanTheorems

  /** What is known of one access point. */
  datatype Report = Report(
    bssid: seq<byte>, ssid: Option<seq<byte>>, master: Option<bool>, is80211g: Option<bool>, channel: Option<int>,
    rssi: Option<byte>, privacy: Option<bool>, rates: Option<seq<nat>>, beacon: Option<nat>, elements: seq<seq<byte>>)

  /** The reports so far, and the stage of the event read last. */
  datatype Reading = Reading(reports: seq<Report>, stage: nat) | Nonsense

  function Stage(e: IwEvent): nat
  {
    match e
    case ApAddr(_) => 0
    case Essid(_) => 1
    case OperMode(_) => 2
    case Name(_) => 3
    case Freq(_, _) => 4
    case Quality(_) => 5
    case Encode(_) => 6
    case Rates(_) => 7
    case Beacon(_) => 8
    case Genie(_) => 9
  }

  /** One more fact about an access point. A frequency is read as setting it would be. */
  function Note(r: Report, e: IwEvent): Report
  {
    match e
    case ApAddr(b) => r.(bssid := b)
    case Essid(s) => r.(ssid := Some(s))
    case OperMode(master) => r.(master := Some(master))
    case Name(g) => r.(is80211g := Some(g))
    case Freq(m, x) => r.(channel := SetFreq(m, x))
    case Quality(rssi) => r.(rssi := Some(rssi))
    case Encode(on) => r.(privacy := Some(on))
    case Rates(values) => r.(rates := Some(values))
    case Beacon(n) => r.(beacon := Some(n))
    case Genie(ie) => r.(elements := r.elements + [ie])
  }

  /** An address opens a report; the other events follow in the order of their stages, none but the
      information elements twice. */
  function Absorb(r: Reading, e: IwEvent): Reading
  {
    if r.Nonsense? then Nonsense
    else if e.ApAddr? then
      Reading(r.reports + [Report(e.bssid, None, None, None, None, None, None, None, None, [])], 0)
    else if r.reports == [] || Stage(e) < r.stage || (Stage(e) == r.stage && !e.Genie?) then Nonsense
    else
      var n := |r.reports| - 1;
      Reading(r.reports[..n] + [Note(r.reports[n], e)], Stage(e))
  }

  function ReadOn(r: Reading, events: seq<IwEvent>): Reading
    decreases |events|
  {
    if events == [] then r else ReadOn(Absorb(r, events[0]), events[1..])
  }

  function ReadBack(events: seq<IwEvent>): Reading { ReadOn(Reading([], 0), events) }

  /** The non-zero rates in bit/s; the top bit of an entry is not part of the rate. */
  function BitRates(rates: seq<byte>): seq<nat>
  {
    if rates == [] then []
    else (if rates[0] % 128 == 0 then [] else [500000 * (rates[0] % 128) as nat]) + BitRates(rates[1..])
  }

  function Elements(ie: Option<seq<byte>>): seq<seq<byte>> { if ie.Some? then [ie.value] else [] }

  /** What there is to know of an access point: it is a master exactly if it is in infrastructure mode, and has
      no mode if it is in neither. */
  function Known(ap: AccessPoint): Report
  {
    Report(ap.bssid, Some(ap.ssid), if ap.ess then Some(true) else if ap.ibss then Some(false) else None,
           Some(ap.is80211g), Some(ap.channel), Some(ap.rssi), Some(ap.privacy), Some(BitRates(ap.rates)),
           Some(ap.beaconInterval), Elements(ap.rsn) + Elements(ap.wpa))
  }

  // ---------- reading ----------

  lemma {:induction false} BitRatesAppend(rates: seq<byte>, r: byte)
    ensures BitRates(rates + [r]) == BitRates(rates) + if r % 128 == 0 then [] else [500000 * (r % 128) as nat]
    decreases |rates|
  {
    if rates == [] {
      assert [r][1..] == [];
    } else {
      assert (rates + [r])[0] == rates[0] && (rates + [r])[1..] == rates[1..] + [r];
      BitRatesAppend(rates[1..], r);
    }
  }

  lemma {:induction false} RatesAre(rates: seq<byte>)
    ensures RateValues(rates) == BitRates(rates)
    decreases |rates|
  {
    if rates != [] {
      var n := |rates| - 1;
      RatesAre(rates[..n]);
      BitRatesAppend(rates[..n], rates[n]);
      assert rates == rates[..n] + [rates[n]];
    }
  }

  /** The report r, after done, grows to s at the given stage, with rest still to be read. */
  ghost predicate Leads(done: seq<Report>, r: Report, stage: nat, events: seq<IwEvent>,
                        s: Report, stage': nat, rest: seq<IwEvent>)
  {
    ReadOn(Reading(done + [r], stage), events) == ReadOn(Reading(done + [s], stage'), rest)
  }

  lemma ReadOne(done: seq<Report>, r: Report, stage: nat, e: IwEvent, rest: seq<IwEvent>)
    requires !e.ApAddr? && (stage < Stage(e) || (stage == Stage(e) && e.Genie?))
    ensures Leads(done, r, stage, [e] + rest, Note(r, e), Stage(e), rest)
  {
    var reports := done + [r];
    assert ([e] + rest)[1..] == rest;
    assert reports[..|reports| - 1] == done;
  }

  lemma ReadIe(done: seq<Report>, r: Report, stage: nat, ie: Option<seq<byte>>, next: seq<IwEvent>)
    requires stage == 8 || stage == 9
    ensures Leads(done, r, stage, IePart(ie, next), r.(elements := r.elements + Elements(ie)),
                  if ie.Some? then 9 else stage, next)
  {
    if ie.Some? {
      ReadOne(done, r, stage, Genie(ie.value), next);
    } else {
      assert r.elements + [] == r.elements;
    }
  }

  lemma ReadRates(done: seq<Report>, r: Report, ap: AccessPoint, next: seq<IwEvent>) returns (stage: nat)
    requires r.elements == []
    ensures Leads(done, r, 6, FromRates(ap, next),
                  r.(rates := Some(BitRates(ap.rates)), beacon := Some(ap.beaconInterval),
                     elements := Elements(ap.rsn) + Elements(ap.wpa)), stage, next)
  {
    RatesAre(ap.rates);
    var tail := IePart(ap.rsn, IePart(ap.wpa, next));
    var r1 := r.(rates := Some(BitRates(ap.rates)));
    var r2 := r1.(beacon := Some(ap.beaconInterval));
    var r3 := r2.(elements := r2.elements + Elements(ap.rsn));
    ReadOne(done, r, 6, Rates(RateValues(ap.rates)), [Beacon(ap.beaconInterval)] + tail);
    ReadOne(done, r1, 7, Beacon(ap.beaconInterval), tail);
    ReadIe(done, r2, 8, ap.rsn, IePart(ap.wpa, next));
    stage := if ap.rsn.Some? then 9 else 8;
    ReadIe(done, r3, stage, ap.wpa, next);
    stage := if ap.wpa.Some? then 9 else stage;
    assert [] + Elements(ap.rsn) == Elements(ap.rsn);
  }

  lemma ReadName(done: seq<Report>, r: Report, stage: nat, ap: AccessPoint, next: seq<IwEvent>)
    requires stage == 1 || stage == 2
    ensures Leads(done, r, stage, FromName(ap, next),
                  r.(is80211g := Some(ap.is80211g), channel := Some(ap.channel), rssi := Some(ap.rssi),
                     privacy := Some(ap.privacy)), 6, FromRates(ap, next))
  {
    DriverEncoding(ap.channel);
    var f0 := FromRates(ap, next);
    var r1 := r.(is80211g := Some(ap.is80211g));
    var r2 := r1.(channel := Some(ap.channel));
    var r3 := r2.(rssi := Some(ap.rssi));
    ReadOne(done, r, stage, Name(ap.is80211g),
            [FreqOf(ap.channel)] + ([Quality(ap.rssi)] + ([Encode(ap.privacy)] + f0)));
    ReadOne(done, r1, 3, FreqOf(ap.channel), [Quality(ap.rssi)] + ([Encode(ap.privacy)] + f0));
    ReadOne(done, r2, 4, Quality(ap.rssi), [Encode(ap.privacy)] + f0);
    ReadOne(done, r3, 5, Encode(ap.privacy), f0);
  }

  lemma ReadMode(done: seq<Report>, r: Report, ap: AccessPoint, next: seq<IwEvent>) returns (stage: nat)
    requires r.master == None
    ensures stage == 1 || stage == 2
    ensures Leads(done, r, 1, ModePart(ap, next),
                  r.(master := if ap.ess then Some(true) else if ap.ibss then Some(false) else None), stage, next)
  {
    stage := 1;
    if ap.ess || ap.ibss {
      ReadOne(done, r, 1, OperMode(ap.ess), next);
      stage := 2;
    }
  }

  /** Everything about one access point is read back, whatever came before it. */
  lemma ReadAccessPoint(r: Reading, ap: AccessPoint, next: seq<IwEvent>) returns (stage: nat)
    requires r.Reading?
    ensures ReadOn(r, EventsOf(ap, next)) == ReadOn(Reading(r.reports + [Known(ap)], stage), next)
  {
    var events := [ApAddr(ap.bssid)] + ([Essid(ap.ssid)] + ModePart(ap, FromName(ap, next)));
    var r0 := Report(ap.bssid, None, None, None, None, None, None, None, None, []);
    assert events[1..] == [Essid(ap.ssid)] + ModePart(ap, FromName(ap, next));
    assert ReadOn(r, events) == ReadOn(Reading(r.reports + [r0], 0), events[1..]);
    var r1 := r0.(ssid := Some(ap.ssid));
    ReadOne(r.reports, r0, 0, Essid(ap.ssid), ModePart(ap, FromName(ap, next)));
    stage := ReadMode(r.reports, r1, ap, FromName(ap, next));
    var r2 := r1.(master := if ap.ess then Some(true) else if ap.ibss then Some(false) else None);
    ReadName(r.reports, r2, stage, ap, next);
    var r3 := r2.(is80211g := Some(ap.is80211g), channel := Some(ap.channel), rssi := Some(ap.rssi),
                  privacy := Some(ap.privacy));
    stage := ReadRates(r.reports, r3, ap, next);
  }

  function KnownOf(aps: seq<AccessPoint>): (k: seq<Report>)
    ensures |k| == |aps| && forall i :: 0 <= i < |aps| ==> k[i] == Known(aps[i])
  {
    if aps == [] then [] else [Known(aps[0])] + KnownOf(aps[1..])
  }

  lemma ReadFirst(r: Reading, aps: seq<AccessPoint>, next: seq<IwEvent>) returns (stage: nat)
    requires r.Reading? && aps != [] && next == FullList(aps[1..])
    ensures ReadOn(r, FullList(aps)) == ReadOn(Reading(r.reports + [Known(aps[0])], stage), next)
  {
    stage := ReadAccessPoint(r, aps[0], next);
  }

  lemma {:induction false} ReadFullList(r: Reading, aps: seq<AccessPoint>)
    requires r.Reading?
    ensures var e := ReadOn(r, FullList(aps)); e.Reading? && e.reports == r.reports + KnownOf(aps)
    decreases |aps|
  {
    if aps != [] {
      var stage := ReadFirst(r, aps, FullList(aps[1..]));
      ReadFullList(Reading(r.reports + [Known(aps[0])], stage), aps[1..]);
      assert r.reports + [Known(aps[0])] + KnownOf(aps[1..]) == r.reports + KnownOf(aps);
    } else {
      assert r.reports + [] == r.reports;
    }
  }

  /** A scan that succeeds can be read back: one report for each access point, in order, with its address,
      name, mode, protocol, channel, signal, privacy, non-zero rates, beacon interval and elements. */
  lemma ScanReadBack(L: Layout, aps: seq<AccessPoint>, limit: int)
    ensures var d := Write(L, FullList(aps), 0, limit);
            d.ok ==> ReadsAs(d.emitted, aps)
  {
    ScanResult(L, aps, limit);
    FullListReads(aps, FullList(aps));
  }

  /** Reading the events gives one report for each access point, in order. */
  ghost predicate ReadsAs(events: seq<IwEvent>, aps: seq<AccessPoint>)
  {
    var r := ReadBack(events);
    r.Reading? && |r.reports| == |aps| && forall i :: 0 <= i < |aps| ==> r.reports[i] == Known(aps[i])
  }

  lemma FullListReads(aps: seq<AccessPoint>, list: seq<IwEvent>)
    requires list == FullList(aps)
    ensures ReadsAs(list, aps)
  {
    ReadFullList(Reading([], 0), aps);
  }

  // ---------- the beacon text and the rates event ----------

  function DigitValue(c: char): (v: nat)
    requires '0' <= c <= '9'
    ensures v < 10
  {
    c as int - '0' as int
  }

  predicate AllDigits(s: string) { forall i :: 0 <= i < |s| ==> '0' <= s[i] <= '9' }

  function DecimalValue(s: string): nat
    requires AllDigits(s)
  {
    if s == "" then 0 else 10 * DecimalValue(s[..|s| - 1]) + DigitValue(s[|s| - 1])
  }

  lemma {:induction false} DecimalReads(n: nat)
    ensures Decimal(n) != "" && AllDigits(Decimal(n)) && DecimalValue(Decimal(n)) == n
    ensures n < 10 ==> |Decimal(n)| == 1
  {
    var last := "0123456789"[n % 10];
    assert DigitValue(last) == n % 10;
    var front := if n < 10 then "" else Decimal(n / 10);
    if n >= 10 { DecimalReads(n / 10); }
    assert (front + [last])[..|front|] == front;
  }

  /** The beacon text is its leader and the interval in decimal, and fits the local buffer with its NUL. */
  lemma BeaconReads(n: uint16)
    ensures var t := BeaconText(n);
            && t[..16] == "Beacon Interval:" && AllDigits(t[16..]) && DecimalValue(t[16..]) == n && |t| < MAX_IE
  {
    DecimalReads(n);
    assert BeaconText(n)[16..] == Decimal(n);
    PowTable();
    DecimalShort(n, 5);
  }

  lemma {:induction false} DecimalShort(n: nat, k: nat)
    requires k > 0 && n < Pow10(k)
    ensures |Decimal(n)| <= k
    decreases k
  {
    if n >= 10 { DecimalShort(n / 10, k - 1); }
  }

  /** The header of a rates event says how long the event is, and behind it stand the values. */
  lemma RatesEventKnowsItself(L: Layout, values: seq<nat>, k: nat)
    requires LayoutOk(L) && k < |values|
    ensures var bytes := Enc(L, Rates(values));
            && |bytes| == L.lcp + PARAM * |values| && bytes[..L.lcp] == L.header(|bytes|)
            && bytes[L.lcp + PARAM * k..L.lcp + PARAM * (k + 1)] == L.value(values[k])
  {
    EncValuesSize(L, values);
    ValueAt(L, values, k);
    var bytes := Enc(L, Rates(values));
    assert bytes[L.lcp..] == EncValues(L, values);
    assert bytes[L.lcp + PARAM * k..L.lcp + PARAM * (k + 1)] == bytes[L.lcp..][PARAM * k..PARAM * (k + 1)];
  }

  lemma {:induction false} ValueAt(L: Layout, values: seq<nat>, k: nat)
    requires LayoutOk(L) && k < |values|
    ensures |EncValues(L, values)| == PARAM * |values|
    ensures EncValues(L, values)[PARAM * k..PARAM * (k + 1)] == L.value(values[k])
    decreases |values|
  {
    var n := |values| - 1;
    EncValuesSize(L, values);
    EncValuesSize(L, values[..n]);
    if k < n {
      ValueAt(L, values[..n], k);
      assert EncValues(L, values)[PARAM * k..PARAM * (k + 1)] == EncValues(L, values[..n])[PARAM * k..PARAM * (k + 1)];
    }
  }
}
