/** What the scan-result writer guarantees for every scan list and every buffer. */
module ScanTheorems {
  import opened Options
  import opened ScanWriter

  /** Every rates event is followed by a beacon event. */
  ghost predicate Shaped(events: seq<IwEvent>)
  {
    forall i :: 0 <= i < |events| && events[i].Rates? ==> i + 1 < |events| && events[i + 1].Beacon?
  }

  lemma ShapedCons(e: IwEvent, rest: seq<IwEvent>)
    requires !e.Rates? && Shaped(rest)
    ensures Shaped([e] + rest)
  {
    forall i | 0 <= i < |[e] + rest| && ([e] + rest)[i].Rates?
      ensures i + 1 < |[e] + rest| && ([e] + rest)[i + 1].Beacon?
    {
      assert rest[i - 1].Rates?;
    }
  }

  lemma ShapedRates(ap: AccessPoint, next: seq<IwEvent>)
    requires Shaped(next)
    ensures Shaped(FromRates(ap, next))
  {
    var tail := IePart(ap.wpa, next);
    if ap.wpa.Some? { ShapedCons(Genie(ap.wpa.value), next); }
    if ap.rsn.Some? { ShapedCons(Genie(ap.rsn.value), tail); }
    var b := [Beacon(ap.beaconInterval)] + IePart(ap.rsn, tail);
    ShapedCons(Beacon(ap.beaconInterval), IePart(ap.rsn, tail));
    var all := FromRates(ap, next);
    forall i | 0 <= i < |all| && all[i].Rates? ensures i + 1 < |all| && all[i + 1].Beacon? {
      if i > 0 { assert all[i] == b[i - 1] && all[i + 1..] == b[i..]; }
    }
  }

  lemma {:induction false} FullListShaped(aps: seq<AccessPoint>)
    ensures Shaped(FullList(aps))
  {
    if aps != [] {
      var ap, next := aps[0], FullList(aps[1..]);
      FullListShaped(aps[1..]);
      ShapedRates(ap, next);
      var f0 := FromRates(ap, next);
      ShapedCons(Encode(ap.privacy), f0);
      ShapedCons(Quality(ap.rssi), [Encode(ap.privacy)] + f0);
      ShapedCons(FreqOf(ap.channel), [Quality(ap.rssi)] + ([Encode(ap.privacy)] + f0));
      ShapedCons(Name(ap.is80211g), [FreqOf(ap.channel)] + ([Quality(ap.rssi)] + ([Encode(ap.privacy)] + f0)));
      var f1 := FromName(ap, next);
      if ap.ess || ap.ibss { ShapedCons(OperMode(ap.ess), f1); }
      ShapedCons(Essid(ap.ssid), ModePart(ap, f1));
      ShapedCons(ApAddr(ap.bssid), [Essid(ap.ssid)] + ModePart(ap, f1));
    }
  }

  function Total(L: Layout, events: seq<IwEvent>): nat
  {
    if events == [] then 0 else Size(L, events[0]) + Total(L, events[1..])
  }

  /** An event the writer can emit at all: a rates event has a rate, an element fits the local buffer. */
  predicate Writable(e: IwEvent)
  {
    match e
    case Rates(v) => v != []
    case Genie(b) => |b| <= MAX_IE
    case _ => true
  }

  ghost predicate AllWritable(events: seq<IwEvent>) { forall e :: e in events ==> Writable(e) }

  lemma ShapedTail(events: seq<IwEvent>)
    requires Shaped(events) && events != []
    ensures Shaped(events[1..])
  {
    forall i | 0 <= i < |events[1..]| && events[1..][i].Rates?
      ensures i + 1 < |events[1..]| && events[1..][i + 1].Beacon?
    {
      assert events[i + 1].Rates?;
    }
  }

  lemma WritableCons(events: seq<IwEvent>)
    requires events != []
    ensures AllWritable(events) <==> Writable(events[0]) && AllWritable(events[1..])
  {
    assert events == [events[0]] + events[1..];
  }

  /** After a shortened rates event the beacon event that follows has no room. */
  lemma ShortenedStops(L: Layout, events: seq<IwEvent>, used: nat, limit: int)
    requires Shaped(events) && events != [] && events[0].Rates?
    requires var k := Fitting(L, used, limit, |events[0].values|); 0 < k < |events[0].values|
    ensures var k := Fitting(L, used, limit, |events[0].values|);
            Write(L, events, used, limit) == Done([Rates(events[0].values[..k])], used + L.lcp + PARAM * k, false)
  {
    var k := Fitting(L, used, limit, |events[0].values|);
    assert events[1].Beacon? && events[1..][0] == events[1];
    assert Write(L, events[1..], used + L.lcp + PARAM * k, limit) == Done([], used + L.lcp + PARAM * k, false);
    assert [Rates(events[0].values[..k])] + [] == [Rates(events[0].values[..k])];
  }

  /** The writer succeeds exactly when every event is writable and they all fit. */
  lemma {:induction false} WriteOkExactly(L: Layout, events: seq<IwEvent>, used: nat, limit: int)
    requires Shaped(events)
    ensures Write(L, events, used, limit).ok
            <==> AllWritable(events) && (events == [] || used + Total(L, events) < limit)
    decreases |events|
  {
    if events != [] {
      var e, rest := events[0], events[1..];
      ShapedTail(events);
      WritableCons(events);
      if e.Rates? {
        var k := Fitting(L, used, limit, |e.values|);
        if 0 < k < |e.values| {
          ShortenedStops(L, events, used, limit);
        } else if k > 0 {
          WriteOkExactly(L, rest, used + L.lcp + PARAM * k, limit);
        }
      } else {
        WriteOkExactly(L, rest, used + Size(L, e), limit);
      }
    }
  }

  /** emitted is an event-wise prefix of events; only its last event may be a shortened rates event. */
  ghost predicate PrefixOf(emitted: seq<IwEvent>, events: seq<IwEvent>)
  {
    && |emitted| <= |events|
    && forall i :: 0 <= i < |emitted| ==>
         emitted[i] == events[i]
         || (i == |emitted| - 1 && events[i].Rates? && emitted[i].Rates? && emitted[i].values != []
             && emitted[i].values < events[i].values)
  }

  /** What a run of the writer over events leaves. */
  ghost predicate Faithful(L: Layout, d: Done, events: seq<IwEvent>, used: nat, limit: int)
  {
    && PrefixOf(d.emitted, events) && (d.ok ==> d.emitted == events)
    && d.used == used + Total(L, d.emitted)
    && (d.emitted != [] ==> d.used < limit)
  }

  lemma FaithfulCons(L: Layout, e: IwEvent, d: Done, rest: seq<IwEvent>, used: nat, limit: int)
    requires Faithful(L, d, rest, used + Size(L, e), limit) && used + Size(L, e) < limit
    ensures Faithful(L, Done([e] + d.emitted, d.used, d.ok), [e] + rest, used, limit)
  {
    assert ([e] + d.emitted)[1..] == d.emitted;
    if d.emitted == [] { assert Total(L, d.emitted) == 0; }
  }

  lemma FaithfulShortened(L: Layout, events: seq<IwEvent>, used: nat, limit: int)
    requires Shaped(events) && events != [] && events[0].Rates?
    requires var k := Fitting(L, used, limit, |events[0].values|); 0 < k < |events[0].values|
    ensures Faithful(L, Write(L, events, used, limit), events, used, limit)
  {
    var k := Fitting(L, used, limit, |events[0].values|);
    ShortenedStops(L, events, used, limit);
    var e := Rates(events[0].values[..k]);
    assert [e][1..] == [];
    assert Total(L, [e]) == Size(L, e) + Total(L, []);
  }

  lemma {:induction false} WriteIsPrefix(L: Layout, events: seq<IwEvent>, used: nat, limit: int)
    requires Shaped(events)
    ensures Faithful(L, Write(L, events, used, limit), events, used, limit)
    decreases |events|
  {
    if events != [] {
      var e, rest := events[0], events[1..];
      ShapedTail(events);
      assert events == [e] + rest;
      if e.Rates? {
        var k := Fitting(L, used, limit, |e.values|);
        if 0 < k < |e.values| {
          FaithfulShortened(L, events, used, limit);
        } else if k > 0 {
          assert e.values[..k] == e.values;
          WriteIsPrefix(L, rest, used + Size(L, e), limit);
          FaithfulCons(L, e, Write(L, rest, used + Size(L, e), limit), rest, used, limit);
        }
      } else if !(e.Genie? && |e.ie| > MAX_IE) && used + Size(L, e) < limit {
        WriteIsPrefix(L, rest, used + Size(L, e), limit);
        FaithfulCons(L, e, Write(L, rest, used + Size(L, e), limit), rest, used, limit);
      }
    }
  }

  /** Nothing more of events can be written behind d: the rates event it ends with has been shortened
      and another value does not fit, or the next event cannot be written or does not fit. */
  predicate StuckAt(L: Layout, d: Done, events: seq<IwEvent>, limit: int)
  {
    var n := |d.emitted|;
    && n <= |events|
    && if n > 0 && d.emitted[n - 1] != events[n - 1] then d.used + PARAM >= limit
       else n < |events| && match events[n]
                            case Rates(v) => v == [] || d.used + L.lcp + PARAM >= limit
                            case e => !Writable(e) || d.used + Size(L, e) >= limit
  }

  lemma StuckCons(L: Layout, e: IwEvent, d: Done, rest: seq<IwEvent>, limit: int)
    requires StuckAt(L, d, rest, limit)
    ensures StuckAt(L, Done([e] + d.emitted, d.used, d.ok), [e] + rest, limit)
  {
    var n := |d.emitted|;
    assert n < |rest| ==> ([e] + rest)[n + 1] == rest[n];
    assert n > 0 ==> ([e] + rest)[n] == rest[n - 1] && ([e] + d.emitted)[n] == d.emitted[n - 1];
  }

  lemma StuckShortened(L: Layout, events: seq<IwEvent>, used: nat, limit: int)
    requires Shaped(events) && events != [] && events[0].Rates?
    requires var k := Fitting(L, used, limit, |events[0].values|); 0 < k < |events[0].values|
    ensures StuckAt(L, Write(L, events, used, limit), events, limit)
  {
    ShortenedStops(L, events, used, limit);
    var k := Fitting(L, used, limit, |events[0].values|);
    assert |events[0].values[..k]| == k;
    assert Rates(events[0].values[..k]) != events[0];
  }

  /** The first event is not written at all. */
  lemma StuckNow(L: Layout, events: seq<IwEvent>, used: nat, limit: int)
    requires events != []
    requires var e := events[0];
             if e.Rates? then Fitting(L, used, limit, |e.values|) == 0 else !Writable(e) || used + Size(L, e) >= limit
    ensures StuckAt(L, Write(L, events, used, limit), events, limit)
  {
  }

  /** The first event is written whole. */
  lemma WriteWhole(L: Layout, e: IwEvent, rest: seq<IwEvent>, used: nat, limit: int)
    requires if e.Rates? then e.values != [] && Fitting(L, used, limit, |e.values|) == |e.values|
             else Writable(e) && used + Size(L, e) < limit
    ensures var d := Write(L, rest, used + Size(L, e), limit);
            Write(L, [e] + rest, used, limit) == Done([e] + d.emitted, d.used, d.ok)
  {
    assert ([e] + rest)[1..] == rest;
    if e.Rates? { assert e.values[..|e.values|] == e.values; }
  }

  /** The writer gives up only when it can do no more. */
  lemma {:induction false} WriteIsMaximal(L: Layout, events: seq<IwEvent>, used: nat, limit: int)
    requires Shaped(events)
    ensures var d := Write(L, events, used, limit); !d.ok ==> StuckAt(L, d, events, limit)
    decreases |events|
  {
    if events != [] {
      var e, rest := events[0], events[1..];
      var k := if e.Rates? then Fitting(L, used, limit, |e.values|) else 0;
      if e.Rates? && 0 < k < |e.values| {
        StuckShortened(L, events, used, limit);
      } else if if e.Rates? then k > 0 else Writable(e) && used + Size(L, e) < limit {
        ShapedTail(events);
        assert events == [e] + rest;
        WriteWhole(L, e, rest, used, limit);
        WriteIsMaximal(L, rest, used + Size(L, e), limit);
        StuckLater(L, e, rest, used, limit);
      } else {
        StuckNow(L, events, used, limit);
      }
    }
  }

  lemma StuckLater(L: Layout, e: IwEvent, rest: seq<IwEvent>, used: nat, limit: int)
    requires var d := Write(L, rest, used + Size(L, e), limit); !d.ok ==> StuckAt(L, d, rest, limit)
    ensures var d := Write(L, rest, used + Size(L, e), limit);
            !d.ok ==> StuckAt(L, Done([e] + d.emitted, d.used, false), [e] + rest, limit)
  {
    var d := Write(L, rest, used + Size(L, e), limit);
    if !d.ok { StuckCons(L, e, d, rest, limit); }
  }

  /** An access point the writer can report: it has a non-zero rate, and its information elements
      fit the local buffer. */
  predicate Reportable(ap: AccessPoint)
  {
    && RateValues(ap.rates) != []
    && (ap.rsn.Some? ==> |ap.rsn.value| <= 158)
    && (ap.wpa.Some? ==> |ap.wpa.value| <= 158)
  }

  lemma EventsWritable(ap: AccessPoint, next: seq<IwEvent>)
    ensures AllWritable(EventsOf(ap, next)) <==> Reportable(ap) && AllWritable(next)
  {
    var w0 := IePart(ap.wpa, next);
    assert AllWritable(w0) <==> (ap.wpa.Some? ==> |ap.wpa.value| <= MAX_IE) && AllWritable(next) by {
      if ap.wpa.Some? { WritableCons(w0); assert w0[1..] == next; }
    }
    var w1 := IePart(ap.rsn, w0);
    assert AllWritable(w1) <==> (ap.rsn.Some? ==> |ap.rsn.value| <= MAX_IE) && AllWritable(w0) by {
      if ap.rsn.Some? { WritableCons(w1); assert w1[1..] == w0; }
    }
    Peel(Beacon(ap.beaconInterval), w1);
    Peel(Rates(RateValues(ap.rates)), [Beacon(ap.beaconInterval)] + w1);
    var f0 := FromRates(ap, next);
    Peel(Encode(ap.privacy), f0);
    Peel(Quality(ap.rssi), [Encode(ap.privacy)] + f0);
    Peel(FreqOf(ap.channel), [Quality(ap.rssi)] + ([Encode(ap.privacy)] + f0));
    Peel(Name(ap.is80211g), [FreqOf(ap.channel)] + ([Quality(ap.rssi)] + ([Encode(ap.privacy)] + f0)));
    var f1 := FromName(ap, next);
    Peel(OperMode(ap.ess), f1);
    Peel(Essid(ap.ssid), ModePart(ap, f1));
    Peel(ApAddr(ap.bssid), [Essid(ap.ssid)] + ModePart(ap, f1));
  }

  lemma Peel(e: IwEvent, rest: seq<IwEvent>)
    ensures AllWritable([e] + rest) <==> Writable(e) && AllWritable(rest)
  {
    WritableCons([e] + rest);
    assert ([e] + rest)[1..] == rest;
  }

  ghost predicate AllReportable(aps: seq<AccessPoint>) { forall ap :: ap in aps ==> Reportable(ap) }

  lemma ReportableCons(aps: seq<AccessPoint>)
    requires aps != []
    ensures AllReportable(aps) <==> Reportable(aps[0]) && AllReportable(aps[1..])
  {
    assert aps == [aps[0]] + aps[1..];
  }

  lemma FullListStep(aps: seq<AccessPoint>, next: seq<IwEvent>)
    requires aps != [] && next == FullList(aps[1..])
    ensures AllWritable(FullList(aps)) <==> Reportable(aps[0]) && AllWritable(next)
  {
    EventsWritable(aps[0], next);
  }

  lemma {:induction false} FullListWritable(aps: seq<AccessPoint>)
    ensures AllWritable(FullList(aps)) <==> AllReportable(aps)
    decreases |aps|
  {
    if aps != [] {
      FullListWritable(aps[1..]);
      ReportableCons(aps);
      FullListStep(aps, FullList(aps[1..]));
    }
  }

  /** For any scan list and any buffer of size limit: what is written is an event-wise prefix of the
      full list, at most the last rates event shortened. The call succeeds exactly when every
      access point has a non-zero rate and elements of bearable size and the whole list is shorter
      than the buffer - and then every event and every non-zero rate of every access point is
      there. When it fails, nothing more could have been written. An access point without a non-zero
      rate is refused even when there is room. */
  lemma ScanResult(L: Layout, aps: seq<AccessPoint>, limit: int)
    ensures var d := Write(L, FullList(aps), 0, limit);
            && PrefixOf(d.emitted, FullList(aps))
            && (d.ok <==> aps == [] || (AllReportable(aps) && Total(L, FullList(aps)) < limit))
            && (d.ok ==> d.emitted == FullList(aps)) && (!d.ok ==> StuckAt(L, d, FullList(aps), limit))
            && d.used == Total(L, d.emitted) && (d.used > 0 ==> d.used < limit)
  {
    FullListShaped(aps);
    FullListWritable(aps);
    WriteOkExactly(L, FullList(aps), 0, limit);
    WriteIsPrefix(L, FullList(aps), 0, limit);
    WriteIsMaximal(L, FullList(aps), 0, limit);
    assert aps == [] <==> FullList(aps) == [];
  }

  /** Such a refusal happens, in a buffer of any size beyond what is to be written. */
  lemma RefusedWithRoom(L: Layout, spare: nat) returns (ap: AccessPoint, limit: nat)
    ensures limit == Total(L, FullList([ap])) + 1 + spare && !Write(L, FullList([ap]), 0, limit).ok
  {
    ap := AccessPoint([], [], true, false, true, 1, 0, false, [0, 128], 100, None, None);
    limit := Total(L, FullList([ap])) + 1 + spare;
    assert RateValues([0, 128]) == [] by {
      assert [0, 128][..1] == [0 as byte] && [0 as byte][..0] == [];
      assert RateValues([0]) == [];
    }
    assert ap in [ap];
    ScanResult(L, [ap], limit);
  }

  /** The rates of an access point: one value for each non-zero entry, in order. */
  lemma {:induction false} RatesComplete(rates: seq<byte>, i: nat)
    requires i < |rates| && rates[i] % 128 != 0
    ensures |RateValues(rates[..i])| < |RateValues(rates)|
    ensures RateValues(rates)[|RateValues(rates[..i])|] == (rates[i] % 128) as nat * 500000
    decreases |rates|
  {
    var n := |rates| - 1;
    if i < n {
      RatesComplete(rates[..n], i);
      assert rates[..n][..i] == rates[..i];
    }
  }
}
