/** Channels and frequencies in the WLAN driver's wireless extensions
    (driver_src/wlan/lwlan_ioctl.c). The 5 GHz channel formula is that of section 17.3.8.3.2 of
    IEEE Std 802.11-2007. */
module Frequency {
  import opened Options

  /** C division by a positive number: truncation toward zero. */
  function CDiv(a: int, b: int): int
    requires b > 0
  {
    if a >= 0 then a / b else -((-a) / b)
  }

  /** Conversion to a signed char. */
  function SChar(x: int): int { (x + 128) % 256 - 128 }

  function ChannelToFreq(c: int): int
  {
    if c > 15 then 5000 + 5 * c else if c == 14 then 2484 else 2407 + 5 * c
  }

  /** The result of the 2.4 GHz branch passes through an unsigned char. */
  function FreqToChannel(f: int): int
  {
    if f > 5000 then CDiv(f - 5000, 5)
    else if f == 2484 then 14
    else CDiv(f - 2407, 5) % 256
  }

  /** The conversion back inverts the conversion exactly on the non-negative channels. */
  lemma ChannelRoundTrip(c: int)
    ensures FreqToChannel(ChannelToFreq(c)) == c <==> c >= 0
  {
    if 0 <= c <= 15 && c != 14 { assert CDiv(5 * c, 5) == c; }
  }

  function Pow10(n: nat): (r: nat)
    ensures r > 0
  {
    if n == 0 then 1 else 10 * Pow10(n - 1)
  }

  /** How often the scaling loop divides by ten: its counter is a char, decremented before it is
      tested, so the smallest char wraps around to the largest. */
  function Rounds(e: int): nat
  {
    var x := SChar(6 - e);
    if x == -128 then 128 else if x > 0 then x else 0
  }

  /** The counter as an unsigned number: up to 128 it counts, above it is negative. */
  lemma RoundsAre(e: int)
    ensures Rounds(e) == if (6 - e) % 256 <= 128 then (6 - e) % 256 else 0
  {
  }

  lemma Division(a: nat, d: nat)
    requires d > 0
    ensures a == d * (a / d) + a % d && 0 <= a % d < d
  {
  }

  lemma Distributes(d: nat, x: nat, y: nat)
    ensures d * (x + y) == d * x + d * y
  {
  }

  lemma AtLeast(d: nat, k: nat)
    requires k > 0
    ensures d * k >= d
  {
    Distributes(d, 1, k - 1);
  }

  lemma UniqueQuotient(d: nat, q: nat, r: nat, q2: nat, r2: nat)
    requires d * q + r == d * q2 + r2 && r < d && r2 < d
    ensures q == q2
  {
    if q < q2 {
      Distributes(d, q, q2 - q);
      AtLeast(d, q2 - q);
    } else if q2 < q {
      Distributes(d, q2, q - q2);
      AtLeast(d, q - q2);
    }
  }

  lemma QuotientIs(a: nat, d: nat, q: nat, r: nat)
    requires d > 0 && a == d * q + r && r < d
    ensures a / d == q
  {
    Division(a, d);
    UniqueQuotient(d, q, r, a / d, a % d);
  }

  lemma Regroup(p: nat, q: nat, r: nat)
    ensures p * (10 * q + r) == (10 * p) * q + p * r
  {
  }

  lemma AtMost(p: nat, r: nat)
    requires r < 10
    ensures p * r <= 9 * p
  {
    Distributes(p, r, 9 - r);
  }

  lemma DivDiv(a: nat, p: nat)
    requires p > 0
    ensures a / p / 10 == a / (10 * p)
  {
    var q, r := a / p, a % p;
    Division(a, p);
    Regroup(p, q / 10, q % 10);
    AtMost(p, q % 10);
    QuotientIs(a, 10 * p, q / 10, p * (q % 10) + r);
  }

  lemma CDivOfNegative(x: nat)
    ensures CDiv(0 - x, 10) == 0 - x / 10
  {
  }

  lemma CDivBelowZero(b: nat, p: nat)
    requires b > 0 && p > 0
    ensures CDiv(0 - b, p) == 0 - b / p
  {
  }

  lemma CDivDivUp(a: nat, p: nat)
    requires p > 0
    ensures CDiv(CDiv(a, p), 10) == CDiv(a, 10 * p)
  {
    DivDiv(a, p);
    var x: nat := a / p;
  }

  lemma CDivDivDown(b: nat, p: nat, p': nat)
    requires b > 0 && p > 0 && p' == 10 * p
    ensures CDiv(CDiv(0 - b, p), 10) == CDiv(0 - b, p')
  {
    DivDiv(b, p);
    CDivBelowZero(b, p);
    CDivBelowZero(b, p');
    CDivOfNegative(b / p);
  }

  lemma CDivDiv(a: int, p: nat)
    requires p > 0
    ensures CDiv(CDiv(a, p), 10) == CDiv(a, 10 * p)
  {
    if a >= 0 { CDivDivUp(a, p); } else { CDivDivDown(0 - a, p, 10 * p); }
  }

  /** The outcome of SIOCSIWFREQ in ad-hoc mode: the channel selected, or None for -EINVAL. */
  function SetFreq(m: int, e: int): Option<int>
  {
    if e == 0 && 0 <= m <= 1000 then Some(m)
    else
      var f := CDiv(m, Pow10(Rounds(e)));
      if f <= 1000 then None else Some(FreqToChannel(f))
  }

  /** The scaling loop of _ioctl_iw_set_freq: repeated division is one division by a power of ten. */
  method ScaleDown(m: int, e: int) returns (freq: int)
    ensures freq == CDiv(m, Pow10(Rounds(e)))
  {
    freq := m;
    var expon := SChar(6 - e);
    expon := SChar(expon - 1);
    ghost var done := 0;
    while expon >= 0
      invariant -128 <= expon <= 127
      invariant expon >= 0 ==> done + expon + 1 == Rounds(e)
      invariant expon < 0 ==> done == Rounds(e)
      invariant freq == CDiv(m, Pow10(done))
    {
      CDivDiv(m, Pow10(done));
      freq := CDiv(freq, 10);
      done := done + 1;
      expon := SChar(expon - 1);
    }
  }

  /** The adapter's answer to a channel decides. */
  function Offered(c: int, setChannel: int -> int): FreqResult
  {
    if setChannel(c) == 0 then Selected(c) else Refused(c)
  }

  /** The exponents for which the loop's char counter does not wrap around. */
  predicate Scalable(e: int) { -121 <= e <= 133 }

  /** How many decimal places there are below a MHz. */
  function Down(e: int): nat { if e < 6 then 6 - e else 0 }

  /** f is m * 10^e in MHz, rounded down. */
  predicate InMHz(m: int, e: int, f: nat)
  {
    f * Pow10(Down(e)) <= m < (f + 1) * Pow10(Down(e))
  }

  /** f MHz lies on channel c or up to 4 MHz above. In the 2.4 GHz band channels are counted modulo 256. */
  predicate InBand(f: nat, c: nat)
  {
    if f > 5000 then 5000 + 5 * c <= f < 5005 + 5 * c
    else if f == 2484 then c == 14
    else if f >= 2407 then c < 256 && (f - 2407 - 5 * c) % 1280 < 5
    else c < 256 && (2407 - f + 5 * c) % 1280 < 5
  }

  lemma BandIsChannel(f: nat, c: nat)
    requires InBand(f, c)
    ensures FreqToChannel(f) == c
  {
    if 2407 <= f <= 5000 && f != 2484 { AboveBase(f - 2407, c); } else if f < 2407 { BelowBase(2407 - f, c); }
  }

  lemma AboveBase(x: nat, c: nat)
    requires c < 256 && (x - 5 * c) % 1280 < 5
    ensures CDiv(x, 5) % 256 == c
  {
    var j := (x - 5 * c) / 1280;
    assert x / 5 == c + 256 * j;
  }

  lemma BelowBase(x: nat, c: nat)
    requires c < 256 && (x + 5 * c) % 1280 < 5 && x > 0
    ensures CDiv(0 - x, 5) % 256 == c
  {
    var j := (x + 5 * c) / 1280;
    assert x / 5 == 256 * j - c;
  }

  /** Every channel's own frequency lies in its band. */
  lemma OwnBand(c: nat)
    ensures InBand(ChannelToFreq(c), c)
  {
  }

  lemma RoundedDown(m: int, e: int, f: nat)
    requires Scalable(e) && InMHz(m, e, f)
    ensures CDiv(m, Pow10(Rounds(e))) == f
  {
    var d := Pow10(Down(e));
    assert Rounds(e) == Down(e);
    QuotientIs(m, d, f, m - f * d);
  }

  lemma SelectsByFrequency(m: int, e: int, f: nat, c: nat)
    requires Scalable(e) && InMHz(m, e, f) && InBand(f, c) && f > 1000 && !(e == 0 && 0 <= m <= 1000)
    ensures SetFreq(m, e) == Some(c)
  {
    RoundedDown(m, e, f);
    BandIsChannel(f, c);
  }

  lemma ProductGrows(a: nat, b: nat, d: nat)
    requires a <= b
    ensures a * d <= b * d
  {
  }

  lemma QuotientBelow(m: nat, d: nat, k: nat)
    requires d > 0
    ensures m / d < k <==> m < k * d
  {
    var q := m / d;
    Division(m, d);
    if q < k { ProductGrows(q + 1, k, d); } else { ProductGrows(k, q, d); }
  }

  lemma QuotientBelowAny(m: int, d: nat)
    requires d > 0
    ensures CDiv(m, d) <= 1000 <==> m < 1001 * d
  {
    if m >= 0 { QuotientBelow(m, d, 1001); } else { CDivBelowZero(-m, d); }
  }

  lemma TooLowExactly(m: int, e: int)
    requires Scalable(e) && !(e == 0 && 0 <= m <= 1000)
    ensures SetFreq(m, e) == None <==> m < 1001 * Pow10(Down(e))
  {
    assert Rounds(e) == Down(e);
    QuotientBelowAny(m, Pow10(Down(e)));
  }

  /** The frequencies themselves: 2407 + 5c MHz up to channel 13, 2484 for 14, and 5 GHz + 5c above 15. */
  lemma Frequencies(c: nat)
    ensures ChannelToFreq(1) == 2412 && ChannelToFreq(6) == 2437 && ChannelToFreq(13) == 2472
    ensures ChannelToFreq(14) == 2484 && ChannelToFreq(36) == 5180 && ChannelToFreq(165) == 5825
    ensures c != 13 && c != 14 && c != 15 ==> ChannelToFreq(c + 1) == ChannelToFreq(c) + 5
  {
  }

  /** How SIOCSIWFREQ ends: -1, 0 without effect, -EINVAL, -EOPNOTSUPP for a channel the adapter
      refuses, or 0 with the channel set. */
  datatype FreqResult = NotWorking | NotAdHoc | Invalid | Refused(channel: int) | Selected(channel: int)

  /** _ioctl_iw_set_freq; setChannel is the adapter's answer to a channel, 0 if it takes it. Small numbers are
      channels; everything else is a frequency, rounded down to MHz, and too low below 1001 MHz. */
  method IwSetFreq(working: bool, adHoc: bool, m: int, e: int, setChannel: int -> int) returns (r: FreqResult)
    ensures r.NotWorking? <==> !working
    ensures r.NotAdHoc? <==> working && !adHoc
    ensures working && adHoc && e == 0 && 0 <= m <= 1000 ==> r == Offered(m, setChannel)
    ensures working && adHoc && !(e == 0 && 0 <= m <= 1000) && Scalable(e) ==>
              && (r.Invalid? <==> m < 1001 * Pow10(Down(e)))
              && (forall f: nat, c: nat :: f > 1000 && InMHz(m, e, f) && InBand(f, c) ==> r == Offered(c, setChannel))
    ensures working && adHoc ==>
              match SetFreq(m, e)
              case None => r == Invalid
              case Some(c) => r == Offered(c, setChannel)
  {
    if Scalable(e) && !(e == 0 && 0 <= m <= 1000) {
      TooLowExactly(m, e);
      forall f: nat, c: nat | f > 1000 && InMHz(m, e, f) && InBand(f, c) ensures SetFreq(m, e) == Some(c) {
        SelectsByFrequency(m, e, f, c);
      }
    }
    if !working { return NotWorking; }
    if !adHoc { return NotAdHoc; }
    var channel;
    if e == 0 && m >= 0 && m <= 1000 {
      channel := m;
    } else {
      var freq := ScaleDown(m, e);
      if freq <= 1000 { return Invalid; }
      channel := FreqToChannel(freq);
    }
    if setChannel(channel) != 0 { return Refused(channel); }
    return Selected(channel);
  }

  /** _ioctl_iw_get_freq: the mantissa it reports, with exponent 1. */
  function GetFreqMantissa(c: int): int { ChannelToFreq(c) * 100000 }

  /** (m, e) denotes the frequency of channel c: m * 10^e Hz equals the reported value. */
  predicate Denotes(m: int, e: int, c: int)
  {
    if e >= 0 then m * Pow10(e) == ChannelToFreq(c) * 1000000
    else m == ChannelToFreq(c) * 1000000 * Pow10(-e)
  }

  lemma TenTimes(x: nat, y: nat)
    ensures 10 * (x * y) == (10 * x) * y
  {
  }

  lemma {:induction false} PowSplit(a: nat, b: nat)
    ensures Pow10(a + b) == Pow10(a) * Pow10(b)
  {
    if a > 0 {
      PowSplit(a - 1, b);
      TenTimes(Pow10(a - 1), Pow10(b));
    }
  }

  lemma PowTable()
    ensures Pow10(1) == 10 && Pow10(2) == 100 && Pow10(3) == 1000
    ensures Pow10(4) == 10000 && Pow10(5) == 100000 && Pow10(6) == 1000000
  {
    assert Pow10(2) == 10 * Pow10(1) && Pow10(3) == 10 * Pow10(2) && Pow10(4) == 10 * Pow10(3)
        && Pow10(5) == 10 * Pow10(4) && Pow10(6) == 10 * Pow10(5);
  }

  lemma SmallExponent(m: int, e: int, c: int)
    requires 0 <= c < 256 && 1 <= e <= 6 && Denotes(m, e, c)
    ensures SetFreq(m, e) == Some(c)
  {
    PowTable();
    ChannelRoundTrip(c);
    var f := ChannelToFreq(c);
    if e == 1 { assert m == f * 100000; }
    else if e == 2 { assert m == f * 10000; }
    else if e == 3 { assert m == f * 1000; }
    else if e == 4 { assert m == f * 100; }
    else if e == 5 { assert m == f * 10; }
    assert Rounds(e) == 6 - e;
    assert m == f * Pow10(6 - e);
    QuotientIs(m, Pow10(6 - e), f, 0);
  }

  lemma CDivSmall(m: nat, d: nat)
    requires d > 0
    ensures m / d <= m
  {
    Division(m, d);
    if m / d > 0 { AtLeast(m / d, d); }
  }

  lemma Cofactor(m: int, p: nat, f: nat)
    requires m * p == f && p >= 10
    ensures 0 <= m && 10 * m <= f
  {
  }

  lemma LargeExponent(m: int, e: int, c: int)
    requires 0 <= c < 256 && 7 <= e && Denotes(m, e, c)
    ensures SetFreq(m, e) == None
  {
    PowTable();
    var f, p := ChannelToFreq(c), Pow10(e - 6);
    PowSplit(6, e - 6);
    assert m * (1000000 * p) == (m * p) * 1000000;
    assert p >= 10 by { assert p == 10 * Pow10(e - 7); }
    Cofactor(m, p, f);
    CDivSmall(m, Pow10(Rounds(e)));
  }

  lemma NoExponent(m: int, e: int, c: int)
    requires 0 <= c < 256 && e <= 0 && Denotes(m, e, c)
    ensures m >= 0x8000_0000
  {
    var f := ChannelToFreq(c);
    assert f >= 2407;
    if e < 0 { assert f * 1000000 * Pow10(-e) >= f * 1000000; }
  }

  /** Every way a 32-bit mantissa and an exponent can denote the frequency the driver reports
      for a channel selects that channel again - the driver's own encoding among them - except
      exponents above 6, which are all refused. */
  lemma FrequencyRoundTrip(m: int, e: int, c: int)
    requires 0 <= c < 256 && -0x8000_0000 <= m < 0x8000_0000 && Denotes(m, e, c)
    ensures SetFreq(m, e) == if e <= 6 then Some(c) else None
  {
    if e <= 0 { NoExponent(m, e, c); } else if e <= 6 { SmallExponent(m, e, c); } else { LargeExponent(m, e, c); }
  }

  /** Such a refusal happens: channel 36 is 518 * 10^7 Hz. */
  lemma RefusedEncoding()
    ensures Denotes(518, 7, 36) && SetFreq(518, 7) == None
  {
    PowTable();
    assert Pow10(7) == 10000000 && Pow10(0) == 1;
  }

  lemma DriverEncoding(c: int)
    requires 0 <= c < 256
    ensures Denotes(GetFreqMantissa(c), 1, c) && GetFreqMantissa(c) < 0x8000_0000
    ensures SetFreq(GetFreqMantissa(c), 1) == Some(c)
  {
    PowTable();
    FrequencyRoundTrip(GetFreqMantissa(c), 1, c);
  }
}
