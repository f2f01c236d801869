/** Hexadecimal text: the information-element encoder and the key decoder of the WLAN driver
    (driver_src/wlan/lwlan_ioctl.c) and the number parsers of the command-line tool
    (applications/uwbtool/main.c). Characters are bytes. */
module HexCodec {

  type byte = x: int | 0 <= x < 256

  predicate IsHex(c: byte) { 48 <= c <= 57 || 65 <= c <= 70 || 97 <= c <= 102 }

  function HexVal(c: byte): (v: nat)
    requires IsHex(c)
    ensures v < 16
  {
    if c <= 57 then c - 48 else if c <= 70 then c - 65 + 10 else c - 97 + 10
  }

  /** The characters that are digits, and what they are worth. */
  lemma DigitsAre(c: byte)
    ensures IsHex(c) <==> exists v :: 0 <= v < 16 && IsDigitFor(c, v)
    ensures forall v :: 0 <= v < 16 && IsDigitFor(c, v) ==> IsHex(c) && HexVal(c) == v
  {
    if IsHex(c) { assert IsDigitFor(c, HexVal(c)); }
  }

  predicate IsDigitFor(c: byte, v: nat)
    requires v < 16
  {
    c == "0123456789abcdef"[v] as int || c == "0123456789ABCDEF"[v] as int
  }

  /** A lower-case digit, as %x prints it. */
  function HexDigit(v: nat): (c: byte)
    requires v < 16
    ensures IsHex(c) && HexVal(c) == v
  {
    if v < 10 then 48 + v else 97 + v - 10
  }

  predicate AllHex(s: seq<byte>) { forall k :: 0 <= k < |s| ==> IsHex(s[k]) }

  /** What sprintf("%02x") writes for each byte in turn. */
  function HexString(b: seq<byte>): (s: seq<byte>)
    ensures |s| == 2 * |b|
  {
    if b == [] then [] else HexString(b[..|b| - 1]) + [HexDigit(b[|b| - 1] / 16), HexDigit(b[|b| - 1] % 16)]
  }

  function PairValue(s: seq<byte>, i: nat): (v: byte)
    requires 2 * i + 1 < |s| && IsHex(s[2 * i]) && IsHex(s[2 * i + 1])
  {
    16 * HexVal(s[2 * i]) + HexVal(s[2 * i + 1])
  }

  /** The bytes that the first n pairs of digits stand for. */
  function Decoded(s: seq<byte>, n: nat): (b: seq<byte>)
    requires 2 * n <= |s| && AllHex(s[..2 * n])
    ensures |b| == n
  {
    if n == 0 then []
    else
      assert forall k :: 0 <= k < 2 * n ==> s[k] == s[..2 * n][k];
      assert s[..2 * (n - 1)] == s[..2 * n][..2 * (n - 1)];
      Decoded(s, n - 1) + [PairValue(s, n - 1)]
  }

  lemma {:induction false} HexStringIsHex(b: seq<byte>)
    ensures AllHex(HexString(b))
  {
    if b != [] { HexStringIsHex(b[..|b| - 1]); }
  }

  lemma {:induction false} DecodedPrefix(s: seq<byte>, t: seq<byte>, n: nat)
    requires 2 * n <= |s| && AllHex(s[..2 * n])
    ensures AllHex((s + t)[..2 * n]) && Decoded(s + t, n) == Decoded(s, n)
  {
    assert (s + t)[..2 * n] == s[..2 * n];
    if n > 0 {
      assert s[..2 * (n - 1)] == s[..2 * n][..2 * (n - 1)];
      DecodedPrefix(s, t, n - 1);
      assert s[2 * n - 2] == s[..2 * n][2 * n - 2] && s[2 * n - 1] == s[..2 * n][2 * n - 1];
    }
  }

  /** Decoding what was encoded gives the bytes back. */
  lemma {:induction false} HexRoundTrip(b: seq<byte>)
    ensures AllHex(HexString(b)[..2 * |b|]) && Decoded(HexString(b), |b|) == b
  {
    HexStringIsHex(b);
    if b != [] {
      var n := |b| - 1;
      HexRoundTrip(b[..n]);
      var front, tail := HexString(b[..n]), [HexDigit(b[n] / 16), HexDigit(b[n] % 16)];
      DecodedPrefix(front, tail, n);
      assert (front + tail)[2 * n] == tail[0] && (front + tail)[2 * n + 1] == tail[1];
      assert PairValue(front + tail, n) == b[n];
      assert b == b[..n] + [b[n]];
    }
  }

  /** encode_ie fits: the leader fits, and so do two digits a byte with a NUL to spare. */
  predicate Fits(bufsize: nat, ie: seq<byte>, leader: seq<byte>)
  {
    |leader| <= bufsize && (ie == [] || |leader| + 2 * |ie| < bufsize)
  }

  /** sprintf(p, "%02x", v): two digits and a NUL. */
  method SprintHex(buf: array<byte>, p: nat, v: byte)
    requires p + 2 < buf.Length
    modifies buf
    ensures buf[..] == old(buf[..p]) + [HexDigit(v / 16), HexDigit(v % 16), 0] + old(buf[p + 3..])
  {
    buf[p] := HexDigit(v / 16);
    buf[p + 1] := HexDigit(v % 16);
    buf[p + 2] := 0;
  }

  /** tdsp_memcpy of a whole string to the start of the buffer. */
  method CopyIn(buf: array<byte>, src: seq<byte>)
    requires |src| <= buf.Length
    modifies buf
    ensures buf[..|src|] == src && buf[|src|..] == old(buf[|src|..])
  {
    for k := 0 to |src|
      invariant buf[..k] == src[..k] && buf[|src|..] == old(buf[|src|..])
    {
      buf[k] := src[k];
    }
  }

  /** encode_ie: all or nothing. It returns the length written when everything fits and 0
      otherwise, and touches nothing beyond bufsize in either case. A non-empty element is
      encoded exactly when leader and digits leave room for the NUL. */
  method EncodeIe(buf: array<byte>, bufsize: nat, ie: seq<byte>, leader: seq<byte>) returns (n: nat)
    requires bufsize <= buf.Length
    modifies buf
    ensures Fits(bufsize, ie, leader) ==>
              && n == |leader| + 2 * |ie| <= bufsize
              && buf[..n] == leader + HexString(ie)
              && (ie != [] ==> n < bufsize && buf[n] == 0)
    ensures !Fits(bufsize, ie, leader) ==> n == 0
    ensures ie != [] ==> (n != 0 <==> |leader| + 2 * |ie| < bufsize)
    ensures buf[bufsize..] == old(buf[bufsize..])
  {
    if bufsize < |leader| { return 0; }
    CopyIn(buf, leader);
    var room := bufsize - |leader|;
    var p := |leader|;
    var i := 0;
    while i < |ie| && room > 2
      invariant i <= |ie| && p == |leader| + 2 * i && room == bufsize - p && p <= bufsize
      invariant 0 < i ==> p < bufsize && buf[p] == 0
      invariant buf[..p] == leader + HexString(ie[..i])
      invariant buf[bufsize..] == old(buf[bufsize..])
    {
      ghost var before := buf[..];
      SprintHex(buf, p, ie[i]);
      assert ie[..i + 1][..i] == ie[..i];
      assert buf[..p + 2] == before[..p] + [HexDigit(ie[i] / 16), HexDigit(ie[i] % 16)];
      assert buf[bufsize..] == before[bufsize..];
      p := p + 2;
      room := room - 2;
      i := i + 1;
    }
    assert ie[..|ie|] == ie;
    n := if i == |ie| then p else 0;
  }

  /** The number of leading pairs of hexadecimal digits, at most n. */
  function GoodPairs(s: seq<byte>, n: nat): (k: nat)
    ensures k <= n && 2 * k <= |s| && AllHex(s[..2 * k])
    ensures k < n ==> |s| < 2 * k + 2 || !IsHex(s[2 * k]) || !IsHex(s[2 * k + 1])
    decreases n
  {
    if n == 0 then 0
    else
      var k := GoodPairs(s, n - 1);
      if k == n - 1 && 2 * n <= |s| && IsHex(s[2 * n - 2]) && IsHex(s[2 * n - 1]) then
        assert forall j :: 0 <= j < 2 * n ==> s[..2 * n][j] == if j < 2 * k then s[..2 * k][j] else s[j];
        n
      else k
  }

  /** The characters the decoder may look at: enough of them, or a NUL among them to stop it. */
  predicate Readable(s: seq<byte>, n: nat) { 2 * n <= |s| || 0 in s }

  lemma ReadableAt(s: seq<byte>, n: nat, k: nat)
    requires Readable(s, n) && k < 2 * n && k <= |s| && AllHex(s[..k])
    ensures k < |s|
  {
    assert forall j :: 0 <= j < k ==> s[j] == s[..k][j];
  }

  /** The decoder's reading of one character. */
  method ReadDigit(c: byte) returns (good: bool, v: nat)
    ensures good == IsHex(c) && (good ==> v == HexVal(c))
  {
    good, v := true, 0;
    if 48 <= c <= 57 { v := c - 48; }
    else if 97 <= c <= 102 { v := c - 97 + 10; }
    else if 65 <= c <= 70 { v := c - 65 + 10; }
    else { good := false; }
  }

  lemma OneMorePair(s: seq<byte>, i: nat)
    requires 2 * i + 2 <= |s| && AllHex(s[..2 * i]) && IsHex(s[2 * i]) && IsHex(s[2 * i + 1])
    ensures AllHex(s[..2 * i + 1]) && AllHex(s[..2 * (i + 1)])
    ensures Decoded(s, i + 1) == Decoded(s, i) + [PairValue(s, i)]
  {
    assert s[..2 * i + 1] == s[..2 * i] + [s[2 * i]];
    assert s[..2 * (i + 1)] == s[..2 * i] + [s[2 * i], s[2 * i + 1]];
  }

  /** One round of the decoder: two characters read, the second only after a good first one. */
  method DecodePair(s: seq<byte>, n: nat, i: nat) returns (good: bool, v: byte)
    requires Readable(s, n) && i < n && 2 * i <= |s| && AllHex(s[..2 * i])
    ensures good <==> 2 * i + 2 <= |s| && IsHex(s[2 * i]) && IsHex(s[2 * i + 1])
    ensures good ==> v == PairValue(s, i)
  {
    v := 0;
    ReadableAt(s, n, 2 * i);
    var high, low;
    good, high := ReadDigit(s[2 * i]);
    if !good { return; }
    assert s[..2 * i + 1] == s[..2 * i] + [s[2 * i]];
    ReadableAt(s, n, 2 * i + 1);
    good, low := ReadDigit(s[2 * i + 1]);
    if !good { return; }
    v := (16 * high + low) % 256;
  }

  method StoreNext(out: array<byte>, i: nat, v: byte)
    requires i < out.Length
    modifies out
    ensures out[..i + 1] == old(out[..i]) + [v] && out[i + 1..] == old(out[i..])[1..]
  {
    out[i] := v;
  }

  /** _ioctl_key_string2hex: 1 exactly when n pairs of digits are there; the bytes of the good
      pairs are stored, and nothing else. */
  method KeyString2Hex(s: seq<byte>, out: array<byte>, n: nat) returns (ret: int)
    requires n <= out.Length && Readable(s, n)
    modifies out
    ensures ret == if GoodPairs(s, n) == n then 1 else 0
    ensures out[..] == Decoded(s, GoodPairs(s, n)) + old(out[GoodPairs(s, n)..])
  {
    if n == 0 { return 1; }
    var i := 0;
    while i < n
      invariant i <= n && 2 * i <= |s| && AllHex(s[..2 * i])
      invariant out[..i] == Decoded(s, i) && out[i..] == old(out[i..])
    {
      var good, v := DecodePair(s, n, i);
      if !good { break; }
      OneMorePair(s, i);
      StoreNext(out, i, v);
      i := i + 1;
    }
    GoodPairsIs(s, n, i);
    assert out[..] == out[..i] + out[i..];
    ret := if i == n then 1 else 0;
  }

  lemma GoodPairsIs(s: seq<byte>, n: nat, i: nat)
    requires i <= n && 2 * i <= |s| && AllHex(s[..2 * i])
    requires i < n ==> |s| < 2 * i + 2 || !IsHex(s[2 * i]) || !IsHex(s[2 * i + 1])
    ensures GoodPairs(s, n) == i
  {
    assert forall j :: 0 <= j < 2 * i ==> s[j] == s[..2 * i][j];
    var k := GoodPairs(s, n);
    assert forall j :: 0 <= j < 2 * k ==> s[j] == s[..2 * k][j];
  }

  /** The decoder, applied after the leader of what the encoder wrote, answers 1 and gives back
      exactly the encoded bytes. */
  lemma EncodeThenDecode(text: seq<byte>, ie: seq<byte>, leader: seq<byte>)
    requires |leader| + 2 * |ie| <= |text| && text[..|leader| + 2 * |ie|] == leader + HexString(ie)
    ensures var rest := text[|leader|..];
            Readable(rest, |ie|) && GoodPairs(rest, |ie|) == |ie| && Decoded(rest, |ie|) == ie
  {
    var h := HexString(ie);
    SuffixAfter(text, leader, h);
    DecodesBefore(ie, text[|leader|..][|h|..]);
  }

  lemma DecodesBefore(b: seq<byte>, t: seq<byte>)
    ensures var s := HexString(b) + t;
            Readable(s, |b|) && GoodPairs(s, |b|) == |b| && Decoded(s, |b|) == b
  {
    HexRoundTrip(b);
    DecodedPrefix(HexString(b), t, |b|);
    GoodPairsIs(HexString(b) + t, |b|, |b|);
  }

  lemma SuffixAfter(text: seq<byte>, leader: seq<byte>, h: seq<byte>)
    requires |leader| + |h| <= |text| && text[..|leader| + |h|] == leader + h
    ensures text[|leader|..] == h + text[|leader|..][|h|..]
  {
    var rest := text[|leader|..];
    forall k | 0 <= k < |h| ensures rest[k] == h[k] {
      assert text[..|leader| + |h|][|leader| + k] == h[k];
    }
  }

  // ---------- numbers ----------

  function Pow16(n: nat): (r: nat)
    ensures r > 0
  {
    if n == 0 then 1 else 16 * Pow16(n - 1)
  }

  /** The base-16 value, most significant digit first. */
  function HexValue(s: seq<byte>): nat
    requires AllHex(s)
  {
    if s == [] then 0 else 16 * HexValue(s[..|s| - 1]) + HexVal(s[|s| - 1])
  }

  /** The sum the parser has after i digits of s. */
  function PowerSum(s: seq<byte>, i: nat): nat
    requires i <= |s| && AllHex(s[..i])
  {
    if i == 0 then 0
    else
      assert s[i - 1] == s[..i][i - 1] && s[..i - 1] == s[..i][..i - 1];
      PowerSum(s, i - 1) + HexVal(s[i - 1]) * Pow16(|s| - i)
  }

  lemma HornerStep(v: nat, d: nat, p: nat)
    ensures v * (16 * p) + d * p == (16 * v + d) * p
  {
  }

  /** The power sum of the first i digits is their value, shifted past the remaining digits. */
  lemma {:induction false} PowerSumIsValue(s: seq<byte>, i: nat)
    requires i <= |s| && AllHex(s[..i])
    ensures PowerSum(s, i) == HexValue(s[..i]) * Pow16(|s| - i)
  {
    if i > 0 {
      assert s[..i][..i - 1] == s[..i - 1];
      PowerSumIsValue(s, i - 1);
      assert Pow16(|s| - (i - 1)) == 16 * Pow16(|s| - i);
      HornerStep(HexValue(s[..i - 1]), HexVal(s[i - 1]), Pow16(|s| - i));
    }
  }

  lemma {:induction false} PowerSumGrows(s: seq<byte>, i: nat, j: nat)
    requires i <= j <= |s| && AllHex(s[..j])
    ensures AllHex(s[..i]) && PowerSum(s, i) <= PowerSum(s, j)
    decreases j - i
  {
    assert s[..i] == s[..j][..i];
    if i < j {
      assert s[..j - 1] == s[..j][..j - 1];
      PowerSumGrows(s, i, j - 1);
      assert HexVal(s[..j][j - 1]) * Pow16(|s| - j) >= 0;
    }
  }

  /** When the value fits an int, so does every term and every partial sum: nothing overflows on
      the way. */
  lemma NoOverflow(s: seq<byte>, i: nat)
    requires i < |s| && AllHex(s)
    ensures AllHex(s[..i]) && AllHex(s[..i + 1])
    ensures HexVal(s[i]) * Pow16(|s| - i - 1) <= PowerSum(s, i + 1) <= HexValue(s)
  {
    assert s[..|s|] == s;
    assert s[..i + 1][..i] == s[..i];
    PowerSumGrows(s, i + 1, |s|);
    PowerSumIsValue(s, |s|);
    PowerSumGrows(s, 0, i);
  }

  /** toupper, and the offset from '0' or 'A'. */
  method Digit(c: byte) returns (v: nat)
    requires IsHex(c)
    ensures v == HexVal(c)
  {
    v := if 97 <= c <= 122 then c - 32 else c;
    if v >= 65 { v := v - 65 + 10; } else { v := v - 48; }
  }

  /** hexstr2intnum: a power sum, one digit at a time, TRUE exactly for all-hex input. */
  method HexStr2Int(src: seq<byte>) returns (ok: bool, num: nat)
    ensures ok <==> AllHex(src)
    ensures ok ==> num == HexValue(src)
  {
    num := 0;
    var i := 0;
    while i < |src|
      invariant i <= |src| && AllHex(src[..i]) && num == PowerSum(src, i)
    {
      if !IsHex(src[i]) { return false, num; }
      var v := Digit(src[i]);
      assert src[..i + 1] == src[..i] + [src[i]];
      num := num + v * Pow16(|src| - i - 1);
      i := i + 1;
    }
    assert src[..|src|] == src;
    PowerSumIsValue(src, |src|);
    ok := true;
  }

  /** Two digits mean the same byte to both parsers. */
  lemma ParsersAgree(s: seq<byte>)
    requires |s| == 2 && AllHex(s)
    ensures HexValue(s) == PairValue(s, 0) && GoodPairs(s, 1) == 1 && Decoded(s, 1) == [HexValue(s) as byte]
  {
    assert s[..1] == [s[0]] && s[..1][..0] == [];
    assert HexValue([s[0]]) == HexVal(s[0]);
    GoodPairsIs(s, 1, 1);
  }

  /** One pair of digits, parsed and stored. */
  method StorePair(text: seq<byte>, k: nat, length: nat, buf: array<byte>)
    requires 2 * k + 2 <= |text| == length && length / 2 < buf.Length
    requires AllHex(text[..2 * k]) && IsHex(text[2 * k]) && IsHex(text[2 * k + 1])
    requires buf[..k] == Decoded(text, k)
    modifies buf
    ensures AllHex(text[..2 * k + 2]) && buf[..k + 1] == Decoded(text, k + 1)
    ensures buf[length / 2 + 1..] == old(buf[length / 2 + 1..])
  {
    var pair := [text[2 * k], text[2 * k + 1]];
    var good, num := HexStr2Int(pair);
    ParsersAgree(pair);
    OneMorePair(text, k);
    StoreNext(buf, k, num % 256);
  }

  /** get_eeprom_data_2write: accepts exactly all-hex strings of the right, even, length, and
      stores their bytes with a zero behind them. text is the string without its NUL. */
  method GetEepromData(text: seq<byte>, length: nat, buf: array<byte>) returns (ok: bool)
    requires 0 !in text && length / 2 < buf.Length
    modifies buf
    ensures ok <==> |text| == length && length % 2 == 0 && AllHex(text)
    ensures ok ==> AllHex(text[..length]) && buf[..length / 2] == Decoded(text, length / 2) && buf[length / 2] == 0
    ensures buf[length / 2 + 1..] == old(buf[length / 2 + 1..])
  {
    if |text| != length { return false; }
    var cstr := text + [0];
    var i := 0;
    while i < length
      invariant i <= length + 1 && i % 2 == 0 && i <= |text| && AllHex(text[..i])
      invariant buf[..i / 2] == Decoded(text, i / 2)
      invariant buf[length / 2 + 1..] == old(buf[length / 2 + 1..])
    {
      if !IsHex(cstr[i]) { return false; }
      if !IsHex(cstr[i + 1]) { return false; }
      StorePair(text, i / 2, length, buf);
      i := i + 2;
    }
    buf[i / 2] := 0;
    assert text[..length] == text;
    ok := true;
  }

  // ---------- the version word ----------

  /** The bytes of a 32-bit word, most significant first. */
  function BytesOf(w: nat): (b: seq<byte>)
    requires w < 0x1_0000_0000
    ensures |b| == 4
  {
    [w / 0x100_0000, w / 0x1_0000 % 0x100, w / 0x100 % 0x100, w % 0x100]
  }

  /** Each pair of printed digits is parsed back to its byte. */
  lemma {:induction false} PairOfHexString(b: seq<byte>, i: nat)
    requires i < |b|
    ensures var s := HexString(b)[2 * i..2 * i + 2];
            AllHex(s) && HexValue(s) == b[i]
  {
    var n := |b| - 1;
    if i < n {
      PairOfHexString(b[..n], i);
      assert HexString(b)[2 * i..2 * i + 2] == HexString(b[..n])[2 * i..2 * i + 2];
    } else {
      var s := [HexDigit(b[n] / 16), HexDigit(b[n] % 16)];
      assert HexString(b)[2 * n..2 * n + 2] == s;
      assert s[0] == HexDigit(b[n] / 16) && s[1] == HexDigit(b[n] % 16);
      ParsersAgree(s);
    }
  }

  lemma BytesRecombine(w: nat)
    requires w < 0x1_0000_0000
    ensures var b := BytesOf(w); (((b[0] as int) * 256 + b[1]) * 256 + b[2]) * 256 + b[3] == w
  {
    var x := w / 0x100;
    var y := x / 0x100;
    assert w / 0x1_0000 == y && w / 0x100_0000 == y / 0x100;
    assert y == 256 * (y / 0x100) + y % 0x100 && x == 256 * y + x % 0x100 && w == 256 * x + w % 0x100;
  }

  /** The version split of update_ver_string: the board type, major, test type and minor fields
      of the word as %08x prints it, which is the HexString of its four bytes. They are the word. */
  method SplitVersion(w: nat) returns (board: nat, major: nat, test: nat, minor: nat)
    requires w < 0x1_0000_0000
    ensures board < 256 && major < 256 && test < 256 && minor < 256
    ensures ((board * 256 + major) * 256 + test) * 256 + minor == w
  {
    var b := BytesOf(w);
    var text := HexString(b);
    var ok;
    PairOfHexString(b, 0);
    ok, board := HexStr2Int(text[0..2]);
    PairOfHexString(b, 1);
    ok, major := HexStr2Int(text[2..4]);
    PairOfHexString(b, 2);
    ok, test := HexStr2Int(text[4..6]);
    PairOfHexString(b, 3);
    ok, minor := HexStr2Int(text[6..8]);
    BytesRecombine(w);
  }
}
