/**
 Bytes as the wire sees them: little-endian integers and the hexadecimal text form
 of byte strings, with the round trips the packet codec rests on.
 */
module Bytes {
  import opened Basics

  type byte = x: int | 0 <= x < 256
  type u8 = byte
  type u32 = x: int | 0 <= x < 0x1_0000_0000
  type u64 = x: int | 0 <= x < 0x1_0000_0000_0000_0000

  // ---------------------------------------------------------------- little-endian integers

  function Pow256(k: nat): (r: nat)
    ensures r > 0
  {
    if k == 0 then 1 else 256 * Pow256(k - 1)
  }

  /** The low `k` bytes of `n`, least significant first (`put_u64_le`, `put_u32_le`). */
  function PutLe(n: nat, k: nat): (bs: seq<byte>)
    ensures |bs| == k
    decreases k
  {
    if k == 0 then [] else [n % 256] + PutLe(n / 256, k - 1)
  }

  /** The integer a little-endian byte string denotes (`get_u64_le`, `get_u32_le`). */
  function GetLe(bs: seq<byte>): (n: nat)
    ensures n < Pow256(|bs|)
  {
    if bs == [] then 0 else bs[0] + 256 * GetLe(bs[1..])
  }

  lemma {:induction false} GetPutLe(n: nat, k: nat)
    requires n < Pow256(k)
    ensures GetLe(PutLe(n, k)) == n
    decreases k
  {
    if k > 0 {
      GetPutLe(n / 256, k - 1);
      assert PutLe(n, k)[1..] == PutLe(n / 256, k - 1);
    }
  }

  lemma {:induction false} PutGetLe(bs: seq<byte>)
    ensures PutLe(GetLe(bs), |bs|) == bs
  {
    if bs != [] {
      PutGetLe(bs[1..]);
      assert GetLe(bs) / 256 == GetLe(bs[1..]);
    }
  }

  lemma WordSizes()
    ensures Pow256(4) == 0x1_0000_0000
    ensures Pow256(8) == 0x1_0000_0000_0000_0000
  {
    assert Pow256(4) == 256 * 256 * 256 * 256;
    assert Pow256(8) == 256 * 256 * 256 * 256 * Pow256(4);
  }

  // ---------------------------------------------------------------- hexadecimal text

  /** The lower-case digit of a value below sixteen. */
  function HexDigit(n: nat): (c: char)
    requires n < 16
  {
    if n < 10 then (n + '0' as int) as char else (n - 10 + 'a' as int) as char
  }

  /** The value of one hex digit, either case; `None` for any other character. */
  function HexVal(c: char): (r: Option<nat>)
    ensures r.Some? ==> r.value < 16
  {
    if '0' <= c <= '9' then Some(c as int - '0' as int)
    else if 'a' <= c <= 'f' then Some(c as int - 'a' as int + 10)
    else if 'A' <= c <= 'F' then Some(c as int - 'A' as int + 10)
    else None
  }

  /** The two lower-case digits of one byte. */
  function HexPair(b: byte): (s: string)
    ensures |s| == 2
  {
    [HexDigit(b / 16), HexDigit(b % 16)]
  }

  /** The byte two digits denote, if both are hex digits. */
  function PairVal(hi: char, lo: char): (r: Option<byte>) {
    match (HexVal(hi), HexVal(lo))
    case (Some(h), Some(l)) => Some(16 * h + l)
    case _ => None
  }

  /** Lower-case hex text of a byte string (`hex::encode`). */
  function HexEncode(bs: seq<byte>): (s: string)
    ensures |s| == 2 * |bs|
  {
    if bs == [] then "" else HexPair(bs[0]) + HexEncode(bs[1..])
  }

  /** Parse hex text of either case; odd lengths and foreign characters fail (`hex::decode`). */
  function HexDecode(s: string): (r: Option<seq<byte>>)
    ensures r.Some? ==> 2 * |r.value| == |s|
  {
    if s == "" then Some([])
    else if |s| == 1 || PairVal(s[0], s[1]).None? then None
    else
      match HexDecode(s[2..])
      case None => None
      case Some(rest) => Some([PairVal(s[0], s[1]).value] + rest)
  }

  predicate IsLowerHexDigit(c: char) {
    '0' <= c <= '9' || 'a' <= c <= 'f'
  }

  predicate IsLowerHex(s: string) {
    forall i :: 0 <= i < |s| ==> IsLowerHexDigit(s[i])
  }

  lemma HexDigitRoundTrip(n: nat)
    requires n < 16
    ensures HexVal(HexDigit(n)) == Some(n) && IsLowerHexDigit(HexDigit(n))
  {
  }

  lemma PairRoundTrip(b: byte)
    ensures PairVal(HexPair(b)[0], HexPair(b)[1]) == Some(b)
    ensures IsLowerHexDigit(HexPair(b)[0]) && IsLowerHexDigit(HexPair(b)[1])
  {
    HexDigitRoundTrip(b / 16);
    HexDigitRoundTrip(b % 16);
  }

  lemma LowerDigit(c: char)
    requires IsLowerHexDigit(c)
    ensures HexVal(c).Some? && HexDigit(HexVal(c).value) == c
  {
  }

  lemma SplitByte(h: nat, l: nat)
    requires h < 16 && l < 16
    ensures (16 * h + l) / 16 == h && (16 * h + l) % 16 == l
  {
  }

  lemma LowerPair(hi: char, lo: char)
    requires IsLowerHexDigit(hi) && IsLowerHexDigit(lo)
    ensures PairVal(hi, lo).Some? && HexPair(PairVal(hi, lo).value) == [hi, lo]
  {
    LowerDigit(hi);
    LowerDigit(lo);
    SplitByte(HexVal(hi).value, HexVal(lo).value);
  }

  lemma {:induction false} HexDecodeEncode(bs: seq<byte>)
    ensures HexDecode(HexEncode(bs)) == Some(bs)
    ensures IsLowerHex(HexEncode(bs))
  {
    if bs != [] {
      HexDecodeEncode(bs[1..]);
      PairRoundTrip(bs[0]);
      var s := HexEncode(bs);
      assert s[0] == HexPair(bs[0])[0] && s[1] == HexPair(bs[0])[1];
      assert s[2..] == HexEncode(bs[1..]);
      assert bs == [bs[0]] + bs[1..];
      assert forall i :: 2 <= i < |s| ==> s[i] == s[2..][i - 2];
    }
  }

  lemma {:induction false} HexEncodeDecode(s: string)
    requires IsLowerHex(s) && |s| % 2 == 0
    ensures HexDecode(s).Some? && HexEncode(HexDecode(s).value) == s
  {
    if s != "" {
      assert IsLowerHexDigit(s[0]) && IsLowerHexDigit(s[1]);
      assert IsLowerHex(s[2..]);
      HexEncodeDecode(s[2..]);
      LowerPair(s[0], s[1]);
      assert HexDecode(s).value[1..] == HexDecode(s[2..]).value;
      assert s == [s[0], s[1]] + s[2..];
    }
  }

  lemma {:induction false} HexEncodeConcat(a: seq<byte>, b: seq<byte>)
    ensures HexEncode(a + b) == HexEncode(a) + HexEncode(b)
  {
    if a == [] {
      assert a + b == b;
    } else {
      HexEncodeConcat(a[1..], b);
      assert (a + b)[1..] == a[1..] + b;
    }
  }

  function Zeros(n: nat): (bs: seq<byte>)
    ensures |bs| == n && forall i :: 0 <= i < n ==> bs[i] == 0
  {
    if n == 0 then [] else [0] + Zeros(n - 1)
  }

  function ZeroDigits(n: nat): (s: string)
    ensures |s| == n && forall i :: 0 <= i < n ==> s[i] == '0'
  {
    if n == 0 then "" else ['0'] + ZeroDigits(n - 1)
  }

  lemma {:induction false} HexOfZeros(n: nat)
    ensures HexEncode(Zeros(n)) == ZeroDigits(2 * n)
  {
    if n > 0 {
      HexOfZeros(n - 1);
      assert Zeros(n)[1..] == Zeros(n - 1);
      assert ZeroDigits(2 * n) == ['0', '0'] + ZeroDigits(2 * n - 2);
    }
  }
}
