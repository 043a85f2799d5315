/** Wire primitives: big-endian integers, length-prefixed strings and variable byte
    integers, each with the parser that undoes it. */
module Wire {
  import opened Bytes

  const MAX_REMAINING := 268435455

  // ----- fixed-width integers -------------------------------------------------

  function U16(n: nat): (b: seq<Byte>)
    requires n < 65536
    ensures |b| == 2
  {
    [(n / 256) as Byte, (n % 256) as Byte]
  }

  function U32(n: nat): (b: seq<Byte>)
    requires n < 0x1_0000_0000
    ensures |b| == 4
  {
    [(n / 0x100_0000) as Byte, (n / 0x1_0000 % 256) as Byte, (n / 256 % 256) as Byte, (n % 256) as Byte]
  }

  function FromU16(b: seq<Byte>): (n: nat)
    requires |b| == 2
    ensures n < 65536
  {
    b[0] as int * 256 + b[1] as int
  }

  function FromU32(b: seq<Byte>): (n: nat)
    requires |b| == 4
    ensures n < 0x1_0000_0000
  {
    b[0] as int * 0x100_0000 + b[1] as int * 0x1_0000 + b[2] as int * 256 + b[3] as int
  }

  lemma U16RoundTrip(n: nat)
    requires n < 65536
    ensures FromU16(U16(n)) == n
    ensures U16(n)[0] as int * 256 + U16(n)[1] as int == n
  {
  }

  lemma U32RoundTrip(n: nat)
    requires n < 0x1_0000_0000
    ensures FromU32(U32(n)) == n
    ensures U32(n)[0] as int * 0x100_0000 + U32(n)[1] as int * 0x1_0000 + U32(n)[2] as int * 0x100 + U32(n)[3] as int == n
  {
    var q := n / 256;
    assert n == q * 256 + n % 256 && q == (q / 256) * 256 + q % 256;
    assert n / 0x1_0000 == q / 256 && n / 0x100_0000 == q / 256 / 256;
  }

  /** `appendString`: two length bytes and the text, cut to what they can count. */
  function Str(s: Text): (b: seq<Byte>)
    ensures |b| == 2 + (if |s| > 65535 then 65535 else |s|)
  {
    var t := if |s| > 65535 then s[..65535] else s;
    U16(|t|) + t
  }

  // ----- variable byte integers -----------------------------------------------

  function Pow128(k: nat): (p: nat)
    ensures p > 0
  {
    if k == 0 then 1 else 128 * Pow128(k - 1)
  }

  lemma Pow128Small()
    ensures Pow128(1) == 128 && Pow128(2) == 16384 && Pow128(3) == 2097152 && Pow128(4) == 268435456
  {
  }

  /** The base-128 digits, low first, each but the last with its top bit set. */
  function VarInt(n: nat): (b: seq<Byte>)
    ensures |b| > 0
  {
    if n < 128 then [n as Byte] else [(n % 128 + 128) as Byte] + VarInt(n / 128)
  }

  lemma {:induction false} VarIntLength(n: nat, k: nat)
    requires k > 0
    ensures |VarInt(n)| <= k <==> n < Pow128(k)
  {
    if n < 128 {
      assert Pow128(k) == 128 * Pow128(k - 1) && Pow128(k - 1) >= 1;
    } else if k == 1 {
      assert Pow128(1) == 128 * Pow128(0);
    } else {
      VarIntLength(n / 128, k - 1);
      assert n == 128 * (n / 128) + n % 128;
    }
  }

  /** Section 1.5.5 of MQTT 5.0: at most `left` bytes; the value and how many were used. */
  function ParseVarInt(b: seq<Byte>, left: nat): (r: Result<(nat, nat)>)
    ensures r.Ok? ==> 1 <= r.value.1 <= left && r.value.1 <= |b|
    ensures r.Ok? ==> r.value.0 < Pow128(left)
  {
    if left == 0 then Err(InvalidVarInt)
    else if b == [] then Err(Malformed)
    else if b[0] < 128 then
      assert Pow128(left) == 128 * Pow128(left - 1);
      Ok((b[0] as int, 1))
    else
      var rest :- ParseVarInt(b[1..], left - 1);
      Ok((b[0] as int - 128 + 128 * rest.0, rest.1 + 1))
  }

  lemma {:induction false} VarIntRoundTrip(n: nat, rest: seq<Byte>, left: nat)
    requires left > 0 && n < Pow128(left)
    ensures ParseVarInt(VarInt(n) + rest, left) == Ok((n, |VarInt(n)|))
  {
    if n >= 128 {
      assert n == 128 * (n / 128) + n % 128;
      VarIntRoundTrip(n / 128, rest, left - 1);
      assert (VarInt(n) + rest)[1..] == VarInt(n / 128) + rest;
    }
  }

  function AddDigit(val: nat, digit: nat, mult: nat): nat
  {
    val + digit % 128 * mult
  }

  /** The digit loop as the decoders run it: a running value and the weight of the next digit. */
  function ScanVarInt(b: seq<Byte>, left: nat, val: nat, mult: nat): Result<(nat, nat)>
  {
    if left == 0 then Err(InvalidVarInt)
    else if b == [] then Err(Malformed)
    else
      var sum := AddDigit(val, b[0] as int, mult);
      if b[0] < 128 then Ok((sum, 1)) else Used(1, ScanVarInt(b[1..], left - 1, sum, mult * 128))
  }

  /** Counts `i` more bytes as used. */
  function Used(i: nat, r: Result<(nat, nat)>): Result<(nat, nat)>
  {
    if r.Ok? then Ok((r.value.0, i + r.value.1)) else r
  }

  lemma {:induction false} ScanIsParse(b: seq<Byte>, left: nat, val: nat, mult: nat)
    ensures match ParseVarInt(b, left)
            case Ok((v, n)) => ScanVarInt(b, left, val, mult) == Ok((val + mult * v, n))
            case Err(e) => ScanVarInt(b, left, val, mult) == Err(e)
  {
    if left > 0 && b != [] {
      var d := b[0] as int;
      if d >= 128 {
        ScanIsParse(b[1..], left - 1, AddDigit(val, d, mult), mult * 128);
        if ParseVarInt(b[1..], left - 1).Ok? {
          HighDigit(val, mult, d, ParseVarInt(b[1..], left - 1).value.0);
        }
      }
    }
  }

  lemma HighDigit(val: nat, mult: nat, d: nat, v: nat)
    requires 128 <= d < 256
    ensures AddDigit(val, d, mult) + (mult * 128) * v == val + mult * (d - 128 + 128 * v)
  {
    var e := d - 128;
    assert d % 128 == e;
    assert mult * (e + 128 * v) == mult * e + mult * (128 * v);
    assert mult * (128 * v) == (mult * 128) * v;
    assert mult * e == e * mult;
  }

  /** The digit loop of `encodeVarInt`, writing into the caller's buffer. */
  method EncodeVarInt(dst: array<Byte>, n: nat) returns (i: nat)
    requires |VarInt(n)| <= dst.Length
    modifies dst
    ensures i == |VarInt(n)| && dst[..i] == VarInt(n)
  {
    i := 0;
    var rest := n;
    while true
      invariant i + |VarInt(rest)| == |VarInt(n)|
      invariant dst[..i] + VarInt(rest) == VarInt(n)
      decreases rest
    {
      var digit := rest % 128;
      ghost var before := dst[..i];
      ghost var whole := VarInt(rest);
      rest := rest / 128;
      if rest > 0 { digit := digit + 128; }
      dst[i] := digit as Byte;
      assert dst[..i + 1] == before + [digit as Byte];
      i := i + 1;
      if rest == 0 {
        assert whole == [digit as Byte];
        break;
      }
      assert whole == [digit as Byte] + VarInt(rest);
      assert before + ([digit as Byte] + VarInt(rest)) == dst[..i] + VarInt(rest);
    }
  }
}
