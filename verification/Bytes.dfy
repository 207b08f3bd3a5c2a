/** Little-endian integers, as every writer and reader of the repository encodes them. */
module Bytes {
  import opened Widths
  import opened Powers

  type Byte = u8

  /** The n low bytes of v, lowest first. */
  function LE(v: nat, n: nat): (r: seq<Byte>)
    ensures |r| == n
  {
    if n == 0 then [] else [v % 256] + LE(v / 256, n - 1)
  }

  /** The number a little-endian byte string denotes. */
  function Value(s: seq<Byte>): (v: nat)
    ensures v < Pow(256, |s|)
  {
    if s == [] then 0
    else
      assert Pow(256, |s|) == 256 * Pow(256, |s| - 1);
      s[0] + 256 * Value(s[1..])
  }

  const TWO_64: int := 0x1_0000_0000_0000_0000

  function U64Bytes(v: u64): seq<Byte> {
    LE(v, 8)
  }

  /** Two's complement. */
  function I64Bytes(v: i64): seq<Byte> {
    LE(if v < 0 then TWO_64 + v else v, 8)
  }

  lemma Pow256To8()
    ensures Pow(256, 8) == TWO_64
  {
    assert Pow(256, 4) == 0x1_0000_0000;
    PowAdd(256, 4, 4);
  }

  function U64From(s: seq<Byte>): u64
    requires |s| == 8
  {
    Pow256To8();
    Value(s)
  }

  function I64From(s: seq<Byte>): i64
    requires |s| == 8
  {
    Pow256To8();
    var v := Value(s);
    if v >= TWO_64 / 2 then v - TWO_64 else v
  }

  lemma {:induction false} ValueOfLE(v: nat, n: nat)
    requires v < Pow(256, n)
    ensures Value(LE(v, n)) == v
  {
    if n > 0 {
      assert Pow(256, n) == 256 * Pow(256, n - 1);
      ValueOfLE(v / 256, n - 1);
      assert LE(v, n)[1..] == LE(v / 256, n - 1);
    }
  }

  lemma {:induction false} LEOfValue(s: seq<Byte>)
    ensures LE(Value(s), |s|) == s
  {
    if s != [] {
      LEOfValue(s[1..]);
      assert Value(s) % 256 == s[0] && Value(s) / 256 == Value(s[1..]);
    }
  }

  lemma U64RoundTrip(v: u64)
    ensures U64From(U64Bytes(v)) == v
  {
    Pow256To8();
    ValueOfLE(v, 8);
  }

  lemma I64RoundTrip(v: i64)
    ensures I64From(I64Bytes(v)) == v
  {
    Pow256To8();
    ValueOfLE(if v < 0 then TWO_64 + v else v, 8);
  }

  lemma IntegersAreTheirBytes(s: seq<Byte>)
    requires |s| == 8
    ensures U64Bytes(U64From(s)) == s && I64Bytes(I64From(s)) == s
  {
    LEOfValue(s);
  }

  // ----- Shifting and masking -----

  /** v >> (8 * i), for any integer v. */
  function Shr(v: int, i: nat): int
    decreases i
  {
    if i == 0 then v else Shr(v / 256, i - 1)
  }

  lemma {:induction false} ByteOfLE(v: nat, n: nat, i: nat)
    requires i < n
    ensures Shr(v, i) >= 0 && LE(v, n)[i] == Shr(v, i) % 256
  {
    if i > 0 { ByteOfLE(v / 256, n - 1, i - 1); }
  }

  /** Reading one more byte: the value of a prefix grows by the byte at its place. */
  lemma {:induction false} ValueOfAppend(s: seq<Byte>, b: Byte)
    ensures Value(s + [b]) == Value(s) + b * Pow(256, |s|)
  {
    if s == [] {
      assert Pow(256, 0) == 1;
      assert ([] + [b])[1..] == [];
    } else {
      ValueOfAppend(s[1..], b);
      assert (s + [b])[1..] == s[1..] + [b];
      assert Pow(256, |s|) == 256 * Pow(256, |s| - 1);
    }
  }

  // ----- Buffers -----

  /** Copies src into the buffer at an offset, as `copy_from_slice` and `Uint8Array.set` do. */
  method CopyInto(out: array<Byte>, offset: nat, src: seq<Byte>)
    requires offset + |src| <= out.Length
    modifies out
    ensures out[..offset + |src|] == old(out[..offset]) + src
    ensures forall k :: offset + |src| <= k < out.Length ==> out[k] == old(out[k])
  {
    for i := 0 to |src|
      invariant out[..offset + i] == old(out[..offset]) + src[..i]
      invariant forall k :: offset + i <= k < out.Length ==> out[k] == old(out[k])
    {
      out[offset + i] := src[i];
    }
    assert src[..|src|] == src;
  }

  /** The JavaScript writer: shift right by 8i and mask, or refuse a value out of range. */
  method WriteU64LE(out: array<Byte>, offset: nat, value: int) returns (ok: bool)
    requires offset + 8 <= out.Length
    modifies out
    ensures ok <==> 0 <= value <= U64_MAX
    ensures ok ==> out[..offset + 8] == old(out[..offset]) + U64Bytes(value)
    ensures forall k :: offset + 8 <= k < out.Length ==> out[k] == old(out[k])
    ensures !ok ==> out[..] == old(out[..])
  {
    if value < 0 || value > U64_MAX { return false; }
    ghost var bytes := U64Bytes(value);
    for i := 0 to 8
      invariant out[..offset + i] == old(out[..offset]) + bytes[..i]
      invariant forall k :: offset + i <= k < out.Length ==> out[k] == old(out[k])
    {
      ByteOfLE(value, 8, i);
      out[offset + i] := Shr(value, i) % 256;
    }
    assert bytes[..8] == bytes;
    return true;
  }

  method WriteI64LE(out: array<Byte>, offset: nat, value: int) returns (ok: bool)
    requires offset + 8 <= out.Length
    modifies out
    ensures ok <==> I64_MIN <= value <= I64_MAX
    ensures ok ==> out[..offset + 8] == old(out[..offset]) + I64Bytes(value)
    ensures forall k :: offset + 8 <= k < out.Length ==> out[k] == old(out[k])
    ensures !ok ==> out[..] == old(out[..])
  {
    if value < I64_MIN || value > I64_MAX { return false; }
    ok := WriteU64LE(out, offset, if value < 0 then TWO_64 + value else value);
  }

  /** The eight bytes at an offset, missing ones read as zero. */
  function Word(bytes: seq<Byte>, offset: nat): (w: seq<Byte>)
    ensures |w| == 8
    ensures offset + 8 <= |bytes| ==> w == bytes[offset..offset + 8]
  {
    seq(8, i requires 0 <= i < 8 => if offset + i < |bytes| then bytes[offset + i] else 0)
  }

  /** The client's reader: `|=` of disjoint shifts is a sum. */
  method ReadU64LE(bytes: seq<Byte>, offset: nat) returns (value: nat)
    ensures value == U64From(Word(bytes, offset))
  {
    value := 0;
    ghost var word := Word(bytes, offset);
    var place := 1;
    for i := 0 to 8
      invariant place == Pow(256, i) && value == Value(word[..i])
    {
      var b: Byte := if offset + i < |bytes| then bytes[offset + i] else 0;
      ValueOfAppend(word[..i], b);
      assert word[..i + 1] == word[..i] + [b];
      value := value + b * place;
      place := 256 * place;
    }
    assert word[..8] == word;
  }

  method ReadI64LE(bytes: seq<Byte>, offset: nat) returns (value: int)
    ensures value == I64From(Word(bytes, offset))
  {
    var unsigned := ReadU64LE(bytes, offset);
    value := if unsigned >= TWO_64 / 2 then unsigned - TWO_64 else unsigned;
  }

  /** The client's writer shifts its input instead, and wraps modulo 2^64. */
  method EncodeU64LE(value: int) returns (out: array<Byte>)
    ensures fresh(out) && out[..] == LE(value % TWO_64, 8)
  {
    out := new Byte[8];
    var input := value;
    for i := 0 to 8
      invariant input == Shr(value, i)
      invariant forall k :: 0 <= k < i ==> out[k] == Shr(value, k) % 256
    {
      out[i] := input % 256;
      input := input / 256;
      ShrStep(value, i);
    }
    forall k | 0 <= k < 8
      ensures out[k] == LE(value % TWO_64, 8)[k]
    {
      ByteOfLE(value % TWO_64, 8, k);
      ShrWraps(value, 8, k);
    }
    Pow256To8();
  }

  lemma {:induction false} ShrStep(v: int, i: nat)
    ensures Shr(v, i + 1) == Shr(v, i) / 256
    decreases i
  {
    if i > 0 { ShrStep(v / 256, i - 1); }
  }

  /** Low bytes do not depend on what lies above them. */
  lemma {:induction false} ShrWraps(v: int, n: nat, k: nat)
    requires k < n
    ensures Pow(256, n) > 0 && Shr(v % Pow(256, n), k) % 256 == Shr(v, k) % 256
    decreases k
  {
    PowPositive(256, n);
    PowPositive(256, n - 1);
    var p := Pow(256, n - 1);
    assert Pow(256, n) == 256 * p;
    ModOfMultiple(v, p);
    if k > 0 { ShrWraps(v / 256, n - 1, k - 1); }
  }

  lemma ModOfMultiple(v: int, p: nat)
    requires p > 0
    ensures v % (256 * p) % 256 == v % 256 && v % (256 * p) / 256 == v / 256 % p
  {
    var q, r := v / 256, v % 256;
    assert v == 256 * (p * (q / p) + q % p) + r;
    assert v == (256 * p) * (q / p) + (256 * (q % p) + r);
    assert 0 <= 256 * (q % p) + r < 256 * p;
    DivModUnique(v, 256 * p, q / p, 256 * (q % p) + r);
  }

  lemma DivModUnique(v: int, d: int, q: int, r: int)
    requires d > 0 && v == d * q + r && 0 <= r < d
    ensures v / d == q && v % d == r
  {
    var q', r' := v / d, v % d;
    assert d * q' + r' == d * q + r;
    assert d * (q' - q) == r - r' && d * (q - q') == r' - r;
    if q' > q { MulMono(1, q' - q, d, d); }
    if q' < q { MulMono(1, q - q', d, d); }
  }
}
