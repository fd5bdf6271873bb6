/** Byte strings, big-endian integers and lowercase hexadecimal. */
module Bytes {
  import opened Wrappers

  type byte = x: int | 0 <= x < 0x100
  type Bytes = seq<byte>

  const TWO_16 := 0x1_0000
  const TWO_32 := 0x1_0000_0000
  const TWO_64 := 0x1_0000_0000_0000_0000

  type u16 = x: int | 0 <= x < TWO_16
  type u32 = x: int | 0 <= x < TWO_32
  type u64 = x: int | 0 <= x < TWO_64
  type i64 = x: int | -TWO_64 / 2 <= x < TWO_64 / 2

  /** `std::string` and `std::vector`: their size is a 64-bit `size_t`. */
  type Text = s: Bytes | |s| < TWO_64 witness []
  type Vec<T> = s: seq<T> | |s| < TWO_64 witness []

  // ---------------------------------------------------------------- big-endian integers

  function Pow256(n: nat): nat {
    if n == 0 then 1 else 256 * Pow256(n - 1)
  }

  lemma Widths()
    ensures Pow256(1) == 0x100 && Pow256(2) == TWO_16 && Pow256(4) == TWO_32 && Pow256(8) == TWO_64
  {
    assert Pow256(1) == 256 * Pow256(0);
    assert Pow256(2) == 256 * Pow256(1);
    assert Pow256(3) == 256 * Pow256(2);
    assert Pow256(4) == 256 * Pow256(3);
    assert Pow256(5) == 256 * Pow256(4);
    assert Pow256(6) == 256 * Pow256(5);
    assert Pow256(7) == 256 * Pow256(6);
    assert Pow256(8) == 256 * Pow256(7);
  }

  /** The `n` low-order bytes of `v`, most significant first. */
  function BE(v: nat, n: nat): (s: Bytes)
    ensures |s| == n
  {
    if n == 0 then [] else BE(v / 256, n - 1) + [v % 256]
  }

  function FromBE(s: Bytes): nat {
    if s == [] then 0 else FromBE(s[..|s| - 1]) * 256 + s[|s| - 1]
  }

  lemma {:induction false} FromBEOfBE(v: nat, n: nat)
    requires v < Pow256(n)
    ensures FromBE(BE(v, n)) == v
  {
    if n > 0 {
      FromBEOfBE(v / 256, n - 1);
      assert BE(v, n)[..n - 1] == BE(v / 256, n - 1);
    }
  }

  lemma {:induction false} BEOfFromBE(s: Bytes)
    ensures FromBE(s) < Pow256(|s|)
    ensures BE(FromBE(s), |s|) == s
  {
    if s != [] {
      BEOfFromBE(s[..|s| - 1]);
      assert s[..|s| - 1] + [s[|s| - 1]] == s;
    }
  }

  /** Big-endian: the first byte has the highest weight. */
  lemma BigEndianTwo(v: u16)
    ensures v == (BE(v, 2)[0] as int) * 0x100 + BE(v, 2)[1]
  {
    var v1 := v / 256;
    assert BE(v, 2) == BE(v1, 1) + [v % 256];
    assert BE(v1, 1) == BE(v1 / 256, 0) + [v1 % 256];
  }

  lemma BigEndianFour(v: u32)
    ensures v == (BE(v, 4)[0] as int) * 0x100_0000 + (BE(v, 4)[1] as int) * 0x1_0000
                 + (BE(v, 4)[2] as int) * 0x100 + BE(v, 4)[3]
  {
    var v2 := v / 256 / 256;
    assert BE(v, 4) == BE(v / 256, 3) + [v % 256];
    assert BE(v / 256, 3) == BE(v2, 2) + [v / 256 % 256];
    BigEndianTwo(v2);
  }

  lemma BigEndianEight(v: u64)
    ensures var b := BE(v, 8);
      v == (b[0] as int) * 0x100_0000_0000_0000 + (b[1] as int) * 0x1_0000_0000_0000
           + (b[2] as int) * 0x100_0000_0000 + (b[3] as int) * 0x1_0000_0000
           + (b[4] as int) * 0x100_0000 + (b[5] as int) * 0x1_0000 + (b[6] as int) * 0x100 + b[7]
  {
    var v1 := v / 256;
    var v2 := v1 / 256;
    var v3 := v2 / 256;
    var v4 := v3 / 256;
    assert BE(v, 8) == BE(v1, 7) + [v % 256];
    assert BE(v1, 7) == BE(v2, 6) + [v1 % 256];
    assert BE(v2, 6) == BE(v3, 5) + [v2 % 256];
    assert BE(v3, 5) == BE(v4, 4) + [v3 % 256];
    BigEndianFour(v4);
  }

  /** `value >> (8 * k)`. */
  function ShiftRight(value: nat, k: nat): nat {
    if k == 0 then value else ShiftRight(value / 256, k - 1)
  }

  /** The byte a descending shift selects is the one the low-order recursion puts there. */
  lemma {:induction false} ShiftedByte(value: nat, n: nat, k: nat)
    requires k < n
    ensures BE(value, n)[n - 1 - k] == ShiftRight(value, k) % 256
  {
    if k > 0 {
      ShiftedByte(value / 256, n - 1, k - 1);
    }
  }

  // ---------------------------------------------------------------- hexadecimal

  predicate IsHexDigit(c: byte) {
    '0' as int <= c <= '9' as int || 'a' as int <= c <= 'f' as int
  }

  predicate IsSha256Hex(s: Bytes) {
    |s| == 64 && forall i | 0 <= i < 64 :: IsHexDigit(s[i])
  }

  /** A SHA-256 value or identity as the library stores it: 64 lowercase hexadecimal digits. */
  type Hex = s: Bytes | IsSha256Hex(s) witness seq(64, _ => '0' as int)

  type Digest = s: Bytes | |s| == 32 witness seq(32, _ => 0)

  /** SHA-256 is foreign code: any deterministic function from byte strings to 32 bytes. */
  type Sha = Bytes -> Digest

  function HexDigit(n: byte): (c: byte)
    requires n < 16
    ensures IsHexDigit(c)
  {
    if n < 10 then '0' as int + n else 'a' as int + (n - 10)
  }

  lemma HexAlphabet(n: byte)
    requires n < 16
    ensures HexDigit(n) == "0123456789abcdef"[n] as int && Nibble(HexDigit(n)) == n
  {
  }

  function Nibble(c: byte): (n: byte)
    requires IsHexDigit(c)
    ensures n < 16
  {
    if '0' as int <= c <= '9' as int then c - '0' as int else c - 'a' as int + 10
  }

  function HexEncode(s: Bytes): (h: Bytes)
    ensures |h| == 2 * |s|
  {
    seq(2 * |s|, i requires 0 <= i < 2 * |s| =>
      if i % 2 == 0 then HexDigit(s[i / 2] / 16) else HexDigit(s[i / 2] % 16))
  }

  /** The writer's packing: two digits to a byte. */
  function Pack(h: Hex): (d: Digest) {
    seq(32, i requires 0 <= i < 32 => Nibble(h[2 * i]) * 16 + Nibble(h[2 * i + 1]))
  }

  function Unpack(d: Digest): (h: Hex) {
    HexEncode(d)
  }

  lemma PackUnpack(d: Digest)
    ensures Pack(Unpack(d)) == d
  {
    forall i | 0 <= i < 32
      ensures Pack(Unpack(d))[i] == d[i]
    {
      HexPair(d, i);
    }
  }

  lemma HexPair(s: Bytes, i: nat)
    requires i < |s|
    ensures HexEncode(s)[2 * i] == HexDigit(s[i] / 16) && HexEncode(s)[2 * i + 1] == HexDigit(s[i] % 16)
  {
  }

  lemma UnpackPack(h: Hex)
    ensures Unpack(Pack(h)) == h
  {
    forall i | 0 <= i < 32
      ensures Unpack(Pack(h))[2 * i] == h[2 * i] && Unpack(Pack(h))[2 * i + 1] == h[2 * i + 1]
    {
      HexPair(Pack(h), i);
    }
    EveryIndex(Unpack(Pack(h)), h);
  }

  lemma EveryIndex(a: Bytes, b: Bytes)
    requires |a| == |b| == 64
    requires forall i | 0 <= i < 32 :: a[2 * i] == b[2 * i] && a[2 * i + 1] == b[2 * i + 1]
    ensures a == b
  {
    forall j | 0 <= j < 64
      ensures a[j] == b[j]
    {
      var i := j / 2;
      assert j == 2 * i || j == 2 * i + 1;
    }
  }

  function Sha256Hex(sha: Sha, s: Bytes): Hex {
    Unpack(sha(s))
  }

  // ---------------------------------------------------------------- the library's loops

  /** identity_support.cpp fills eight bytes from the end while shifting the value right. */
  method EncodeU64(value: u64) returns (out: Bytes)
    ensures out == BE(value, 8)
  {
    var bytes := new byte[8];
    var rest: nat := value;
    for i := 0 to 8
      invariant BE(value, 8) == BE(rest, 8 - i) + bytes[8 - i..]
    {
      bytes[7 - i] := rest % 256;
      assert bytes[7 - i..] == [rest % 256] + bytes[8 - i..];
      assert BE(rest, 8 - i) == BE(rest / 256, 7 - i) + [rest % 256];
      rest := rest / 256;
    }
    out := bytes[..];
    assert out == [] + bytes[0..];
  }

  method EncodeU32(value: u32) returns (out: Bytes)
    ensures out == BE(value, 4)
  {
    var bytes := new byte[4];
    var rest: nat := value;
    for i := 0 to 4
      invariant BE(value, 4) == BE(rest, 4 - i) + bytes[4 - i..]
    {
      bytes[3 - i] := rest % 256;
      assert bytes[3 - i..] == [rest % 256] + bytes[4 - i..];
      assert BE(rest, 4 - i) == BE(rest / 256, 3 - i) + [rest % 256];
      rest := rest / 256;
    }
    out := bytes[..];
    assert out == [] + bytes[0..];
  }

  method HexEncodeBytes(bytes: Bytes) returns (text: Bytes)
    ensures text == HexEncode(bytes)
  {
    var result := new byte[2 * |bytes|];
    for i := 0 to |bytes|
      invariant result[..2 * i] == HexEncode(bytes)[..2 * i]
    {
      result[2 * i] := HexDigit(bytes[i] / 16);
      result[2 * i + 1] := HexDigit(bytes[i] % 16);
      assert HexEncode(bytes)[2 * i] == HexDigit(bytes[i] / 16);
      assert HexEncode(bytes)[2 * i + 1] == HexDigit(bytes[i] % 16);
    }
    text := result[..];
  }

  /** require_sha256_hex. */
  method RequireSha256Hex(value: Bytes) returns (outcome: Outcome)
    ensures outcome == Need(IsSha256Hex(value), InvalidIdentity)
  {
    if |value| != 64 {
      return Fail(InvalidIdentity);
    }
    for i := 0 to 64
      invariant forall j | 0 <= j < i :: IsHexDigit(value[j])
    {
      if !IsHexDigit(value[i]) {
        return Fail(InvalidIdentity);
      }
    }
    return Pass;
  }
}
