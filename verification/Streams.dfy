/**
 The writer and the reader both codecs declare privately, as objects over a growing and a bounded
 byte vector, proved against the field functions of Wire.
 */
module Streams {
  import opened Wrappers
  import opened Bytes
  import opened Model
  import opened Preimages
  import opened Wire

  lemma PackPrefix(h: Hex, i: nat)
    requires i < 32
    ensures Pack(h)[..i + 1] == Pack(h)[..i] + [Nibble(h[2 * i]) * 16 + Nibble(h[2 * i + 1])]
  {
    hide Nibble;
  }

  lemma HexPrefix(d: Bytes, i: nat)
    requires i < |d|
    ensures HexEncode(d)[..2 * i + 2] == HexEncode(d)[..2 * i] + [HexDigit(d[i] / 16), HexDigit(d[i] % 16)]
  {
    HexPair(d, i);
  }

  /**
   `thrown` records that an operation threw: the vector had outgrown `capacity`. Nothing is
   appended any more then; `written` is what all operations so far were asked to append.
   */
  class Writer {
    const capacity: u32
    var output: Bytes
    var thrown: bool
    ghost var written: Bytes

    ghost predicate Valid()
      reads this
    {
      && (thrown <==> |written| > capacity)
      && (!thrown ==> output == written)
    }

    /** The operation was asked to append `chunk`. */
    twostate predicate Wrote(chunk: Bytes)
      reads this
    {
      Valid() && written == old(written) + chunk
    }

    constructor (capacity: u32)
      ensures Valid() && written == [] && this.capacity == capacity
    {
      this.capacity, output, thrown, written := capacity, [], false, [];
    }

    method Byte(value: byte)
      requires Valid()
      modifies this
      ensures Wrote(PutByte(value))
    {
      written := written + [value];
      if !thrown {
        output := output + [value];
        thrown := |output| > capacity;
      }
    }

    method U16(value: u16)
      requires Valid()
      modifies this
      ensures Wrote(PutU16(value))
    {
      ShiftedByte(value, 2, 1);
      ShiftedByte(value, 2, 0);
      assert ShiftRight(value, 1) == value / 256;
      Byte(value / 256 % 256);
      Byte(value % 256);
      assert PutU16(value) == PutByte(value / 256 % 256) + PutByte(value % 256);
    }

    method U32(value: u32)
      requires Valid()
      modifies this
      ensures Wrote(PutU32(value))
    {
      var shift := 3;
      while shift >= 0
        invariant -1 <= shift <= 3
        invariant Wrote(BE(value, 4)[..3 - shift])
      {
        ShiftedByte(value, 4, shift);
        Byte(ShiftRight(value, shift) % 256);
        assert BE(value, 4)[..4 - shift] == BE(value, 4)[..3 - shift] + [BE(value, 4)[3 - shift]];
        shift := shift - 1;
      }
      assert BE(value, 4)[..4] == BE(value, 4);
    }

    method U64(value: u64)
      requires Valid()
      modifies this
      ensures Wrote(PutU64(value))
    {
      var shift := 7;
      while shift >= 0
        invariant -1 <= shift <= 7
        invariant Wrote(BE(value, 8)[..7 - shift])
      {
        ShiftedByte(value, 8, shift);
        Byte(ShiftRight(value, shift) % 256);
        assert BE(value, 8)[..8 - shift] == BE(value, 8)[..7 - shift] + [BE(value, 8)[7 - shift]];
        shift := shift - 1;
      }
      assert BE(value, 8)[..8] == BE(value, 8);
    }

    method Boolean(value: bool)
      requires Valid()
      modifies this
      ensures Wrote(PutBool(value))
    {
      Byte(if value then 1 else 0);
    }

    method Raw(data: Bytes)
      requires Valid()
      modifies this
      ensures Wrote(data)
    {
      written := written + data;
      if !thrown && data != [] {
        if |data| > capacity - |output| {
          thrown := true;
        } else {
          output := output + data;
        }
      }
    }

    method Text(value: Text)
      requires Valid()
      modifies this
      ensures Wrote(PutText(value))
    {
      if |value| >= TWO_32 {
        written, thrown := written + PutText(value), true;
      } else {
        U32(|value|);
        Raw(value);
        assert PutText(value) == PutU32(|value|) + value;
      }
    }

    /** Two digits to a byte. */
    method Identity(value: Hex)
      requires Valid()
      modifies this
      ensures Wrote(PutIdentity(value))
    {
      hide Pack, Nibble;
      var index := 0;
      while index < 64
        invariant 0 <= index <= 64 && index % 2 == 0
        invariant Wrote(Pack(value)[..index / 2])
      {
        PackPrefix(value, index / 2);
        Byte(Nibble(value[index]) * 16 + Nibble(value[index + 1]));
        index := index + 2;
      }
      assert Pack(value)[..32] == Pack(value);
    }
  }

  /** Every read stays below `limit`, so `limit - offset` never underflows. */
  class Reader {
    const input: Bytes
    const limit: nat
    var offset: nat

    ghost predicate Valid()
      reads this
    {
      offset <= limit <= |input|
    }

    /** What is left to read. */
    ghost function Rest(): Bytes
      reads this
      requires Valid()
    {
      input[offset..limit]
    }

    /** The read threw `corrupt_encoding`, or returned what `p` holds and left its rest. */
    ghost predicate Read<T>(p: Parsed<T>, r: Result<T>)
      reads this
    {
      && Valid()
      && (p.Corrupt? ==> r == Err(CorruptEncoding))
      && (p.Parsed? ==> r == Ok(p.value) && Rest() == p.rest)
    }

    constructor (input: Bytes, limit: nat)
      requires limit <= |input|
      ensures Valid() && Rest() == input[..limit]
    {
      this.input, this.limit, offset := input, limit, 0;
    }

    predicate Require(size: nat)
      reads this
      requires Valid()
      ensures Require(size) <==> size <= |Rest()|
    {
      size <= limit - offset
    }

    method Byte() returns (r: Result<byte>)
      requires Valid()
      modifies this`offset
      ensures Read(TakeByte(old(Rest())), r)
    {
      if !Require(1) {
        return Err(CorruptEncoding);
      }
      r := Ok(input[offset]);
      offset := offset + 1;
    }

    method U16() returns (r: Result<u16>)
      requires Valid()
      modifies this`offset
      ensures Read(TakeU16(old(Rest())), r)
    {
      Widths();
      ghost var s := Rest();
      var value: nat := 0;
      for index := 0 to 2
        invariant Valid() && index <= |s| && Rest() == s[index..] && value == FromBE(s[..index])
      {
        var b :- Byte();
        FromBEStep(s, index);
        value := value * 256 + b;
      }
      BEOfFromBE(s[..2]);
      return Ok(value);
    }

    method U32() returns (r: Result<u32>)
      requires Valid()
      modifies this`offset
      ensures Read(TakeU32(old(Rest())), r)
    {
      Widths();
      ghost var s := Rest();
      var value: nat := 0;
      for index := 0 to 4
        invariant Valid() && index <= |s| && Rest() == s[index..] && value == FromBE(s[..index])
      {
        var b :- Byte();
        FromBEStep(s, index);
        value := value * 256 + b;
      }
      BEOfFromBE(s[..4]);
      return Ok(value);
    }

    method U64() returns (r: Result<u64>)
      requires Valid()
      modifies this`offset
      ensures Read(TakeU64(old(Rest())), r)
    {
      Widths();
      ghost var s := Rest();
      var value: nat := 0;
      for index := 0 to 8
        invariant Valid() && index <= |s| && Rest() == s[index..] && value == FromBE(s[..index])
      {
        var b :- Byte();
        FromBEStep(s, index);
        value := value * 256 + b;
      }
      BEOfFromBE(s[..8]);
      return Ok(value);
    }

    method Boolean() returns (r: Result<bool>)
      requires Valid()
      modifies this`offset
      ensures Read(TakeBool(old(Rest())), r)
    {
      var value :- Byte();
      if value > 1 {
        return Err(CorruptEncoding);
      }
      return Ok(value == 1);
    }

    method Text(maximum: nat) returns (r: Result<Text>)
      requires Valid()
      modifies this`offset
      ensures Read(TakeText(old(Rest()), maximum), r)
    {
      var size :- U32();
      if size > maximum || !Require(size) {
        return Err(CorruptEncoding);
      }
      assert input[offset..offset + size] == Rest()[..size];
      r := Ok(input[offset..offset + size]);
      offset := offset + size;
    }

    method Identity() returns (r: Result<Hex>)
      requires Valid()
      modifies this`offset
      ensures Read(TakeIdentity(old(Rest())), r)
    {
      if !Require(32) {
        return Err(CorruptEncoding);
      }
      hide HexEncode, HexDigit;
      ghost var d := input[offset..offset + 32];
      assert d == Rest()[..32];
      var value := new byte[64];
      for index := 0 to 32
        invariant Valid() && offset == old(offset) + index
        invariant value[..2 * index] == HexEncode(d)[..2 * index]
      {
        ghost var done := value[..2 * index];
        var current := input[offset];
        assert current == d[index] && current / 16 % 16 == current / 16;
        offset := offset + 1;
        HexPrefix(d, index);
        value[index * 2] := HexDigit(current / 16 % 16);
        value[index * 2 + 1] := HexDigit(current % 16);
        assert value[..2 * index + 2] == done + [HexDigit(current / 16 % 16), HexDigit(current % 16)];
      }
      assert value[..] == value[..64] == HexEncode(d)[..64] == HexEncode(d);
      return Ok(value[..]);
    }

    method Finish() returns (outcome: Outcome)
      requires Valid()
      ensures outcome == Need(Rest() == [], CorruptEncoding)
    {
      return Need(offset == limit, CorruptEncoding);
    }
  }

  lemma FromBEStep(s: Bytes, i: nat)
    requires i < |s|
    ensures FromBE(s[..i + 1]) == FromBE(s[..i]) * 256 + s[i]
    ensures FromBE(s[..i + 1]) < Pow256(i + 1)
  {
    assert s[..i + 1][..i] == s[..i];
    BEOfFromBE(s[..i + 1]);
  }

  // ---------------------------------------------------------------- shared by both codecs

  lemma Regroup2(s: Bytes, a: Bytes, b: Bytes)
    ensures s + a + b == s + (a + b)
  {
  }

  lemma Regroup3(s: Bytes, a: Bytes, b: Bytes, c: Bytes)
    ensures s + a + b + c == s + (a + (b + c))
  {
  }

  lemma Regroup4(s: Bytes, a: Bytes, b: Bytes, c: Bytes, d: Bytes)
    ensures s + a + b + c + d == s + (a + (b + (c + d)))
  {
    Regroup3(s + a, b, c, d);
  }

  lemma Regroup5(s: Bytes, a: Bytes, b: Bytes, c: Bytes, d: Bytes, e: Bytes)
    ensures s + a + b + c + d + e == s + (a + (b + (c + (d + e))))
  {
    Regroup4(s + a, b, c, d, e);
  }

  method WriteGuarantees(w: Writer, gs: seq<Guarantee>)
    requires w.Valid()
    modifies w
    ensures w.Wrote(PutGuarantees(gs))
  {
    for i := 0 to |gs|
      invariant w.Wrote(PutGuarantees(gs[..i]))
    {
      w.Byte(GuaranteeByte(gs[i]));
      assert PutGuarantees(gs[..i + 1]) == PutGuarantees(gs[..i]) + PutByte(GuaranteeByte(gs[i]));
    }
    assert gs[..|gs|] == gs;
  }

  /** The bytes are read one at a time and each is compared at once. */
  method ReadMagic(input: Reader, magic: Bytes) returns (outcome: Outcome)
    requires input.Valid()
    modifies input`offset
    ensures input.Valid()
    ensures var p := TakeBytes(old(input.Rest()), |magic|);
      && outcome == Need(p.Parsed? && p.value == magic, CorruptEncoding)
      && (outcome.Pass? ==> input.Rest() == p.rest)
  {
    ghost var s := input.Rest();
    for i := 0 to |magic|
      invariant input.Valid() && i <= |s| && input.Rest() == s[i..] && s[..i] == magic[..i]
    {
      var b := input.Byte();
      if b != Ok(magic[i]) {
        assert |s| > i ==> s[i] != magic[i];
        return Fail(CorruptEncoding);
      }
      assert s[..i + 1] == s[..i] + [s[i]] && magic[..i + 1] == magic[..i] + [magic[i]];
    }
    assert magic[..|magic|] == magic;
    return Pass;
  }

  method ReadGuarantees(input: Reader, count: nat) returns (r: Result<seq<Guarantee>>)
    requires input.Valid()
    modifies input`offset
    ensures input.Read(TakeGuarantees(old(input.Rest()), count), r)
  {
    hide TakeByte, GuaranteeOf;
    ghost var s := input.Rest();
    var gs: seq<Guarantee> := [];
    PrependedNone(TakeGuarantees(s, count));
    for i := 0 to count
      invariant input.Valid()
      invariant TakeGuarantees(s, count) == Prepended(gs, TakeGuarantees(input.Rest(), count - i))
    {
      var b :- input.Byte();
      if GuaranteeOf(b).None? {
        return Err(CorruptEncoding);
      }
      gs := gs + [GuaranteeOf(b).value];
      PrependedStep(gs, TakeGuarantees(input.Rest(), count - i - 1));
    }
    assert gs + [] == gs;
    return Ok(gs);
  }

  ghost function Prepended(gs: seq<Guarantee>, p: Parsed<seq<Guarantee>>): Parsed<seq<Guarantee>> {
    match p case Corrupt => Corrupt case Parsed(more, rest) => Parsed(gs + more, rest)
  }

  lemma PrependedNone(p: Parsed<seq<Guarantee>>)
    ensures Prepended([], p) == p
  {
    if p.Parsed? {
      assert [] + p.value == p.value;
    }
  }

  lemma PrependedStep(gs: seq<Guarantee>, p: Parsed<seq<Guarantee>>)
    requires gs != []
    ensures Prepended(gs, p) == Prepended(gs[..|gs| - 1], Prepended([gs[|gs| - 1]], p))
  {
    if p.Parsed? {
      assert gs == gs[..|gs| - 1] + [gs[|gs| - 1]];
      Regroup(gs[..|gs| - 1], [gs[|gs| - 1]], p.value);
    }
  }

  lemma Regroup(a: seq<Guarantee>, b: seq<Guarantee>, c: seq<Guarantee>)
    ensures a + b + c == a + (b + c)
  {
  }
}
