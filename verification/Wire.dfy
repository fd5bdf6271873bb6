/**
 The binary fields both codecs are made of, as pairs of functions: how a field is written, and how
 it is read off the front of a byte string. Each pair is a bijection onto its image.
 */
module Wire {
  import opened Wrappers
  import opened Bytes
  import opened Model
  import opened Preimages

  /** A field read off the front of a byte string, and what follows it; or `corrupt_encoding`. */
  datatype Parsed<+T> = Corrupt | Parsed(value: T, rest: Bytes) {
    predicate IsFailure() {
      Corrupt?
    }

    function PropagateFailure<U>(): Parsed<U>
      requires Corrupt?
    {
      Corrupt
    }

    function Extract(): (T, Bytes)
      requires Parsed?
    {
      (value, rest)
    }
  }

  /** Reading inverts writing, and nothing but what is written is ever read. */
  ghost predicate Iso<T(!new)>(put: T -> Bytes, take: Bytes -> Parsed<T>) {
    && (forall v, rest: Bytes {:trigger put(v) + rest} :: take(put(v) + rest) == Parsed(v, rest))
    && (forall s {:trigger take(s)} :: take(s).Parsed? ==> s == put(take(s).value) + take(s).rest)
  }

  lemma Both<T(!new)>(put: T -> Bytes, take: Bytes -> Parsed<T>, s: Bytes, v: T, rest: Bytes)
    requires Iso(put, take)
    ensures take(s) == Parsed(v, rest) <==> s == put(v) + rest
  {
  }

  // ---------------------------------------------------------------- fields

  function TakeBytes(s: Bytes, n: nat): (p: Parsed<Bytes>)
    ensures p.Parsed? ==> |p.value| == n
  {
    if n > |s| then Corrupt else Parsed(s[..n], s[n..])
  }

  function TakeByte(s: Bytes): Parsed<byte> {
    var (b, s) :- TakeBytes(s, 1);
    Parsed(b[0], s)
  }

  function TakeU16(s: Bytes): Parsed<u16> {
    var (b, s) :- TakeBytes(s, 2);
    Widths();
    BEOfFromBE(b);
    Parsed(FromBE(b), s)
  }

  function TakeU32(s: Bytes): Parsed<u32> {
    var (b, s) :- TakeBytes(s, 4);
    Widths();
    BEOfFromBE(b);
    Parsed(FromBE(b), s)
  }

  function TakeU64(s: Bytes): Parsed<u64> {
    var (b, s) :- TakeBytes(s, 8);
    Widths();
    BEOfFromBE(b);
    Parsed(FromBE(b), s)
  }

  function TakeBool(s: Bytes): Parsed<bool> {
    var (b, s) :- TakeByte(s);
    if b > 1 then Corrupt else Parsed(b == 1, s)
  }

  /** Identities are packed two digits to a byte. */
  function PutIdentity(h: Hex): Bytes {
    Pack(h)
  }

  function TakeIdentity(s: Bytes): Parsed<Hex> {
    var (d, s) :- TakeBytes(s, 32);
    Parsed(Unpack(d), s)
  }

  /** A text field counts its bytes in 32 bits. */
  function PutText(t: Text): Bytes {
    BE(|t|, 4) + t
  }

  function TakeText(s: Bytes, maximum: nat): (p: Parsed<Text>)
    ensures p.Parsed? ==> |p.value| <= maximum && |p.value| < TWO_32
  {
    var (n, s) :- TakeU32(s);
    if n > maximum then Corrupt else TakeBytes(s, n)
  }

  /** One enumerator byte; a value outside the vocabulary is corrupt. */
  function TakeEnum<T>(s: Bytes, of: byte -> Option<T>): Parsed<T> {
    var (b, s) :- TakeByte(s);
    if of(b).None? then Corrupt else Parsed(of(b).value, s)
  }

  function TakeOption<T>(s: Bytes, take: Bytes -> Parsed<T>): Parsed<Option<T>> {
    var (present, s) :- TakeBool(s);
    if !present then Parsed(None, s) else
      var (v, s) :- take(s);
      Parsed(Some(v), s)
  }

  function PutStatus(s: Status): Bytes {
    PutByte(StatusByte(s))
  }

  function TakeStatus(s: Bytes): Parsed<Status> {
    TakeEnum(s, StatusOf)
  }

  function PutStart(s: StartState): Bytes {
    PutByte(StartByte(s))
  }

  function TakeStart(s: Bytes): Parsed<StartState> {
    TakeEnum(s, StartOf)
  }

  function PutCleanup(c: Cleanup): Bytes {
    PutByte(CleanupByte(c))
  }

  function TakeCleanup(s: Bytes): Parsed<Cleanup> {
    TakeEnum(s, CleanupOf)
  }

  function TakeFailure(s: Bytes): Parsed<FailureKind> {
    TakeEnum(s, FailureOf)
  }

  function TakeGuarantee(s: Bytes): Parsed<Guarantee> {
    TakeEnum(s, GuaranteeOf)
  }

  function TakeLimit(s: Bytes): Parsed<LimitKind> {
    TakeEnum(s, LimitOf)
  }

  // ---------------------------------------------------------------- they are bijections

  lemma BytesIso(s: Bytes, b: Bytes, rest: Bytes)
    ensures TakeBytes(s, |b|) == Parsed(b, rest) <==> s == b + rest
  {
    if s == b + rest {
      assert s[..|b|] == b && s[|b|..] == rest;
    }
    if TakeBytes(s, |b|) == Parsed(b, rest) {
      assert s == s[..|b|] + s[|b|..];
    }
  }

  lemma ByteIso()
    ensures Iso(PutByte, TakeByte)
  {
    forall v: byte, rest: Bytes
      ensures TakeByte(PutByte(v) + rest) == Parsed(v, rest)
    {
      BytesIso(PutByte(v) + rest, PutByte(v), rest);
    }
    forall s | TakeByte(s).Parsed?
      ensures s == PutByte(TakeByte(s).value) + TakeByte(s).rest
    {
      assert [s[0]] + s[1..] == s;
    }
  }

  lemma NumberIso(v: nat, n: nat, rest: Bytes)
    requires v < Pow256(n)
    ensures TakeBytes(BE(v, n) + rest, n) == Parsed(BE(v, n), rest) && FromBE(BE(v, n)) == v
  {
    BytesIso(BE(v, n) + rest, BE(v, n), rest);
    FromBEOfBE(v, n);
  }

  lemma NumberIsoBack(s: Bytes, n: nat)
    requires n <= |s|
    ensures s == BE(FromBE(s[..n]), n) + s[n..]
  {
    BEOfFromBE(s[..n]);
    assert s == s[..n] + s[n..];
  }

  lemma U16Iso()
    ensures Iso(PutU16, TakeU16)
  {
    Widths();
    forall v: u16, rest: Bytes
      ensures TakeU16(PutU16(v) + rest) == Parsed(v, rest)
    {
      NumberIso(v, 2, rest);
    }
    forall s | TakeU16(s).Parsed?
      ensures s == PutU16(TakeU16(s).value) + TakeU16(s).rest
    {
      NumberIsoBack(s, 2);
    }
  }

  lemma U32Iso()
    ensures Iso(PutU32, TakeU32)
  {
    Widths();
    forall v: u32, rest: Bytes
      ensures TakeU32(PutU32(v) + rest) == Parsed(v, rest)
    {
      NumberIso(v, 4, rest);
    }
    forall s | TakeU32(s).Parsed?
      ensures s == PutU32(TakeU32(s).value) + TakeU32(s).rest
    {
      NumberIsoBack(s, 4);
    }
  }

  lemma U64Iso()
    ensures Iso(PutU64, TakeU64)
  {
    Widths();
    forall v: u64, rest: Bytes
      ensures TakeU64(PutU64(v) + rest) == Parsed(v, rest)
    {
      NumberIso(v, 8, rest);
    }
    forall s | TakeU64(s).Parsed?
      ensures s == PutU64(TakeU64(s).value) + TakeU64(s).rest
    {
      NumberIsoBack(s, 8);
    }
  }

  lemma BoolIso()
    ensures Iso(PutBool, TakeBool)
  {
    hide PutByte, TakeByte;
    ByteIso();
    forall v: bool, rest: Bytes
      ensures TakeBool(PutBool(v) + rest) == Parsed(v, rest)
    {
      BoolByte(v);
      Both<byte>(PutByte, TakeByte, PutBool(v) + rest, if v then 1 else 0, rest);
    }
    forall s | TakeBool(s).Parsed?
      ensures s == PutBool(TakeBool(s).value) + TakeBool(s).rest
    {
      BoolByte(TakeBool(s).value);
      Both<byte>(PutByte, TakeByte, s, TakeByte(s).value, TakeByte(s).rest);
    }
  }

  lemma BoolByte(v: bool)
    ensures PutBool(v) == PutByte(if v then 1 else 0)
  {
  }

  lemma IdentityIso()
    ensures Iso<Hex>(PutIdentity, TakeIdentity)
  {
    hide Pack, Unpack;
    forall h: Hex, rest: Bytes
      ensures TakeIdentity(PutIdentity(h) + rest) == Parsed(h, rest)
    {
      BytesIso(Pack(h) + rest, Pack(h), rest);
      UnpackPack(h);
    }
    forall s | TakeIdentity(s).Parsed?
      ensures s == PutIdentity(TakeIdentity(s).value) + TakeIdentity(s).rest
    {
      var d := TakeBytes(s, 32).value;
      BytesIso(s, d, TakeBytes(s, 32).rest);
      PackUnpack(d);
    }
  }

  lemma TextIso(s: Bytes, t: Text, rest: Bytes, maximum: nat)
    requires |t| <= maximum && |t| < TWO_32
    ensures TakeText(s, maximum) == Parsed(t, rest) <==> s == PutText(t) + rest
  {
    hide TakeU32, TakeBytes;
    U32Iso();
    if s == PutText(t) + rest {
      assert s == PutU32(|t|) + (t + rest);
      Both<u32>(PutU32, TakeU32, s, |t|, t + rest);
      BytesIso(t + rest, t, rest);
    }
    if TakeText(s, maximum) == Parsed(t, rest) {
      var n := TakeU32(s);
      Both<u32>(PutU32, TakeU32, s, n.value, n.rest);
      BytesIso(n.rest, t, rest);
      assert s == PutU32(|t|) + (t + rest);
    }
  }

  lemma EnumIso<T(!new)>(put: T -> Bytes, take: Bytes -> Parsed<T>, code: T -> byte, of: byte -> Option<T>)
    requires forall v :: put(v) == PutByte(code(v)) && of(code(v)) == Some(v)
    requires forall b :: of(b).Some? ==> code(of(b).value) == b
    requires forall s :: take(s) == TakeEnum(s, of)
    ensures Iso(put, take)
  {
    hide PutByte, TakeByte;
    ByteIso();
    forall v, rest: Bytes
      ensures take(put(v) + rest) == Parsed(v, rest)
    {
      Both<byte>(PutByte, TakeByte, put(v) + rest, code(v), rest);
    }
    forall s | take(s).Parsed?
      ensures s == put(take(s).value) + take(s).rest
    {
      Both<byte>(PutByte, TakeByte, s, TakeByte(s).value, TakeByte(s).rest);
    }
  }

  lemma StatesIso()
    ensures Iso(PutStatus, TakeStatus) && Iso(PutStart, TakeStart)
  {
    hide Iso, PutByte, TakeEnum;
    EnumIso(PutStatus, TakeStatus, StatusByte, StatusOf);
    EnumIso(PutStart, TakeStart, StartByte, StartOf);
  }

  lemma CleanupIso()
    ensures Iso(PutCleanup, TakeCleanup)
  {
    hide Iso, PutByte, TakeEnum;
    EnumIso(PutCleanup, TakeCleanup, CleanupByte, CleanupOf);
  }

  lemma LimitIso()
    ensures Iso(PutLimit, TakeLimit)
  {
    hide Iso, PutByte, TakeEnum;
    EnumIso(PutLimit, TakeLimit, LimitByte, LimitOf);
  }

  lemma EnumsIso()
    ensures Iso(PutStatus, TakeStatus) && Iso(PutStart, TakeStart) && Iso(PutCleanup, TakeCleanup)
    ensures Iso(PutLimit, TakeLimit)
  {
    hide Iso;
    StatesIso();
    CleanupIso();
    LimitIso();
  }

  lemma GuaranteeCode(g: Guarantee)
    ensures GuaranteeOf(GuaranteeByte(g)) == Some(g)
  {
  }

  lemma GuaranteeOfCode(b: byte)
    requires GuaranteeOf(b).Some?
    ensures GuaranteeByte(GuaranteeOf(b).value) == b
  {
  }

  lemma GuaranteeIso()
    ensures Iso(PutGuarantee, TakeGuarantee)
  {
    hide Iso, PutByte, TakeEnum, GuaranteeOf, GuaranteeByte;
    forall g
      ensures GuaranteeOf(GuaranteeByte(g)) == Some(g)
    {
      GuaranteeCode(g);
    }
    forall b | GuaranteeOf(b).Some?
      ensures GuaranteeByte(GuaranteeOf(b).value) == b
    {
      GuaranteeOfCode(b);
    }
    EnumIso(PutGuarantee, TakeGuarantee, GuaranteeByte, GuaranteeOf);
  }

  lemma FailureCode(f: FailureKind)
    ensures FailureOf(FailureByte(f)) == Some(f)
  {
  }

  lemma FailureOfCode(b: byte)
    requires FailureOf(b).Some?
    ensures FailureByte(FailureOf(b).value) == b
  {
  }

  lemma FailureIso()
    ensures Iso(PutFailure, TakeFailure)
  {
    hide Iso, PutByte, TakeEnum, FailureOf, FailureByte;
    forall f
      ensures FailureOf(FailureByte(f)) == Some(f)
    {
      FailureCode(f);
    }
    forall b | FailureOf(b).Some?
      ensures FailureByte(FailureOf(b).value) == b
    {
      FailureOfCode(b);
    }
    EnumIso(PutFailure, TakeFailure, FailureByte, FailureOf);
  }

  lemma OptionIso<T(!new)>(put: T -> Bytes, take: Bytes -> Parsed<T>, s: Bytes, v: Option<T>, rest: Bytes)
    requires Iso(put, take)
    ensures TakeOption(s, take) == Parsed(v, rest) <==> s == PutOption(v, put) + rest
  {
    hide PutBool, TakeBool;
    BoolIso();
    var tail := if v.Some? then put(v.value) + rest else rest;
    assert PutOption(v, put) + rest == PutBool(v.Some?) + tail;
    Both(PutBool, TakeBool, s, v.Some?, tail);
    if TakeOption(s, take) == Parsed(v, rest) {
      var flag := TakeBool(s);
      Both(PutBool, TakeBool, s, flag.value, flag.rest);
    }
  }

  // ---------------------------------------------------------------- guarantee lists

  /** `is_sorted` and no equal neighbours. */
  predicate IsCanonical(gs: seq<Guarantee>) {
    && (forall i | 0 < i < |gs| :: !GuaranteeLess(gs[i], gs[i - 1]))
    && (forall i | 0 < i < |gs| :: gs[i - 1] != gs[i])
  }

  lemma CanonicalIsCanon(gs: seq<Guarantee>)
    ensures IsCanonical(gs) <==> Canon(gs)
  {
    GuaranteeBytesDiffer();
    if IsCanonical(gs) {
      forall i, j | 0 <= i < j < |gs|
        ensures GuaranteeLess(gs[i], gs[j])
      {
        NeighboursSuffice(gs, i, j);
      }
    }
  }

  lemma {:induction false} NeighboursSuffice(gs: seq<Guarantee>, i: nat, j: nat)
    requires i < j < |gs| && IsCanonical(gs)
    ensures GuaranteeLess(gs[i], gs[j])
  {
    GuaranteeBytesDiffer();
    if i + 1 < j {
      NeighboursSuffice(gs, i, j - 1);
    }
  }

  function PutGuarantees(gs: seq<Guarantee>): Bytes {
    seq(|gs|, i requires 0 <= i < |gs| => GuaranteeByte(gs[i]))
  }

  function TakeGuarantees(s: Bytes, n: nat): (p: Parsed<seq<Guarantee>>)
    ensures p.Parsed? ==> |p.value| == n
  {
    if n == 0 then Parsed([], s) else
      var (g, s) :- TakeGuarantee(s);
      var (gs, s) :- TakeGuarantees(s, n - 1);
      Parsed([g] + gs, s)
  }

  lemma PutGuaranteesStep(gs: seq<Guarantee>, rest: Bytes)
    requires gs != []
    ensures PutGuarantees(gs) + rest == PutGuarantee(gs[0]) + (PutGuarantees(gs[1..]) + rest)
  {
  }

  lemma {:induction false} GuaranteesIso(s: Bytes, gs: seq<Guarantee>, rest: Bytes)
    ensures TakeGuarantees(s, |gs|) == Parsed(gs, rest) <==> s == PutGuarantees(gs) + rest
    decreases |gs|
  {
    if gs == [] {
      assert PutGuarantees(gs) + rest == rest;
    } else {
      hide TakeGuarantee, PutGuarantee, PutGuarantees;
      GuaranteeIso();
      var tail := PutGuarantees(gs[1..]) + rest;
      assert gs == [gs[0]] + gs[1..];
      PutGuaranteesStep(gs, rest);
      Both(PutGuarantee, TakeGuarantee, s, gs[0], tail);
      GuaranteesIso(tail, gs[1..], rest);
      if TakeGuarantees(s, |gs|) == Parsed(gs, rest) {
        var g := TakeGuarantee(s);
        var more := TakeGuarantees(g.rest, |gs| - 1);
        assert more.value == ([g.value] + more.value)[1..] == gs[1..];
        GuaranteesIso(g.rest, gs[1..], rest);
        Both(PutGuarantee, TakeGuarantee, s, g.value, g.rest);
      }
    }
  }

  const MAXIMUM_GUARANTEE_COUNT := 32

  /** A 16-bit count, and the guarantees. */
  function PutGuaranteeList(gs: seq<Guarantee>): Bytes {
    BE(|gs|, 2) + PutGuarantees(gs)
  }

  function TakeGuaranteeList(s: Bytes): (p: Parsed<seq<Guarantee>>)
    ensures p.Parsed? ==> |p.value| <= MAXIMUM_GUARANTEE_COUNT
  {
    var (count, s) :- TakeU16(s);
    if count > MAXIMUM_GUARANTEE_COUNT then Corrupt else TakeGuarantees(s, count)
  }

  lemma GuaranteeListIso(s: Bytes, gs: seq<Guarantee>, rest: Bytes)
    requires |gs| <= MAXIMUM_GUARANTEE_COUNT
    ensures TakeGuaranteeList(s) == Parsed(gs, rest) <==> s == PutGuaranteeList(gs) + rest
  {
    hide TakeU16, PutGuarantees, TakeGuarantees;
    U16Iso();
    var tail := PutGuarantees(gs) + rest;
    assert PutGuaranteeList(gs) + rest == PutU16(|gs|) + tail;
    Both<u16>(PutU16, TakeU16, s, |gs|, tail);
    GuaranteesIso(tail, gs, rest);
    if TakeGuaranteeList(s) == Parsed(gs, rest) {
      var n := TakeU16(s);
      GuaranteesIso(n.rest, gs, rest);
      Both<u16>(PutU16, TakeU16, s, n.value, n.rest);
    }
  }

  // ---------------------------------------------------------------- the checksum

  const CHECKSUM_SIZE := 32

  /** The payload followed by its packed checksum. */
  function Checked(sha: Sha, payload: Bytes): Bytes {
    payload + PutIdentity(Sha256Hex(sha, payload))
  }

  lemma IdentitySize(h: Hex)
    ensures |PutIdentity(h)| == 32
  {
  }

  /** The checksum comparison of both decoders, and the split it is made on, in one. */
  lemma ChecksumHolds(sha: Sha, b: Bytes, payload: Bytes)
    ensures b == Checked(sha, payload) <==>
      |b| >= CHECKSUM_SIZE && b[..|b| - CHECKSUM_SIZE] == payload
      && Unpack(b[|b| - CHECKSUM_SIZE..]) == Sha256Hex(sha, payload)
  {
    hide Pack, Unpack;
    var sum := Sha256Hex(sha, payload);
    if |b| >= CHECKSUM_SIZE {
      var n := |b| - CHECKSUM_SIZE;
      assert b == b[..n] + b[n..];
      PackUnpack(b[n..]);
    }
    UnpackPack(sum);
    if b == Checked(sha, payload) {
      assert b[..|payload|] == payload && b[|payload|..] == Pack(sum);
    }
  }
}
