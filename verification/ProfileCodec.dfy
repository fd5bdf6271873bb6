/** The capability-profile codec (src/profile_codec.cpp): total on sealed profiles, exact on byte strings. */
module ProfileCodec {
  import opened Wrappers
  import opened Bytes
  import opened Model
  import opened Preimages
  import opened Profiles
  import opened Wire
  import opened Streams

  const MAXIMUM_PROFILE_SIZE := 4096
  const PROFILE_MAGIC: Bytes := [0x50, 0x4b, 0x47, 0x45, 0x58, 0x50, 0x31, 0x00]
  const PROFILE_VERSION: u16 := 1

  datatype ProfileRecord = ProfileRecord(backend: Hex, identity: Hex, guarantees: seq<Guarantee>)

  function RecordOf(p: Profile): ProfileRecord {
    ProfileRecord(p.backend, p.identity, p.guarantees)
  }

  function PutProfile(r: ProfileRecord): Bytes {
    PROFILE_MAGIC + (PutU16(PROFILE_VERSION)
    + (PutIdentity(r.backend) + (PutIdentity(r.identity) + PutGuaranteeList(r.guarantees))))
  }

  function TakeProfile(s: Bytes): (p: Parsed<ProfileRecord>)
    ensures p.Parsed? ==> |p.value.guarantees| <= MAXIMUM_GUARANTEE_COUNT
  {
    var (magic, s) :- TakeBytes(s, |PROFILE_MAGIC|);
    if magic != PROFILE_MAGIC then Corrupt else
      var (version, s) :- TakeU16(s);
      if version != PROFILE_VERSION then Corrupt else
        var (backend, s) :- TakeIdentity(s);
        var (identity, s) :- TakeIdentity(s);
        var (guarantees, s) :- TakeGuaranteeList(s);
        Parsed(ProfileRecord(backend, identity, guarantees), s)
  }

  /** encode_backend_capability_profile. */
  function Encode(sha: Sha, p: Profile): Result<Bytes> {
    var payload := PutProfile(RecordOf(p));
    if |p.guarantees| > MAXIMUM_GUARANTEE_COUNT || |payload| + CHECKSUM_SIZE > MAXIMUM_PROFILE_SIZE
    then Err(InvalidCapabilityProfile)
    else Ok(Checked(sha, payload))
  }

  /** The try block of the decoder. The guarantees read are sealed as they come, in any order. */
  function Attempt(sha: Sha, b: Bytes): Result<Profile> {
    var least := |PROFILE_MAGIC| + 2 + CHECKSUM_SIZE;
    :- Need(|b| <= MAXIMUM_PROFILE_SIZE, CorruptEncoding);
    :- Need(|b| >= least, CorruptEncoding);
    var payload := b[..|b| - CHECKSUM_SIZE];
    :- Need(Unpack(b[|b| - CHECKSUM_SIZE..]) == Sha256Hex(sha, payload), CorruptEncoding);
    var record := TakeProfile(payload);
    :- Need(record.Parsed? && record.rest == [], CorruptEncoding);
    var decoded :- SealProfile(sha, record.value.backend, record.value.guarantees);
    :- Need(decoded.identity == record.value.identity, CorruptEncoding);
    var canonical :- Encode(sha, decoded);
    if canonical == b then Ok(decoded) else Err(CorruptEncoding)
  }

  /** Its handler: two codes pass, any other becomes corrupt_encoding. */
  function Caught(r: Result<Profile>): Result<Profile> {
    if r.Err? && !r.code.CorruptEncoding? && !r.code.IdentityFailed? then Err(CorruptEncoding) else r
  }

  /** decode_backend_capability_profile. */
  function Decode(sha: Sha, b: Bytes): Result<Profile> {
    Caught(Attempt(sha, b))
  }

  // ---------------------------------------------------------------- reading inverts writing

  lemma ProfileRecordBytes(r: ProfileRecord, rest: Bytes)
    ensures PutProfile(r) + rest == PROFILE_MAGIC + (PutU16(PROFILE_VERSION)
      + (PutIdentity(r.backend) + (PutIdentity(r.identity) + (PutGuaranteeList(r.guarantees) + rest))))
  {
    hide PutU16, PutIdentity, PutGuaranteeList;
  }

  /** Reading a profile record inverts writing it, and nothing else reads as that record. */
  lemma ProfileBoth(s: Bytes, r: ProfileRecord, rest: Bytes)
    requires |r.guarantees| <= MAXIMUM_GUARANTEE_COUNT
    ensures TakeProfile(s) == Parsed(r, rest) <==> s == PutProfile(r) + rest
  {
    hide PutU16, TakeU16, PutIdentity, TakeIdentity, PutGuaranteeList, TakeGuaranteeList, Iso;
    U16Iso();
    IdentityIso();
    var t3 := PutGuaranteeList(r.guarantees) + rest;
    var t2 := PutIdentity(r.identity) + t3;
    var t1 := PutIdentity(r.backend) + t2;
    var t0 := PutU16(PROFILE_VERSION) + t1;
    ProfileRecordBytes(r, rest);
    BytesIso(s, PROFILE_MAGIC, t0);
    if s == PutProfile(r) + rest {
      Both<u16>(PutU16, TakeU16, t0, PROFILE_VERSION, t1);
      Both<Hex>(PutIdentity, TakeIdentity, t1, r.backend, t2);
      Both<Hex>(PutIdentity, TakeIdentity, t2, r.identity, t3);
      GuaranteeListIso(t3, r.guarantees, rest);
    }
    if TakeProfile(s) == Parsed(r, rest) {
      var m := TakeBytes(s, 8);
      var v := TakeU16(m.rest);
      var a := TakeIdentity(v.rest);
      var b := TakeIdentity(a.rest);
      GuaranteeListIso(b.rest, r.guarantees, rest);
      Both<Hex>(PutIdentity, TakeIdentity, a.rest, r.identity, b.rest);
      Both<Hex>(PutIdentity, TakeIdentity, v.rest, r.backend, a.rest);
      Both<u16>(PutU16, TakeU16, m.rest, PROFILE_VERSION, v.rest);
    }
  }

  lemma ProfileSize(r: ProfileRecord)
    ensures |PutProfile(r)| == 76 + |r.guarantees|
  {
    hide Pack, PutGuarantees;
    GuaranteesSize(r.guarantees);
  }

  lemma GuaranteesSize(gs: seq<Guarantee>)
    ensures |PutGuarantees(gs)| == |gs|
  {
  }

  lemma SealedIsCanon(sha: Sha, p: Profile)
    requires SealedProfile(sha, p)
    ensures Canon(p.guarantees) && |p.guarantees| <= 18
  {
    CanonIsShort(p.guarantees);
  }

  /** Every sealed profile is encoded, in 108 bytes and one for each guarantee: never more than 126. */
  lemma EncoderIsTotal(sha: Sha, p: Profile)
    requires SealedProfile(sha, p)
    ensures Encode(sha, p).Ok?
    ensures |Encode(sha, p).value| == 108 + |p.guarantees| <= 126
  {
    hide SealedProfile, PutProfile, Pack;
    SealedIsCanon(sha, p);
    ProfileSize(RecordOf(p));
  }

  /** The payload, byte for byte: magic, version, the two identities, the count and one byte for each guarantee. */
  function Layout(p: Profile): Bytes {
    Ascii("PKGEXP1") + ([0, 0, 1] + (Pack(p.backend) + (Pack(p.identity)
    + (BE(|p.guarantees|, 2) + PutGuarantees(p.guarantees)))))
  }

  /** What the encoder writes is that payload and the 32 bytes of its digest. */
  lemma EncodingInFull(sha: Sha, p: Profile)
    requires SealedProfile(sha, p)
    ensures Encode(sha, p) == Ok(Layout(p) + sha(Layout(p)))
  {
    hide SealedProfile, PutProfile, Layout;
    EncoderIsTotal(sha, p);
    LayoutIsPayload(p);
    PackUnpack(sha(Layout(p)));
  }

  lemma LayoutIsPayload(p: Profile)
    ensures PutProfile(RecordOf(p)) == Layout(p)
  {
    hide Pack, BE, PutGuarantees, Ascii;
    MagicIsLaidOut();
    var ids := Pack(p.backend) + (Pack(p.identity) + (BE(|p.guarantees|, 2) + PutGuarantees(p.guarantees)));
    assert PROFILE_MAGIC + (PutU16(PROFILE_VERSION) + ids) == (PROFILE_MAGIC + PutU16(PROFILE_VERSION)) + ids;
    assert Ascii("PKGEXP1") + ([0, 0, 1] + ids) == (Ascii("PKGEXP1") + [0, 0, 1]) + ids;
  }

  lemma MagicIsLaidOut()
    ensures PROFILE_MAGIC + PutU16(PROFILE_VERSION) == Ascii("PKGEXP1") + [0, 0, 1]
  {
    BigEndianTwo(1);
  }

  /** Decoding an encoded profile returns it. */
  lemma RoundTrip(sha: Sha, p: Profile, b: Bytes)
    requires SealedProfile(sha, p) && Encode(sha, p) == Ok(b)
    ensures Decode(sha, b) == Ok(p)
  {
    hide SealedProfile, SealProfile, PutProfile, TakeProfile, PutIdentity, Unpack, Sha256Hex;
    var r := RecordOf(p);
    EncoderIsTotal(sha, p);
    ProfileBoth(PutProfile(r), r, []);
    assert PutProfile(r) + [] == PutProfile(r);
    ChecksumHolds(sha, b, PutProfile(r));
    ProfileIsSealed(sha, p);
  }

  lemma DecoderOutcome(sha: Sha, b: Bytes)
    ensures Decode(sha, b).Ok? ==>
      SealedProfile(sha, Decode(sha, b).value) && Encode(sha, Decode(sha, b).value) == Ok(b)
    ensures Decode(sha, b).Err? ==> Decode(sha, b).code == CorruptEncoding
  {
    hide SealProfile, SealedProfile, TakeProfile, Encode, Unpack, Sha256Hex;
    if |b| >= CHECKSUM_SIZE {
      var record := TakeProfile(b[..|b| - CHECKSUM_SIZE]);
      if record.Parsed? {
        var sealed := SealProfile(sha, record.value.backend, record.value.guarantees);
        SealingOutcome(sha, record.value.backend, record.value.guarantees);
        if sealed.Ok? {
          EncoderIsTotal(sha, sealed.value);
        }
      }
    }
  }

  /** Bytes are accepted exactly when they encode a sealed profile; anything else is corrupt. */
  lemma ExactImage(sha: Sha, b: Bytes, p: Profile)
    ensures Decode(sha, b) == Ok(p) <==> SealedProfile(sha, p) && Encode(sha, p) == Ok(b)
    ensures Decode(sha, b).Err? ==> Decode(sha, b).code == CorruptEncoding
  {
    hide Decode, Encode, SealedProfile;
    DecoderOutcome(sha, b);
    if SealedProfile(sha, p) && Encode(sha, p) == Ok(b) {
      RoundTrip(sha, p, b);
    }
  }

  lemma SealingOutcome(sha: Sha, backend: Hex, gs: seq<Guarantee>)
    ensures var s := SealProfile(sha, backend, gs);
      (s.Ok? ==> SealedProfile(sha, s.value)) && (s.Err? ==> s.code == InvalidCapabilityProfile)
  {
    hide Identity, LimitShape;
    ProfileIsCanonical(sha, backend, gs, gs);
  }

  /** The encoding forgets the order and the repetitions the guarantees were first given in. */
  lemma EncodingIsCanonical(sha: Sha, backend: Hex, a: seq<Guarantee>, b: seq<Guarantee>)
    requires forall g :: g in a <==> g in b
    requires LimitShape(a)
    ensures SealProfile(sha, backend, a).Ok? && SealProfile(sha, backend, b).Ok?
    ensures Encode(sha, SealProfile(sha, backend, a).value) == Encode(sha, SealProfile(sha, backend, b).value)
    ensures Decode(sha, Encode(sha, SealProfile(sha, backend, a).value).value) == SealProfile(sha, backend, b)
  {
    hide SealProfile, Encode, Decode;
    ProfileIsCanonical(sha, backend, a, b);
    EncoderIsTotal(sha, SealProfile(sha, backend, a).value);
    RoundTrip(sha, SealProfile(sha, backend, a).value, Encode(sha, SealProfile(sha, backend, a).value).value);
  }

  /** A record that lists the same guarantees in another order, or twice, is not accepted. */
  lemma OnlySortedListsAreAccepted(sha: Sha, b: Bytes, r: ProfileRecord)
    requires |r.guarantees| <= MAXIMUM_GUARANTEE_COUNT && b == Checked(sha, PutProfile(r))
    ensures Decode(sha, b).Ok? <==>
      Canon(r.guarantees) && LimitShape(r.guarantees)
      && r.identity == Identity(sha, ProfileImage(r.backend, r.guarantees))
  {
    hide Decode, Checked, Identity, LimitShape, Canon;
    if Decode(sha, b).Ok? {
      AcceptedIsSealed(sha, b, r);
    }
    if Canon(r.guarantees) && LimitShape(r.guarantees)
       && r.identity == Identity(sha, ProfileImage(r.backend, r.guarantees)) {
      SealedIsAccepted(sha, b, r);
    }
  }

  lemma AcceptedIsSealed(sha: Sha, b: Bytes, r: ProfileRecord)
    requires |r.guarantees| <= MAXIMUM_GUARANTEE_COUNT && b == Checked(sha, PutProfile(r)) && Decode(sha, b).Ok?
    ensures SealedProfile(sha, Profile(r.backend, r.guarantees, r.identity))
  {
    hide Decode, Checked, PutProfile, SealedProfile;
    var p := Decode(sha, b).value;
    ExactImage(sha, b, p);
    SealedIsCanon(sha, p);
    SameRecord(sha, r, RecordOf(p));
  }

  lemma SealedIsAccepted(sha: Sha, b: Bytes, r: ProfileRecord)
    requires |r.guarantees| <= MAXIMUM_GUARANTEE_COUNT && b == Checked(sha, PutProfile(r))
    requires SealedProfile(sha, Profile(r.backend, r.guarantees, r.identity))
    ensures Decode(sha, b).Ok?
  {
    hide Decode, Checked, PutProfile, SealedProfile;
    var p := Profile(r.backend, r.guarantees, r.identity);
    EncoderIsTotal(sha, p);
    assert RecordOf(p) == r;
    RoundTrip(sha, p, b);
  }

  lemma SameRecord(sha: Sha, a: ProfileRecord, b: ProfileRecord)
    requires |a.guarantees| <= MAXIMUM_GUARANTEE_COUNT && |b.guarantees| <= MAXIMUM_GUARANTEE_COUNT
    requires Checked(sha, PutProfile(a)) == Checked(sha, PutProfile(b))
    ensures a == b
  {
    hide PutProfile, TakeProfile, Unpack, Sha256Hex, PutIdentity;
    ChecksumHolds(sha, Checked(sha, PutProfile(a)), PutProfile(a));
    ChecksumHolds(sha, Checked(sha, PutProfile(b)), PutProfile(b));
    ProfileBoth(PutProfile(a), a, []);
    ProfileBoth(PutProfile(b), b, []);
    assert PutProfile(a) + [] == PutProfile(a) && PutProfile(b) + [] == PutProfile(b);
  }

  // ---------------------------------------------------------------- the codec as it runs

  /** The guarantee count is tested just before it is written. */
  method WriteProfile(w: Writer, r: ProfileRecord) returns (outcome: Outcome)
    requires w.Valid()
    modifies w
    ensures w.Valid() && outcome == Need(|r.guarantees| <= MAXIMUM_GUARANTEE_COUNT, InvalidCapabilityProfile)
    ensures outcome.Pass? ==> w.Wrote(PutProfile(r))
  {
    hide PutIdentity, PutGuarantees;
    w.Raw(PROFILE_MAGIC);
    w.U16(PROFILE_VERSION);
    w.Identity(r.backend);
    w.Identity(r.identity);
    if |r.guarantees| > MAXIMUM_GUARANTEE_COUNT {
      return Fail(InvalidCapabilityProfile);
    }
    w.U16(|r.guarantees|);
    WriteGuarantees(w, r.guarantees);
    ghost var s := old(w.written) + PROFILE_MAGIC + PutU16(PROFILE_VERSION) + PutIdentity(r.backend)
                   + PutIdentity(r.identity);
    Regroup2(s, PutU16(|r.guarantees|), PutGuarantees(r.guarantees));
    Regroup5(old(w.written), PROFILE_MAGIC, PutU16(PROFILE_VERSION), PutIdentity(r.backend), PutIdentity(r.identity),
             PutGuaranteeList(r.guarantees));
    return Pass;
  }

  method EncodeProfile(sha: Sha, p: Profile) returns (r: Result<Bytes>)
    ensures r == Encode(sha, p)
  {
    hide PutProfile, PutIdentity, Sha256Hex;
    var w := new Writer(MAXIMUM_PROFILE_SIZE);
    :- WriteProfile(w, RecordOf(p));
    var checksum := Sha256Hex(sha, w.output);
    assert w.written == PutProfile(RecordOf(p));
    IdentitySize(checksum);
    w.Identity(checksum);
    if w.thrown {
      return Err(InvalidCapabilityProfile);
    }
    return Ok(w.output);
  }

  method ReadProfile(input: Reader) returns (r: Result<ProfileRecord>)
    requires input.Valid()
    modifies input`offset
    ensures input.Read(TakeProfile(old(input.Rest())), r)
  {
    hide TakeU16, TakeIdentity, TakeGuarantees;
    :- ReadMagic(input, PROFILE_MAGIC);
    var version :- input.U16();
    if version != PROFILE_VERSION {
      return Err(CorruptEncoding);
    }
    var backend :- input.Identity();
    var identity :- input.Identity();
    var count :- input.U16();
    if count > MAXIMUM_GUARANTEE_COUNT {
      return Err(CorruptEncoding);
    }
    var guarantees :- ReadGuarantees(input, count);
    return Ok(ProfileRecord(backend, identity, guarantees));
  }

  method DecodeUncaught(sha: Sha, encoding: Bytes) returns (r: Result<Profile>)
    ensures r == Attempt(sha, encoding)
  {
    hide TakeProfile, SealProfile, Encode, Sha256Hex;
    if |encoding| > MAXIMUM_PROFILE_SIZE || |encoding| < |PROFILE_MAGIC| + 2 + CHECKSUM_SIZE {
      return Err(CorruptEncoding);
    }
    var payloadSize := |encoding| - CHECKSUM_SIZE;
    var retained := HexEncodeBytes(encoding[payloadSize..]);
    if retained != Sha256Hex(sha, encoding[..payloadSize]) {
      return Err(CorruptEncoding);
    }
    var input := new Reader(encoding, payloadSize);
    var record :- ReadProfile(input);
    :- input.Finish();
    var decoded :- SealCapabilityProfile(sha, record.backend, record.guarantees);
    if decoded.identity != record.identity {
      return Err(CorruptEncoding);
    }
    var canonical :- EncodeProfile(sha, decoded);
    if canonical != encoding {
      return Err(CorruptEncoding);
    }
    return Ok(decoded);
  }

  method DecodeProfile(sha: Sha, encoding: Bytes) returns (r: Result<Profile>)
    ensures r == Decode(sha, encoding)
  {
    r := DecodeUncaught(sha, encoding);
    if r.Err? && !r.code.CorruptEncoding? && !r.code.IdentityFailed? {
      return Err(CorruptEncoding);
    }
  }
}
