/** The layout of an execution-result record (src/result_codec.cpp): header, process, streams, outcome. */
module Records {
  import opened Wrappers
  import opened Bytes
  import opened Model
  import opened Preimages
  import opened Wire

  const MAXIMUM_SIZE := 64 * 1024 * 1024
  const MAXIMUM_DIAGNOSTIC_SIZE := 1024 * 1024
  const MAXIMUM_MATERIAL_SIZE := MAXIMUM_SIZE - CHECKSUM_SIZE
  const MAGIC: Bytes := [0x50, 0x4b, 0x47, 0x45, 0x58, 0x52, 0x31, 0x00]
  const VERSION: u16 := 1

  datatype Header = Header(request: Hex, backend: Hex, evidence: Hex)
  datatype Process = Process(status: Status, start: StartState, observed: Option<Hex>, termination: Option<Termination>)
  datatype Conclusion = Conclusion(
    established: seq<Guarantee>, cleanup: Cleanup, failure: Option<FailureKind>, diagnostic: Text)
  datatype Record = Record(
    process: Process, stdout: Option<StreamCapture>, stderr: Option<StreamCapture>, outcome: Conclusion)

  // ---------------------------------------------------------------- header

  function PutHeader(h: Header): Bytes {
    MAGIC + (PutU16(VERSION) + (PutIdentity(h.request) + (PutIdentity(h.backend) + PutIdentity(h.evidence))))
  }

  function TakeHeader(s: Bytes): Parsed<Header> {
    var (magic, s) :- TakeBytes(s, 8);
    if magic != MAGIC then Corrupt else
      var (version, s) :- TakeU16(s);
      if version != VERSION then Corrupt else
        var (request, s) :- TakeIdentity(s);
        var (backend, s) :- TakeIdentity(s);
        var (evidence, s) :- TakeIdentity(s);
        Parsed(Header(request, backend, evidence), s)
  }

  lemma HeaderIso(s: Bytes, h: Header, rest: Bytes)
    ensures TakeHeader(s) == Parsed(h, rest) <==> s == PutHeader(h) + rest
  {
    hide PutU16, TakeU16, PutIdentity, TakeIdentity, Iso;
    U16Iso();
    IdentityIso();
    var t3 := PutIdentity(h.evidence) + rest;
    var t2 := PutIdentity(h.backend) + t3;
    var t1 := PutIdentity(h.request) + t2;
    var t0 := PutU16(VERSION) + t1;
    HeaderBytes(h, rest);
    BytesIso(s, MAGIC, t0);
    if s == PutHeader(h) + rest {
      Both<u16>(PutU16, TakeU16, t0, VERSION, t1);
      Both<Hex>(PutIdentity, TakeIdentity, t1, h.request, t2);
      Both<Hex>(PutIdentity, TakeIdentity, t2, h.backend, t3);
      Both<Hex>(PutIdentity, TakeIdentity, t3, h.evidence, rest);
    }
    if TakeHeader(s) == Parsed(h, rest) {
      var m := TakeBytes(s, 8);
      var v := TakeU16(m.rest);
      var a := TakeIdentity(v.rest);
      var b := TakeIdentity(a.rest);
      Both<Hex>(PutIdentity, TakeIdentity, b.rest, h.evidence, rest);
      Both<Hex>(PutIdentity, TakeIdentity, a.rest, h.backend, b.rest);
      Both<Hex>(PutIdentity, TakeIdentity, v.rest, h.request, a.rest);
      Both<u16>(PutU16, TakeU16, m.rest, VERSION, v.rest);
    }
  }

  lemma HeaderBytes(h: Header, rest: Bytes)
    ensures PutHeader(h) + rest == MAGIC + (PutU16(VERSION)
      + (PutIdentity(h.request) + (PutIdentity(h.backend) + (PutIdentity(h.evidence) + rest))))
  {
    hide PutU16, PutIdentity;
  }

  // ---------------------------------------------------------------- process

  /** decode_termination: the fields must fit the kind, and the kind's constructor must accept them. */
  function TakeTermination(s: Bytes): Parsed<Termination> {
    var (kind, s) :- TakeByte(s);
    var (value, s) :- TakeOption(s, TakeU32);
    var (limit, s) :- TakeOption(s, TakeLimit);
    match TerminationOf(kind, value, limit) case Ok(t) => Parsed(t, s) case Err(_) => Corrupt
  }

  function TerminationOf(kind: byte, value: Option<u32>, limit: Option<LimitKind>): Result<Termination> {
    match kind
    case 0 => if value.None? || limit.Some? then Err(CorruptEncoding) else MakeExited(value.value)
    case 1 => if value.None? || limit.Some? then Err(CorruptEncoding) else MakeSignaled(value.value)
    case 2 => if value.Some? || limit.Some? then Err(CorruptEncoding) else Ok(Cancelled)
    case 3 => if value.Some? || limit.None? then Err(CorruptEncoding) else Ok(Limited(limit.value))
    case _ => Err(CorruptEncoding)
  }

  lemma TerminationCodes(kind: byte, value: Option<u32>, limit: Option<LimitKind>, t: Termination)
    ensures TerminationOf(kind, value, limit) == Ok(t) <==>
      kind == t.KindByte() && value == t.Value() && limit == t.Limit()
  {
  }

  lemma TerminationBytes(t: Termination, rest: Bytes)
    ensures PutTermination(t) + rest
         == PutByte(t.KindByte()) + (PutOption(t.Value(), PutU32) + (PutOption(t.Limit(), PutLimit) + rest))
  {
    hide PutByte, PutOption;
    var c := [PutByte(t.KindByte()), PutOption(t.Value(), PutU32), PutOption(t.Limit(), PutLimit)];
    assert FlatFrom(c, 3) == [];
    assert FlatFrom(c, 2) == c[2] + [] == c[2];
    assert FlatFrom(c, 1) == c[1] + c[2];
    assert FlatFrom(c, 0) == c[0] + (c[1] + c[2]);
  }

  lemma TerminationFieldIso()
    ensures Iso(PutTermination, TakeTermination)
  {
    hide PutByte, TakeByte, TakeOption, PutOption, PutTermination, TerminationOf, Iso;
    ByteIso();
    U32Iso();
    EnumsIso();
    forall s, t, rest
      ensures TakeTermination(s) == Parsed(t, rest) <==> s == PutTermination(t) + rest
    {
      TerminationFieldBoth(s, t, rest);
    }
    IsoFromBoth(PutTermination, TakeTermination);
  }

  lemma IsoFromBoth<T(!new)>(put: T -> Bytes, take: Bytes -> Parsed<T>)
    requires forall s, v, rest :: take(s) == Parsed(v, rest) <==> s == put(v) + rest
    ensures Iso(put, take)
  {
  }

  lemma TerminationFieldBoth(s: Bytes, t: Termination, rest: Bytes)
    ensures TakeTermination(s) == Parsed(t, rest) <==> s == PutTermination(t) + rest
  {
    hide PutByte, TakeByte, TakeOption, PutOption, PutTermination, TerminationOf, Iso;
    ByteIso();
    U32Iso();
    EnumsIso();
    var t2 := PutOption(t.Limit(), PutLimit) + rest;
    var t1 := PutOption(t.Value(), PutU32) + t2;
    TerminationBytes(t, rest);
    if s == PutTermination(t) + rest {
      Both<byte>(PutByte, TakeByte, s, t.KindByte(), t1);
      OptionIso<u32>(PutU32, TakeU32, t1, t.Value(), t2);
      OptionIso(PutLimit, TakeLimit, t2, t.Limit(), rest);
      TerminationCodes(t.KindByte(), t.Value(), t.Limit(), t);
    }
    if TakeTermination(s) == Parsed(t, rest) {
      var k := TakeByte(s);
      var v := TakeOption(k.rest, TakeU32);
      var l := TakeOption(v.rest, TakeLimit);
      TerminationCodes(k.value, v.value, l.value, t);
      OptionIso(PutLimit, TakeLimit, v.rest, t.Limit(), rest);
      OptionIso<u32>(PutU32, TakeU32, k.rest, t.Value(), v.rest);
      Both<byte>(PutByte, TakeByte, s, t.KindByte(), k.rest);
    }
  }

  function PutProcess(p: Process): Bytes {
    PutStatus(p.status) + (PutStart(p.start)
    + (PutOption(p.observed, PutIdentity) + PutOption(p.termination, PutTermination)))
  }

  function TakeProcess(s: Bytes): Parsed<Process> {
    var (status, s) :- TakeStatus(s);
    var (start, s) :- TakeStart(s);
    var (observed, s) :- TakeOption(s, TakeIdentity);
    var (termination, s) :- TakeOption(s, TakeTermination);
    Parsed(Process(status, start, observed, termination), s)
  }

  lemma ProcessBytes(p: Process, rest: Bytes)
    ensures PutProcess(p) + rest == PutStatus(p.status) + (PutStart(p.start)
      + (PutOption(p.observed, PutIdentity) + (PutOption(p.termination, PutTermination) + rest)))
  {
    hide PutStatus, PutStart, PutOption;
  }

  lemma ProcessIso(s: Bytes, p: Process, rest: Bytes)
    ensures TakeProcess(s) == Parsed(p, rest) <==> s == PutProcess(p) + rest
  {
    hide PutStatus, TakeStatus, PutStart, TakeStart, PutOption, TakeOption, PutProcess, Iso;
    EnumsIso();
    IdentityIso();
    TerminationFieldIso();
    var t3 := PutOption(p.termination, PutTermination) + rest;
    var t2 := PutOption(p.observed, PutIdentity) + t3;
    var t1 := PutStart(p.start) + t2;
    ProcessBytes(p, rest);
    if s == PutProcess(p) + rest {
      Both(PutStatus, TakeStatus, s, p.status, t1);
      Both(PutStart, TakeStart, t1, p.start, t2);
      OptionIso<Hex>(PutIdentity, TakeIdentity, t2, p.observed, t3);
      OptionIso(PutTermination, TakeTermination, t3, p.termination, rest);
    }
    if TakeProcess(s) == Parsed(p, rest) {
      var a := TakeStatus(s);
      var b := TakeStart(a.rest);
      var c := TakeOption(b.rest, TakeIdentity);
      OptionIso(PutTermination, TakeTermination, c.rest, p.termination, rest);
      OptionIso<Hex>(PutIdentity, TakeIdentity, b.rest, p.observed, c.rest);
      Both(PutStart, TakeStart, a.rest, p.start, b.rest);
      Both(PutStatus, TakeStatus, s, p.status, a.rest);
    }
  }

  // ---------------------------------------------------------------- streams

  function PutStreamCapture(c: StreamCapture): Bytes {
    PutU64(c.count) + (PutIdentity(c.digest) + PutOption(c.material, PutText))
  }

  /** The material read is retained again; its count and digest must be the ones read. */
  function TakeStreamCapture(sha: Sha, s: Bytes): (p: Parsed<StreamCapture>)
    ensures p.Parsed? ==> StorableCapture(sha, p.value)
  {
    var (count, s) :- TakeU64(s);
    var (digest, s) :- TakeIdentity(s);
    var (retained, s) :- TakeBool(s);
    if !retained then Parsed(Observed(count, digest), s) else
      var (material, s) :- TakeText(s, MAXIMUM_MATERIAL_SIZE);
      var capture := Retained(sha, material);
      if capture.count != count || capture.digest != digest then Corrupt else Parsed(capture, s)
  }

  ghost predicate StorableCapture(sha: Sha, c: StreamCapture) {
    c.Valid(sha) && (c.material.Some? ==> |c.material.value| <= MAXIMUM_MATERIAL_SIZE)
  }

  lemma MaterialIso(s: Bytes, m: Option<Text>, rest: Bytes)
    requires m.Some? ==> |m.value| <= MAXIMUM_MATERIAL_SIZE
    ensures s == PutOption(m, PutText) + rest <==>
      TakeBool(s).Parsed? && TakeBool(s).value == m.Some?
      && (if m.Some? then TakeText(TakeBool(s).rest, MAXIMUM_MATERIAL_SIZE) == Parsed(m.value, rest)
          else TakeBool(s).rest == rest)
  {
    hide PutBool, TakeBool, PutText, TakeText;
    BoolIso();
    var tail := if m.Some? then PutText(m.value) + rest else rest;
    if m.Some? {
      assert PutOption<Text>(m, PutText) == PutBool(true) + PutText(m.value);
    }
    assert PutOption(m, PutText) + rest == PutBool(m.Some?) + tail;
    Both(PutBool, TakeBool, s, m.Some?, tail);
    if m.Some? {
      TextIso(tail, m.value, rest, MAXIMUM_MATERIAL_SIZE);
      if TakeBool(s).Parsed? {
        TextIso(TakeBool(s).rest, m.value, rest, MAXIMUM_MATERIAL_SIZE);
      }
    }
  }

  lemma StreamCaptureBytes(c: StreamCapture, rest: Bytes)
    ensures PutStreamCapture(c) + rest
         == PutU64(c.count) + (PutIdentity(c.digest) + (PutOption(c.material, PutText) + rest))
  {
    hide PutU64, PutIdentity, PutOption;
  }

  lemma StreamCaptureIso(sha: Sha, s: Bytes, c: StreamCapture, rest: Bytes)
    requires StorableCapture(sha, c)
    ensures TakeStreamCapture(sha, s) == Parsed(c, rest) <==> s == PutStreamCapture(c) + rest
  {
    hide PutU64, TakeU64, PutIdentity, TakeIdentity, TakeBool, PutOption, PutText, TakeText, PutStreamCapture, Iso;
    U64Iso();
    IdentityIso();
    var t2 := PutOption(c.material, PutText) + rest;
    var t1 := PutIdentity(c.digest) + t2;
    StreamCaptureBytes(c, rest);
    if s == PutStreamCapture(c) + rest {
      Both<u64>(PutU64, TakeU64, s, c.count, t1);
      Both<Hex>(PutIdentity, TakeIdentity, t1, c.digest, t2);
      MaterialIso(t2, c.material, rest);
    }
    if TakeStreamCapture(sha, s) == Parsed(c, rest) {
      var n := TakeU64(s);
      var d := TakeIdentity(n.rest);
      MaterialIso(d.rest, c.material, rest);
      Both<Hex>(PutIdentity, TakeIdentity, n.rest, c.digest, d.rest);
      Both<u64>(PutU64, TakeU64, s, c.count, n.rest);
    }
  }

  function PutCaptured(c: Option<StreamCapture>): Bytes {
    PutOption(c, PutStreamCapture)
  }

  function TakeCaptured(sha: Sha, s: Bytes): (p: Parsed<Option<StreamCapture>>)
    ensures p.Parsed? ==> Storable(sha, p.value)
  {
    var (present, s) :- TakeBool(s);
    if !present then Parsed(None, s) else
      var (c, s) :- TakeStreamCapture(sha, s);
      Parsed(Some(c), s)
  }

  ghost predicate Storable(sha: Sha, c: Option<StreamCapture>) {
    c.Some? ==> StorableCapture(sha, c.value)
  }

  lemma StreamIso(sha: Sha, s: Bytes, c: Option<StreamCapture>, rest: Bytes)
    requires Storable(sha, c)
    ensures TakeCaptured(sha, s) == Parsed(c, rest) <==> s == PutCaptured(c) + rest
  {
    hide PutBool, TakeBool, PutStreamCapture, TakeStreamCapture, StorableCapture;
    BoolIso();
    var tail := if c.Some? then PutStreamCapture(c.value) + rest else rest;
    assert PutCaptured(c) + rest == PutBool(c.Some?) + tail;
    Both(PutBool, TakeBool, s, c.Some?, tail);
    if c.Some? {
      StreamCaptureIso(sha, tail, c.value, rest);
      if TakeBool(s).Parsed? {
        StreamCaptureIso(sha, TakeBool(s).rest, c.value, rest);
      }
    }
  }

  // ---------------------------------------------------------------- outcome

  function TakeCanonical(s: Bytes): (p: Parsed<seq<Guarantee>>)
    ensures p.Parsed? ==> IsCanonical(p.value) && |p.value| <= MAXIMUM_GUARANTEE_COUNT
  {
    var (gs, s) :- TakeGuaranteeList(s);
    if !IsCanonical(gs) then Corrupt else Parsed(gs, s)
  }

  function PutConclusion(o: Conclusion): Bytes {
    PutGuaranteeList(o.established) + (PutCleanup(o.cleanup)
    + (PutOption(o.failure, PutFailure) + PutText(o.diagnostic)))
  }

  function TakeConclusion(s: Bytes): (p: Parsed<Conclusion>)
    ensures p.Parsed? ==> StorableConclusion(p.value)
  {
    var (established, s) :- TakeCanonical(s);
    var (cleanup, s) :- TakeCleanup(s);
    var (failure, s) :- TakeOption(s, TakeFailure);
    var (diagnostic, s) :- TakeText(s, MAXIMUM_DIAGNOSTIC_SIZE);
    Parsed(Conclusion(established, cleanup, failure, diagnostic), s)
  }

  predicate StorableConclusion(o: Conclusion) {
    && IsCanonical(o.established) && |o.established| <= MAXIMUM_GUARANTEE_COUNT
    && |o.diagnostic| <= MAXIMUM_DIAGNOSTIC_SIZE
  }

  lemma ConclusionBytes(o: Conclusion, rest: Bytes)
    ensures PutConclusion(o) + rest == PutGuaranteeList(o.established) + (PutCleanup(o.cleanup)
      + (PutOption(o.failure, PutFailure) + (PutText(o.diagnostic) + rest)))
  {
    hide PutGuaranteeList, PutCleanup, PutOption, PutText;
  }

  lemma ConclusionIso(s: Bytes, o: Conclusion, rest: Bytes)
    requires StorableConclusion(o)
    ensures TakeConclusion(s) == Parsed(o, rest) <==> s == PutConclusion(o) + rest
  {
    hide PutGuaranteeList, TakeGuaranteeList, PutCleanup, TakeCleanup, PutOption, TakeOption, PutText, TakeText,
         PutConclusion, IsCanonical, Iso;
    EnumsIso();
    FailureIso();
    var t3 := PutText(o.diagnostic) + rest;
    var t2 := PutOption(o.failure, PutFailure) + t3;
    var t1 := PutCleanup(o.cleanup) + t2;
    ConclusionBytes(o, rest);
    if s == PutConclusion(o) + rest {
      GuaranteeListIso(s, o.established, t1);
      Both(PutCleanup, TakeCleanup, t1, o.cleanup, t2);
      OptionIso(PutFailure, TakeFailure, t2, o.failure, t3);
      TextIso(t3, o.diagnostic, rest, MAXIMUM_DIAGNOSTIC_SIZE);
    }
    if TakeConclusion(s) == Parsed(o, rest) {
      var a := TakeCanonical(s);
      var b := TakeCleanup(a.rest);
      var c := TakeOption(b.rest, TakeFailure);
      TextIso(c.rest, o.diagnostic, rest, MAXIMUM_DIAGNOSTIC_SIZE);
      OptionIso(PutFailure, TakeFailure, b.rest, o.failure, c.rest);
      Both(PutCleanup, TakeCleanup, a.rest, o.cleanup, b.rest);
      GuaranteeListIso(s, o.established, a.rest);
    }
  }

  // ---------------------------------------------------------------- the record

  function PutRecord(r: Record): Bytes {
    PutProcess(r.process) + (PutCaptured(r.stdout) + (PutCaptured(r.stderr) + PutConclusion(r.outcome)))
  }

  function TakeRecord(sha: Sha, s: Bytes): (p: Parsed<Record>)
    ensures p.Parsed? ==> StorableRecord(sha, p.value)
  {
    var (process, s) :- TakeProcess(s);
    var (stdout, s) :- TakeCaptured(sha, s);
    var (stderr, s) :- TakeCaptured(sha, s);
    var (outcome, s) :- TakeConclusion(s);
    Parsed(Record(process, stdout, stderr, outcome), s)
  }

  /** The records the format can carry. */
  ghost predicate StorableRecord(sha: Sha, r: Record) {
    Storable(sha, r.stdout) && Storable(sha, r.stderr) && StorableConclusion(r.outcome)
  }

  lemma RecordBytes(r: Record, rest: Bytes)
    ensures PutRecord(r) + rest == PutProcess(r.process)
      + (PutCaptured(r.stdout) + (PutCaptured(r.stderr) + (PutConclusion(r.outcome) + rest)))
  {
    hide PutProcess, PutCaptured, PutConclusion;
  }

  /** Reading a record inverts writing it, and a byte string that reads as a record is that record's. */
  lemma RecordIso(sha: Sha, s: Bytes, r: Record, rest: Bytes)
    requires StorableRecord(sha, r)
    ensures TakeRecord(sha, s) == Parsed(r, rest) <==> s == PutRecord(r) + rest
  {
    hide PutProcess, TakeProcess, PutCaptured, TakeCaptured, PutConclusion, TakeConclusion, PutRecord, Storable,
         StorableConclusion;
    var t3 := PutConclusion(r.outcome) + rest;
    var t2 := PutCaptured(r.stderr) + t3;
    var t1 := PutCaptured(r.stdout) + t2;
    RecordBytes(r, rest);
    if s == PutRecord(r) + rest {
      ProcessIso(s, r.process, t1);
      StreamIso(sha, t1, r.stdout, t2);
      StreamIso(sha, t2, r.stderr, t3);
      ConclusionIso(t3, r.outcome, rest);
    }
    if TakeRecord(sha, s) == Parsed(r, rest) {
      var a := TakeProcess(s);
      var b := TakeCaptured(sha, a.rest);
      var c := TakeCaptured(sha, b.rest);
      ConclusionIso(c.rest, r.outcome, rest);
      StreamIso(sha, b.rest, r.stderr, c.rest);
      StreamIso(sha, a.rest, r.stdout, b.rest);
      ProcessIso(s, r.process, a.rest);
    }
  }
}
