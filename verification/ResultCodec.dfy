/** The execution-result codec (src/result_codec.cpp): what it writes, and exactly what it reads back. */
module ResultCodec {
  import opened Wrappers
  import opened Bytes
  import opened Model
  import opened Preimages
  import opened Requests
  import opened Profiles
  import opened Control
  import opened Results
  import opened Evidence
  import opened Wire
  import opened Records

  // ---------------------------------------------------------------- encoding

  function HeaderOf(r: ExecutionResult): Header {
    Header(r.request.identity, r.backend.identity, r.identity)
  }

  function RecordOf(r: ExecutionResult): Record {
    Record(Process(r.status, r.start, r.observed, r.termination), r.stdout, r.stderr,
           Conclusion(r.established, r.cleanup, r.failure, r.diagnostic))
  }

  function Payload(h: Header, rec: Record): Bytes {
    PutHeader(h) + PutRecord(rec)
  }

  /** encode_execution_result. */
  function Encode(sha: Sha, r: ExecutionResult): Result<Bytes> {
    var payload := Payload(HeaderOf(r), RecordOf(r));
    if |r.established| > MAXIMUM_GUARANTEE_COUNT || |r.diagnostic| > MAXIMUM_DIAGNOSTIC_SIZE
       || |payload| + CHECKSUM_SIZE > MAXIMUM_SIZE
    then Err(InconsistentResult)
    else Ok(Checked(sha, payload))
  }

  // ---------------------------------------------------------------- decoding

  /**
   rebuild_result. The termination read is only looked at for presence when the record claims a
   success or a cancellation. A cancellation is authorised by a new source of the request, whose
   first transition always succeeds.
   */
  function Rebuild(sha: Sha, q: Request, p: Profile, rec: Record): Result<ExecutionResult> {
    var Record(process, stdout, stderr, outcome) := rec;
    var token := Token(q.identity, true);
    if process.status.Succeeded? then
      :- Need(process.start.Started? && process.observed.Some? && process.termination.Some? && outcome.failure.None?
              && outcome.cleanup.Verified?, CorruptEncoding);
      Success(sha, q, p, process.observed.value, stdout, stderr, outcome.established, outcome.diagnostic)
    else
      :- Need(outcome.failure.Some?, CorruptEncoding);
      if process.start.NotStarted? then
        :- Need(process.observed.None? && process.termination.None? && stdout.None? && stderr.None?
                && outcome.cleanup.NotRequired?, CorruptEncoding);
        if outcome.failure.value.CancelledFailure? then
          :- Need(Enabled(q), InvalidControl);
          CancelledBeforeStart(sha, q, p, token, outcome.established, outcome.diagnostic)
        else
          FailedBeforeStart(sha, q, p, outcome.failure.value, outcome.established, outcome.diagnostic)
      else
        :- Need(process.observed.Some? && process.termination.Some?, CorruptEncoding);
        if outcome.failure.value.CancelledFailure? then
          :- Need(Enabled(q), InvalidControl);
          CancelledAfterStart(sha, q, p, token, process.observed.value, stdout, stderr, outcome.established,
                              outcome.cleanup, outcome.diagnostic)
        else
          FailedAfterStart(sha, q, p, process.observed.value, process.termination.value, stdout, stderr,
                           outcome.established, outcome.cleanup, outcome.failure.value, outcome.diagnostic)
  }

  /** The try block of the decoder after the checksum and the header, with the codes as they are thrown. */
  function AttemptBody(sha: Sha, b: Bytes, h: Header, body: Bytes, q: Request, p: Profile): Result<ExecutionResult> {
    var record := TakeRecord(sha, body);
    :- Need(record.Parsed? && record.rest == [], CorruptEncoding);
    var r :- Rebuild(sha, q, p, record.value);
    :- Need(r.identity == h.evidence, CorruptEncoding);
    var canonical :- Encode(sha, r);
    if canonical == b then Ok(r) else Err(CorruptEncoding)
  }

  /** The whole try block. */
  function Attempt(sha: Sha, b: Bytes, q: Request, p: Profile): Result<ExecutionResult> {
    var least := |MAGIC| + 2 + CHECKSUM_SIZE;
    :- Need(|b| <= MAXIMUM_SIZE, CorruptEncoding);
    :- Need(|b| >= least, CorruptEncoding);
    var payload := b[..|b| - CHECKSUM_SIZE];
    :- Need(Unpack(b[|b| - CHECKSUM_SIZE..]) == Sha256Hex(sha, payload), CorruptEncoding);
    var header := TakeHeader(payload);
    :- Need(header.Parsed?, CorruptEncoding);
    :- Need(q.identity == header.value.request, AuthorityMismatch);
    :- Need(p.identity == header.value.backend, AuthorityMismatch);
    AttemptBody(sha, b, header.value, header.rest, q, p)
  }

  /** Its handler: three codes pass, any other becomes corrupt_encoding. */
  function Rethrown(code: ErrorCode): ErrorCode {
    if code.CorruptEncoding? || code.AuthorityMismatch? || code.IdentityFailed? then code else CorruptEncoding
  }

  function Caught(r: Result<ExecutionResult>): Result<ExecutionResult> {
    if r.Err? then Err(Rethrown(r.code)) else r
  }

  function DecodeBody(sha: Sha, b: Bytes, h: Header, body: Bytes, q: Request, p: Profile): Result<ExecutionResult> {
    Caught(AttemptBody(sha, b, h, body, q, p))
  }

  /** decode_execution_result. */
  function Decode(sha: Sha, b: Bytes, q: Request, p: Profile): Result<ExecutionResult> {
    Caught(Attempt(sha, b, q, p))
  }

  // ---------------------------------------------------------------- rebuilding

  /** What the encoder writes about an admissible result satisfies every guard of the factories again. */
  lemma RebuildRestores(sha: Sha, r: ExecutionResult)
    requires Admissible(sha, r)
    ensures Rebuild(sha, r.request, r.backend, RecordOf(r)) == Ok(r)
  {
    AdmissibleIsMade(sha, r);
    RebuildIsCall(sha, r);
  }

  lemma RebuildIsCall(sha: Sha, r: ExecutionResult)
    requires Admissible(sha, r)
    ensures r.start.Started? ==> r.observed.Some? && r.termination.Some?
    ensures r.start.NotStarted? ==> r.failure.Some?
    ensures Rebuild(sha, r.request, r.backend, RecordOf(r)) == Make(sha, CallFor(r))
  {
    hide SealedRequest, SealedProfile, ValidCapture, LimitShape, Includes, Supports, Success, FailedBeforeStart,
         CancelledBeforeStart, CancelledAfterStart, FailedAfterStart, EstablishesAllBut, MissingStreams, Identity,
         StreamsAsRequested, LogCaptureEvidence;
  }

  /** The factory call a rebuild ends in, when its own shape checks pass. */
  function RebuildCall(q: Request, p: Profile, rec: Record): Option<FactoryCall> {
    var Record(process, stdout, stderr, outcome) := rec;
    var token := Token(q.identity, true);
    if process.status.Succeeded? then
      if process.start.Started? && process.observed.Some? && process.termination.Some? && outcome.failure.None?
         && outcome.cleanup.Verified?
      then Some(CallSucceeded(q, p, process.observed.value, stdout, stderr, outcome.established, outcome.diagnostic))
      else None
    else if outcome.failure.None? then None
    else if process.start.NotStarted? then
      if !(process.observed.None? && process.termination.None? && stdout.None? && stderr.None?
           && outcome.cleanup.NotRequired?)
      then None
      else if outcome.failure.value.CancelledFailure? then
        if Enabled(q) then Some(CallCancelledBeforeStart(q, p, token, outcome.established, outcome.diagnostic))
        else None
      else
        Some(CallFailedBeforeStart(q, p, outcome.failure.value, outcome.established, outcome.diagnostic))
    else if !(process.observed.Some? && process.termination.Some?) then None
    else if outcome.failure.value.CancelledFailure? then
      if Enabled(q) then
        Some(CallCancelledAfterStart(q, p, token, process.observed.value, stdout, stderr, outcome.established,
                                     outcome.cleanup, outcome.diagnostic))
      else None
    else
      Some(CallFailedAfterStart(q, p, process.observed.value, process.termination.value, stdout, stderr,
                                outcome.established, outcome.cleanup, outcome.failure.value, outcome.diagnostic))
  }

  lemma RebuildMakes(sha: Sha, q: Request, p: Profile, rec: Record)
    ensures RebuildCall(q, p, rec).Some? ==> Rebuild(sha, q, p, rec) == Make(sha, RebuildCall(q, p, rec).value)
    ensures RebuildCall(q, p, rec).None? ==> Rebuild(sha, q, p, rec) in {Err(CorruptEncoding), Err(InvalidControl)}
  {
    hide Success, FailedBeforeStart, CancelledBeforeStart, CancelledAfterStart, FailedAfterStart;
  }

  /** Whether the termination in a record is used by `Rebuild`, or replaced by the one the claim implies. */
  predicate TerminationReplaced(rec: Record) {
    rec.process.start.Started? && (rec.process.status.Succeeded? || rec.outcome.failure == Some(CancelledFailure))
  }

  /**
   Rebuilding a readable record gives an admissible result of the same authorities. It repeats
   every field of the record, except that a success or a cancellation gets its own termination.
   */
  lemma RebuildIsFaithful(sha: Sha, q: Request, p: Profile, rec: Record)
    requires SealedRequest(sha, q) && SealedProfile(sha, p) && StorableRecord(sha, rec)
    requires Rebuild(sha, q, p, rec).Ok?
    ensures var r := Rebuild(sha, q, p, rec).value;
      && Admissible(sha, r) && r.request == q && r.backend == p
      && RecordOf(r) == rec.(process := rec.process.(termination := r.termination))
      && (!TerminationReplaced(rec) ==> r.termination == rec.process.termination)
  {
    hide SealedRequest, SealedProfile, Admissible, Rebuild, RebuildCall, Make, FactoryCall.WellFormed, StorableRecord;
    RebuildMakes(sha, q, p, rec);
    var c := RebuildCall(q, p, rec).value;
    RebuildCallFits(sha, q, p, rec);
    MadeIsAdmissible(sha, c);
    MadeRepeats(sha, q, p, rec, c);
  }

  lemma RebuildCallFits(sha: Sha, q: Request, p: Profile, rec: Record)
    requires SealedRequest(sha, q) && SealedProfile(sha, p) && StorableRecord(sha, rec)
    requires RebuildCall(q, p, rec).Some?
    ensures RebuildCall(q, p, rec).value.WellFormed(sha)
    ensures RebuildCall(q, p, rec).value.request == q && RebuildCall(q, p, rec).value.backend == p
  {
    hide SealedRequest, SealedProfile, StorableConclusion, StreamCapture.Valid;
  }

  lemma MadeRepeats(sha: Sha, q: Request, p: Profile, rec: Record, c: FactoryCall)
    requires StorableRecord(sha, rec) && RebuildCall(q, p, rec) == Some(c) && Make(sha, c).Ok?
    ensures var r := Make(sha, c).value;
      && RecordOf(r) == rec.(process := rec.process.(termination := r.termination))
      && (!TerminationReplaced(rec) ==> r.termination == rec.process.termination)
  {
    hide StorableRecord, StorableConclusion, Make, CallRecord;
    CanonicalIsCanon(rec.outcome.established);
    CallRepeats(sha, q, p, rec, c);
    MakeRecords(sha, c);
  }

  /** The record of what a successful factory call returns. */
  function CallRecord(c: FactoryCall): Record {
    match c
    case CallFailedBeforeStart(_, _, f, e, d) =>
      Record(Process(Failed, NotStarted, None, None), None, None, Conclusion(e, NotRequired, Some(f), d))
    case CallCancelledBeforeStart(_, _, _, e, d) =>
      Record(Process(Failed, NotStarted, None, None), None, None, Conclusion(e, NotRequired, Some(CancelledFailure), d))
    case CallSucceeded(_, _, o, out, err, e, d) =>
      Record(Process(Succeeded, Started, Some(o), Some(Exited(0))), out, err, Conclusion(e, Verified, None, d))
    case CallFailedAfterStart(_, _, o, t, out, err, e, u, f, d) =>
      Record(Process(Failed, Started, Some(o), Some(t)), out, err, Conclusion(e, u, Some(f), d))
    case CallCancelledAfterStart(_, _, _, o, out, err, e, u, d) =>
      Record(Process(Failed, Started, Some(o), Some(Cancelled)), out, err, Conclusion(e, u, Some(CancelledFailure), d))
  }

  lemma MakeRecords(sha: Sha, c: FactoryCall)
    requires Make(sha, c).Ok? && Canon(c.established)
    ensures RecordOf(Make(sha, c).value) == CallRecord(c)
  {
    hide Normalize, Identity, LimitShape, Includes, Supports, BeforeStartOnly, CaptureShape, FailureEvidence, Canon,
         RequireRequestedControl;
    NormalizeFixes(c.established);
  }

  lemma CallRepeats(sha: Sha, q: Request, p: Profile, rec: Record, c: FactoryCall)
    requires StorableRecord(sha, rec) && RebuildCall(q, p, rec) == Some(c)
    ensures IsCanonical(rec.outcome.established) && c.established == rec.outcome.established
    ensures CallRecord(c) == rec.(process := rec.process.(termination := CallRecord(c).process.termination))
    ensures !TerminationReplaced(rec) ==> CallRecord(c).process.termination == rec.process.termination
  {
    hide IsCanonical;
  }

  // ---------------------------------------------------------------- sizes

  function OptionSize(present: bool, size: nat): nat {
    if present then 1 + size else 1
  }

  function TerminationSize(t: Option<Termination>): nat {
    if t.None? then 1 else
      match t.value case Exited(_) => 8 case Signaled(_) => 8 case Cancelled => 4 case Limited(_) => 5
  }

  function CaptureSize(c: Option<StreamCapture>): nat {
    if c.None? then 1 else 42 + if c.value.material.Some? then 4 + |c.value.material.value| else 0
  }

  /** The size of a result's encoding in closed form: 106 bytes of header, the record, 32 of checksum. */
  function EncodedSize(r: ExecutionResult): nat {
    106 + (2 + OptionSize(r.observed.Some?, 32) + TerminationSize(r.termination))
    + CaptureSize(r.stdout) + CaptureSize(r.stderr)
    + (2 + |r.established| + 1 + OptionSize(r.failure.Some?, 1) + 4 + |r.diagnostic|) + CHECKSUM_SIZE
  }

  lemma HeaderSize(h: Header)
    ensures |PutHeader(h)| == 106
  {
    hide Pack;
  }

  lemma ProcessSize(p: Process)
    ensures |PutProcess(p)| == 2 + OptionSize(p.observed.Some?, 32) + TerminationSize(p.termination)
  {
    hide PutTermination, Pack;
    if p.termination.Some? {
      TerminationBytes(p.termination.value, []);
      assert PutTermination(p.termination.value) + [] == PutTermination(p.termination.value);
    }
  }

  lemma StreamSize(c: Option<StreamCapture>)
    ensures |PutCaptured(c)| == CaptureSize(c)
  {
    hide Pack;
  }

  lemma ConclusionSize(o: Conclusion)
    ensures |PutConclusion(o)| == 2 + |o.established| + 1 + OptionSize(o.failure.Some?, 1) + 4 + |o.diagnostic|
  {
  }

  lemma PayloadSize(r: ExecutionResult)
    ensures |Payload(HeaderOf(r), RecordOf(r))| + CHECKSUM_SIZE == EncodedSize(r)
  {
    hide PutHeader, PutProcess, PutCaptured, PutConclusion, OptionSize, TerminationSize, CaptureSize;
    var rec := RecordOf(r);
    HeaderSize(HeaderOf(r));
    ProcessSize(rec.process);
    StreamSize(rec.stdout);
    StreamSize(rec.stderr);
    ConclusionSize(rec.outcome);
  }

  /**
   A factory-built result is encoded exactly when its diagnostic and its size fit; the guarantee
   count never matters, and the size is the closed form.
   */
  lemma EncoderDefined(sha: Sha, r: ExecutionResult)
    requires Admissible(sha, r)
    ensures Encode(sha, r).Ok? <==> |r.diagnostic| <= 1_048_576 && EncodedSize(r) <= 67_108_864
    ensures Encode(sha, r).Ok? ==> |Encode(sha, r).value| == EncodedSize(r)
    ensures Encode(sha, r).Err? ==> Encode(sha, r).code == InconsistentResult
    ensures |r.established| <= 18 < MAXIMUM_GUARANTEE_COUNT
  {
    hide Admissible, Payload, EncodedSize, PutIdentity;
    EstablishedIsCanon(sha, r);
    CanonIsShort(r.established);
    PayloadSize(r);
    IdentitySize(Sha256Hex(sha, Payload(HeaderOf(r), RecordOf(r))));
  }

  lemma EstablishedIsCanon(sha: Sha, r: ExecutionResult)
    requires Admissible(sha, r)
    ensures Canon(r.established)
  {
  }

  /** A capture on the wire: a flag, count, packed digest, and the material behind a flag and its length. */
  function CapturedBytes(c: Option<StreamCapture>): Bytes {
    match c
    case None => [0]
    case Some(c) =>
      [1] + (BE(c.count, 8) + (Pack(c.digest)
      + match c.material case None => [0] case Some(m) => [1] + (BE(|m|, 4) + m)))
  }

  lemma CaptureIsPut(c: Option<StreamCapture>)
    ensures PutCaptured(c) == CapturedBytes(c)
  {
    hide BE, Pack;
    if c.Some? && c.value.material.Some? {
      assert PutOption<Text>(c.value.material, PutText) == PutBool(true) + PutText(c.value.material.value);
    }
  }

  /** The payload, byte for byte: every field in its place. */
  function Layout(r: ExecutionResult): Bytes {
    Ascii("PKGEXR1") + ([0, 0, 1]
    + (Pack(r.request.identity) + (Pack(r.backend.identity) + (Pack(r.identity)
    + ([StatusByte(r.status)] + ([StartByte(r.start)]
    + (PutOption(r.observed, PutIdentity) + (PutOption(r.termination, PutTermination)
    + (CapturedBytes(r.stdout) + (CapturedBytes(r.stderr)
    + (BE(|r.established|, 2) + (PutGuarantees(r.established)
    + ([CleanupByte(r.cleanup)] + (PutOption(r.failure, PutFailure)
    + (BE(|r.diagnostic|, 4) + r.diagnostic)))))))))))))))
  }

  /** What the encoder writes is that payload and the 32 bytes of its digest. */
  lemma EncodingInFull(sha: Sha, r: ExecutionResult)
    requires Encode(sha, r).Ok?
    ensures Encode(sha, r).value == Layout(r) + sha(Layout(r))
  {
    hide PutHeader, PutRecord, Layout, Checked;
    LayoutIsPayload(r);
    ChecksumIsDigest(sha, Layout(r));
  }

  lemma ChecksumIsDigest(sha: Sha, payload: Bytes)
    ensures Checked(sha, payload) == payload + sha(payload)
  {
    PackUnpack(sha(payload));
  }

  lemma LayoutIsPayload(r: ExecutionResult)
    ensures Payload(HeaderOf(r), RecordOf(r)) == Layout(r)
  {
    hide Pack, PutOption, PutProcess, PutCaptured, CapturedBytes, PutConclusion, PutRecord, PutHeader, BE, Ascii,
         PutGuarantees;
    var rec := RecordOf(r);
    CaptureIsPut(r.stdout);
    CaptureIsPut(r.stderr);
    var last := BE(|r.diagnostic|, 4) + r.diagnostic;
    var outcome := BE(|r.established|, 2) + (PutGuarantees(r.established)
                   + ([CleanupByte(r.cleanup)] + (PutOption(r.failure, PutFailure) + last)));
    ConclusionIsLaidOut(rec.outcome);
    var streams := CapturedBytes(r.stdout) + (CapturedBytes(r.stderr) + outcome);
    ProcessBytes(rec.process, streams);
    RecordBytes(rec, []);
    assert PutRecord(rec) + [] == PutRecord(rec) && PutConclusion(rec.outcome) + [] == PutConclusion(rec.outcome);
    HeaderBytes(HeaderOf(r), PutRecord(rec));
    MagicIsLaidOut();
    var ids := PutIdentity(r.request.identity) + (PutIdentity(r.backend.identity) + (PutIdentity(r.identity)
               + PutRecord(rec)));
    assert MAGIC + (PutU16(VERSION) + ids) == (MAGIC + PutU16(VERSION)) + ids;
    assert Ascii("PKGEXR1") + ([0, 0, 1] + ids) == (Ascii("PKGEXR1") + [0, 0, 1]) + ids;
  }

  lemma MagicIsLaidOut()
    ensures MAGIC + PutU16(VERSION) == Ascii("PKGEXR1") + [0, 0, 1]
  {
    BigEndianTwo(1);
  }

  lemma ConclusionIsLaidOut(o: Conclusion)
    ensures PutConclusion(o) == BE(|o.established|, 2) + (PutGuarantees(o.established)
      + ([CleanupByte(o.cleanup)] + (PutOption(o.failure, PutFailure) + (BE(|o.diagnostic|, 4) + o.diagnostic))))
  {
    hide PutOption, BE, PutGuarantees;
  }

  /** Whatever the encoder writes, the reader's limits let through: the material limit rejects nothing. */
  lemma EncodedIsStorable(sha: Sha, r: ExecutionResult)
    requires Admissible(sha, r) && Encode(sha, r).Ok?
    ensures StorableRecord(sha, RecordOf(r))
  {
    EncodedFits(sha, r);
    EncodedMaterialFits(sha, r);
  }

  lemma EncodedFits(sha: Sha, r: ExecutionResult)
    requires Admissible(sha, r) && Encode(sha, r).Ok?
    ensures StorableConclusion(RecordOf(r).outcome)
    ensures ValidCapture(sha, r.stdout) && ValidCapture(sha, r.stderr) && EncodedSize(r) <= MAXIMUM_SIZE
  {
    hide Payload, PutIdentity, EncodedSize, NotStartedEvidence, StartedEvidence, LimitShape, Includes, IsCanonical;
    PayloadSize(r);
    CanonicalIsCanon(r.established);
  }

  lemma EncodedMaterialFits(sha: Sha, r: ExecutionResult)
    requires ValidCapture(sha, r.stdout) && ValidCapture(sha, r.stderr) && EncodedSize(r) <= MAXIMUM_SIZE
    ensures Storable(sha, r.stdout) && Storable(sha, r.stderr)
  {
    hide OptionSize, TerminationSize, StreamCapture.Valid;
  }

  // ---------------------------------------------------------------- the envelope

  /** Some body follows a readable header, and the checksum is that of header and body. */
  ghost predicate Envelope(sha: Sha, b: Bytes, h: Header, body: Bytes) {
    |b| <= MAXIMUM_SIZE && b == Checked(sha, PutHeader(h) + body)
  }

  /** The decoder in terms of what the bytes are, not of how they are read. */
  lemma DecodeOfEnvelope(sha: Sha, b: Bytes, h: Header, body: Bytes, q: Request, p: Profile)
    requires Envelope(sha, b, h, body)
    ensures Decode(sha, b, q, p)
         == if q.identity != h.request || p.identity != h.backend then Err(AuthorityMismatch)
            else DecodeBody(sha, b, h, body, q, p)
  {
    hide PutHeader, TakeHeader, AttemptBody, Unpack, PutIdentity, Sha256Hex;
    var payload := PutHeader(h) + body;
    ChecksumHolds(sha, b, payload);
    HeaderIso(payload, h, body);
    HeaderSize(h);
    IdentitySize(Sha256Hex(sha, payload));
  }

  lemma EnvelopeOfDecode(sha: Sha, b: Bytes, q: Request, p: Profile)
    requires Decode(sha, b, q, p) != Err(CorruptEncoding)
    ensures exists h, body :: Envelope(sha, b, h, body)
  {
    hide PutHeader, TakeHeader, AttemptBody, Unpack, PutIdentity, Sha256Hex;
    var payload := b[..|b| - CHECKSUM_SIZE];
    var header := TakeHeader(payload);
    HeaderIso(payload, header.value, header.rest);
    ChecksumHolds(sha, b, payload);
    assert Envelope(sha, b, header.value, header.rest);
  }

  /**
   Every byte string is answered with a result, `corrupt_encoding` or `authority_mismatch`; the
   last exactly when size, checksum, magic, version and the three identities read correctly and a
   supplied authority is not the one recorded, whatever follows the header.
   */
  lemma DecoderOutcomes(sha: Sha, b: Bytes, q: Request, p: Profile)
    ensures Decode(sha, b, q, p).Err? ==> Decode(sha, b, q, p).code in {CorruptEncoding, AuthorityMismatch}
    ensures Decode(sha, b, q, p) == Err(AuthorityMismatch) <==>
      exists h, body :: Envelope(sha, b, h, body) && (q.identity != h.request || p.identity != h.backend)
  {
    hide Envelope, Decode;
    if Decode(sha, b, q, p) != Err(CorruptEncoding) {
      EnvelopeOfDecode(sha, b, q, p);
      var h, body :| Envelope(sha, b, h, body);
      DecodeOfEnvelope(sha, b, h, body, q, p);
      BodyOutcomes(sha, b, h, body, q, p);
    }
    forall h, body | Envelope(sha, b, h, body) && (q.identity != h.request || p.identity != h.backend)
      ensures Decode(sha, b, q, p) == Err(AuthorityMismatch)
    {
      DecodeOfEnvelope(sha, b, h, body, q, p);
    }
  }

  lemma BodyOutcomes(sha: Sha, b: Bytes, h: Header, body: Bytes, q: Request, p: Profile)
    ensures DecodeBody(sha, b, h, body, q, p).Err? ==> DecodeBody(sha, b, h, body, q, p).code == CorruptEncoding
  {
    hide TakeRecord, Rebuild;
    if TakeRecord(sha, body).Parsed? {
      RebuildCodes(sha, q, p, TakeRecord(sha, body).value);
    }
  }

  /** No factory throws a code that the handler would let through as something else. */
  lemma RebuildCodes(sha: Sha, q: Request, p: Profile, rec: Record)
    ensures Rebuild(sha, q, p, rec).Err? ==> Rethrown(Rebuild(sha, q, p, rec).code) == CorruptEncoding
  {
    hide Rebuild, RebuildCall, Make;
    RebuildMakes(sha, q, p, rec);
    if RebuildCall(q, p, rec).Some? {
      MakeCodes(sha, RebuildCall(q, p, rec).value);
    }
  }

  lemma MakeCodes(sha: Sha, c: FactoryCall)
    ensures Make(sha, c).Err? ==> Rethrown(Make(sha, c).code) == CorruptEncoding
  {
    hide Normalize, Identified, LimitShape, Includes, Supports, BeforeStartOnly, CaptureShape, Rethrown;
    assert Rethrown(InvalidControl) == Rethrown(ControlMismatch) == Rethrown(InvalidFailure) == CorruptEncoding
      && Rethrown(InconsistentResult) == Rethrown(UnsupportedRequest) == CorruptEncoding by {
      OtherCodes();
    }
  }

  lemma OtherCodes()
    ensures Rethrown(InvalidControl) == Rethrown(ControlMismatch) == Rethrown(InvalidFailure) == CorruptEncoding
    ensures Rethrown(InconsistentResult) == Rethrown(UnsupportedRequest) == CorruptEncoding
  {
  }

  // ---------------------------------------------------------------- round trip and exact image

  /** Decoding an encoded result under its own request and profile returns it, every field equal. */
  lemma RoundTrip(sha: Sha, r: ExecutionResult, b: Bytes)
    requires Admissible(sha, r) && Encode(sha, r) == Ok(b)
    ensures Decode(sha, b, r.request, r.backend) == Ok(r)
  {
    hide Admissible, Decode, Rebuild, PutRecord, TakeRecord, PutHeader, StorableRecord;
    var rec := RecordOf(r);
    EncodedIsStorable(sha, r);
    RebuildRestores(sha, r);
    RecordIso(sha, PutRecord(rec), rec, []);
    assert PutRecord(rec) + [] == PutRecord(rec);
    EncodedEnvelope(sha, r, b);
    DecodeOfEnvelope(sha, b, HeaderOf(r), PutRecord(rec), r.request, r.backend);
  }

  lemma EncodedEnvelope(sha: Sha, r: ExecutionResult, b: Bytes)
    requires Encode(sha, r) == Ok(b)
    ensures Envelope(sha, b, HeaderOf(r), PutRecord(RecordOf(r)))
  {
    hide PutIdentity, Sha256Hex, PutHeader, PutRecord;
    IdentitySize(Sha256Hex(sha, Payload(HeaderOf(r), RecordOf(r))));
  }

  /**
   Bytes are accepted under a request and a profile, with result `r`, exactly when `r` is a
   consistent result of those authorities and the bytes are its encoding.
   */
  lemma ExactImage(sha: Sha, b: Bytes, q: Request, p: Profile, r: ExecutionResult)
    requires SealedRequest(sha, q) && SealedProfile(sha, p)
    ensures Decode(sha, b, q, p) == Ok(r) <==>
      Admissible(sha, r) && r.request == q && r.backend == p && Encode(sha, r) == Ok(b)
  {
    hide Admissible, SealedRequest, SealedProfile, Decode, Encode, Envelope, Rebuild, TakeRecord, RecordOf, HeaderOf;
    if Decode(sha, b, q, p) == Ok(r) {
      EnvelopeOfDecode(sha, b, q, p);
      var h, body :| Envelope(sha, b, h, body);
      DecodeOfEnvelope(sha, b, h, body, q, p);
      RebuildIsFaithful(sha, q, p, TakeRecord(sha, body).value);
    }
    if Admissible(sha, r) && r.request == q && r.backend == p && Encode(sha, r) == Ok(b) {
      RoundTrip(sha, r, b);
    }
  }

  /** The bytes that are accepted are the encodings of what the five factories can return. */
  lemma AcceptedIffMade(sha: Sha, b: Bytes, q: Request, p: Profile)
    requires SealedRequest(sha, q) && SealedProfile(sha, p)
    ensures Decode(sha, b, q, p).Ok? <==>
      exists c: FactoryCall :: c.WellFormed(sha) && c.request == q && c.backend == p
        && Make(sha, c).Ok? && Encode(sha, Make(sha, c).value) == Ok(b)
  {
    hide Admissible, SealedRequest, SealedProfile, Decode, Encode, Make, FactoryCall.WellFormed;
    if Decode(sha, b, q, p).Ok? {
      var r := Decode(sha, b, q, p).value;
      ExactImage(sha, b, q, p, r);
      AdmissibleIsMade(sha, r);
      assert CallFor(r).request == q && CallFor(r).backend == p;
    }
    forall c: FactoryCall | c.WellFormed(sha) && c.request == q && c.backend == p
                            && Make(sha, c).Ok? && Encode(sha, Make(sha, c).value) == Ok(b)
      ensures Decode(sha, b, q, p).Ok?
    {
      MadeIsAdmissible(sha, c);
      RoundTrip(sha, Make(sha, c).value, b);
    }
  }

  /**
   Two results share an encoding exactly when their three identities and all their evidence,
   diagnostic and material agree; under the same authorities they are then the same result.
   */
  lemma EncodingDetermines(sha: Sha, a: ExecutionResult, b: ExecutionResult)
    requires Admissible(sha, a) && Admissible(sha, b) && Encode(sha, a).Ok?
    ensures Encode(sha, a) == Encode(sha, b) <==> HeaderOf(a) == HeaderOf(b) && RecordOf(a) == RecordOf(b)
    ensures Encode(sha, a) == Encode(sha, b) && a.request == b.request && a.backend == b.backend ==> a == b
  {
    hide Admissible, PutHeader, TakeHeader, PutRecord, TakeRecord, StorableRecord, Checked;
    if Encode(sha, a) == Encode(sha, b) {
      EncodedIsStorable(sha, a);
      EncodedIsStorable(sha, b);
      var x, y := PutRecord(RecordOf(a)), PutRecord(RecordOf(b));
      ChecksumHolds(sha, Encode(sha, a).value, Payload(HeaderOf(a), RecordOf(a)));
      ChecksumHolds(sha, Encode(sha, a).value, Payload(HeaderOf(b), RecordOf(b)));
      HeaderIso(Payload(HeaderOf(a), RecordOf(a)), HeaderOf(a), x);
      HeaderIso(Payload(HeaderOf(b), RecordOf(b)), HeaderOf(b), y);
      RecordIso(sha, x, RecordOf(a), []);
      RecordIso(sha, y, RecordOf(b), []);
      assert x + [] == x && y + [] == y;
    }
    if HeaderOf(a) == HeaderOf(b) && RecordOf(a) == RecordOf(b) {
      RecordParts(a);
      RecordParts(b);
    }
  }

  /** SHA-256 does not collide on what identifies two requests and two profiles. */
  ghost predicate NoAuthorityCollision(sha: Sha, a: Request, p: Profile, b: Request, q: Profile) {
    && NoCollision(sha, Image(a.body, a.required), Image(b.body, b.required))
    && NoPartsCollision(sha, a.body, b.body)
    && NoCollision(sha, ProfileImage(p.backend, p.guarantees), ProfileImage(q.backend, q.guarantees))
  }

  /**
   An encoding belongs to one request and one profile: where SHA-256 does not collide, decoding it
   under any authorities returns the result for its own, and `authority_mismatch` for all others.
   */
  lemma EncodingUnderAnyAuthorities(sha: Sha, r: ExecutionResult, b: Bytes, q: Request, p: Profile)
    requires Admissible(sha, r) && Encode(sha, r) == Ok(b) && SealedRequest(sha, q) && SealedProfile(sha, p)
    requires PartsSealed(sha, r.request.body) && PartsSealed(sha, q.body)
    requires NoAuthorityCollision(sha, r.request, r.backend, q, p)
    ensures Decode(sha, b, q, p) == if q == r.request && p == r.backend then Ok(r) else Err(AuthorityMismatch)
  {
    hide Admissible, SealedRequest, SealedProfile, PartsSealed, Encode, Decode, Envelope, DecodeBody, NoCollision;
    AuthoritiesSealed(sha, r);
    SameIdentitySameRequest(sha, r.request, q);
    SameIdentitySameProfile(sha, r.backend, p);
    EncodedEnvelope(sha, r, b);
    DecodeOfEnvelope(sha, b, HeaderOf(r), PutRecord(RecordOf(r)), q, p);
    RoundTrip(sha, r, b);
  }

  // ---------------------------------------------------------------- the canonical re-encoding check

  /**
   Once a checked, readable record has been rebuilt with the recorded evidence identity, the
   re-encoding comparison rejects it exactly when the termination it carried was replaced by a
   different one: it is the only guard that looks at that field.
   */
  lemma CanonicalCheckIsTermination(sha: Sha, b: Bytes, h: Header, rec: Record, q: Request, p: Profile)
    requires SealedRequest(sha, q) && SealedProfile(sha, p) && StorableRecord(sha, rec)
    requires Envelope(sha, b, h, PutRecord(rec)) && q.identity == h.request && p.identity == h.backend
    requires Rebuild(sha, q, p, rec).Ok? && Rebuild(sha, q, p, rec).value.identity == h.evidence
    ensures Decode(sha, b, q, p).Ok? <==> rec.process.termination == Rebuild(sha, q, p, rec).value.termination
    ensures Decode(sha, b, q, p).Err? ==> Decode(sha, b, q, p).code == CorruptEncoding && TerminationReplaced(rec)
  {
    hide Admissible, SealedRequest, SealedProfile, StorableRecord, Envelope, Decode, Rebuild, Encode, PutRecord,
         TakeRecord, RecordOf, TerminationReplaced;
    var r := Rebuild(sha, q, p, rec).value;
    RebuildIsFaithful(sha, q, p, rec);
    RecordIso(sha, PutRecord(rec), rec, []);
    assert PutRecord(rec) + [] == PutRecord(rec);
    DecodeOfEnvelope(sha, b, h, PutRecord(rec), q, p);
    BodyOutcomes(sha, b, h, PutRecord(rec), q, p);
    EncodesBack(sha, b, h, rec, r);
  }

  lemma EncodesBack(sha: Sha, b: Bytes, h: Header, rec: Record, r: ExecutionResult)
    requires Admissible(sha, r) && StorableRecord(sha, rec) && Envelope(sha, b, h, PutRecord(rec)) && HeaderOf(r) == h
    requires RecordOf(r) == rec.(process := rec.process.(termination := r.termination))
    ensures Encode(sha, r) == Ok(b) <==> rec.process.termination == r.termination
  {
    hide Admissible, Storable, PutHeader, PutRecord, PutIdentity, Sha256Hex, HeaderOf, RecordOf;
    if Encode(sha, r) == Ok(b) {
      EncodedIsStorable(sha, r);
      SameRecord(sha, h, rec, RecordOf(r));
    }
    if rec.process.termination == r.termination {
      assert RecordOf(r) == rec;
      IdentitySize(Sha256Hex(sha, Payload(h, rec)));
      RecordParts(r);
    }
  }

  lemma RecordParts(r: ExecutionResult)
    ensures RecordOf(r).outcome.established == r.established && RecordOf(r).outcome.diagnostic == r.diagnostic
  {
  }

  /** A checked payload determines the record in it. */
  lemma SameRecord(sha: Sha, h: Header, a: Record, b: Record)
    requires StorableRecord(sha, a) && StorableRecord(sha, b)
    requires Checked(sha, Payload(h, a)) == Checked(sha, Payload(h, b))
    ensures a == b
  {
    hide StorableRecord, PutHeader, PutRecord, TakeRecord, PutIdentity, Sha256Hex;
    var x, y := Payload(h, a), Payload(h, b);
    IdentitySize(Sha256Hex(sha, x));
    IdentitySize(Sha256Hex(sha, y));
    assert |x| == |y|;
    SplitAt(x, PutIdentity(Sha256Hex(sha, x)), y, PutIdentity(Sha256Hex(sha, y)));
    SplitAt(PutHeader(h), PutRecord(a), PutHeader(h), PutRecord(b));
    RecordIso(sha, PutRecord(a), a, []);
    RecordIso(sha, PutRecord(b), b, []);
    assert PutRecord(a) + [] == PutRecord(a) && PutRecord(b) + [] == PutRecord(b);
  }

  /**
   A success or cancellation record with another termination, its checksum recomputed, passes every
   other check, the evidence identity included, and is still rejected.
   */
  lemma ForgedTerminationIsRejected(sha: Sha, r: ExecutionResult, t: Termination)
    requires Admissible(sha, r) && Encode(sha, r).Ok? && TerminationReplaced(RecordOf(r))
    requires Some(t) != r.termination
    ensures var rec := RecordOf(r).(process := RecordOf(r).process.(termination := Some(t)));
      && Rebuild(sha, r.request, r.backend, rec) == Ok(r)
      && Decode(sha, Checked(sha, Payload(HeaderOf(r), rec)), r.request, r.backend) == Err(CorruptEncoding)
  {
    hide Admissible, Rebuild, Decode, Envelope, StorableRecord, Encode, Payload, Checked;
    var rec := RecordOf(r).(process := RecordOf(r).process.(termination := Some(t)));
    var b := Checked(sha, Payload(HeaderOf(r), rec));
    ReplacedTermination(sha, r, t);
    EncodedIsStorable(sha, r);
    StorableAnyTermination(sha, RecordOf(r), t);
    AuthoritiesSealed(sha, r);
    ForgedOutcome(sha, r, rec, b);
  }

  lemma ReplacedTermination(sha: Sha, r: ExecutionResult, t: Termination)
    requires Admissible(sha, r) && TerminationReplaced(RecordOf(r))
    ensures Rebuild(sha, r.request, r.backend, RecordOf(r).(process := RecordOf(r).process.(termination := Some(t))))
         == Ok(r)
  {
    hide Success, CancelledAfterStart, Admissible;
    RebuildRestores(sha, r);
  }

  lemma StorableAnyTermination(sha: Sha, rec: Record, t: Termination)
    requires StorableRecord(sha, rec)
    ensures StorableRecord(sha, rec.(process := rec.process.(termination := Some(t))))
  {
  }

  lemma AuthoritiesSealed(sha: Sha, r: ExecutionResult)
    requires Admissible(sha, r)
    ensures SealedRequest(sha, r.request) && SealedProfile(sha, r.backend)
  {
  }

  lemma ForgedOutcome(sha: Sha, r: ExecutionResult, rec: Record, b: Bytes)
    requires SealedRequest(sha, r.request) && SealedProfile(sha, r.backend) && StorableRecord(sha, rec)
    requires Rebuild(sha, r.request, r.backend, rec) == Ok(r) && rec.process.termination != r.termination
    requires b == Checked(sha, Payload(HeaderOf(r), rec))
    ensures Decode(sha, b, r.request, r.backend) == Err(CorruptEncoding)
  {
    hide SealedRequest, SealedProfile, StorableRecord, Rebuild, TakeHeader, DecodeBody, Unpack, PutHeader, PutRecord,
         Checked, Sha256Hex;
    if |b| <= MAXIMUM_SIZE {
      CanonicalCheckIsTermination(sha, b, HeaderOf(r), rec, r.request, r.backend);
      DecoderOutcomes(sha, b, r.request, r.backend);
    }
  }

  // ---------------------------------------------------------------- what can always be stored

  /** The capture without its material, if it kept any. */
  function Dropped(c: Option<StreamCapture>): Option<StreamCapture> {
    if c.None? then None else Some(Observed(c.value.count, c.value.digest))
  }

  /** The same evidence without diagnostic and retained material. */
  function Stripped(r: ExecutionResult): ExecutionResult {
    r.(diagnostic := [], stdout := Dropped(r.stdout), stderr := Dropped(r.stderr))
  }

  /**
   Evidence can always be stored: without diagnostic and material any result is still consistent
   under the same identity, its encoding succeeds, and it is read back.
   */
  lemma StrippedCanBeStored(sha: Sha, r: ExecutionResult)
    requires Admissible(sha, r)
    ensures Admissible(sha, Stripped(r)) && Stripped(r).identity == r.identity
    ensures Encode(sha, Stripped(r)).Ok? && |Encode(sha, Stripped(r)).value| < 1024
    ensures Decode(sha, Encode(sha, Stripped(r)).value, r.request, r.backend) == Ok(Stripped(r))
  {
    hide Admissible, Encode, Decode, EncodedSize;
    var s := Stripped(r);
    DroppedIsSame(sha, r.stdout);
    DroppedIsSame(sha, r.stderr);
    DiagnosticAndMaterialAreFree(sha, r, [], s.stdout, s.stderr);
    EncoderDefined(sha, s);
    StrippedSize(s);
    RoundTrip(sha, s, Encode(sha, s).value);
  }

  lemma DroppedIsSame(sha: Sha, c: Option<StreamCapture>)
    ensures ValidCapture(sha, Dropped(c)) && SameCapture(Dropped(c), c)
  {
  }

  lemma StrippedSize(r: ExecutionResult)
    requires |r.established| <= 18 && r.diagnostic == []
    requires r.stdout.Some? ==> r.stdout.value.material.None?
    requires r.stderr.Some? ==> r.stderr.value.material.None?
    ensures EncodedSize(r) < 1024
  {
  }

  /** For every sealed request and profile there is a result that is stored and read back. */
  lemma EveryRequestHasAStoredResult(sha: Sha, q: Request, p: Profile, diagnostic: Text)
    requires SealedRequest(sha, q) && SealedProfile(sha, p) && |diagnostic| <= MAXIMUM_DIAGNOSTIC_SIZE
    ensures var made := FailedBeforeStart(sha, q, p, BackendUnsupported, [], diagnostic);
      made.Ok? && Encode(sha, made.value).Ok? && Decode(sha, Encode(sha, made.value).value, q, p) == made
  {
    hide SealedRequest, SealedProfile, Admissible, Encode, Decode, EncodedSize;
    UnsupportedIsAlwaysReportable(sha, q, p, diagnostic);
    var c := CallFailedBeforeStart(q, p, BackendUnsupported, [], diagnostic);
    MadeIsAdmissible(sha, c);
    var r := Make(sha, c).value;
    EncoderDefined(sha, r);
    assert EncodedSize(r) <= MAXIMUM_SIZE by {
      NotStartedSize(r);
    }
    RoundTrip(sha, r, Encode(sha, r).value);
  }

  lemma NotStartedSize(r: ExecutionResult)
    requires |r.established| <= 18 && |r.diagnostic| <= MAXIMUM_DIAGNOSTIC_SIZE
    requires r.stdout.None? && r.stderr.None?
    ensures EncodedSize(r) <= MAXIMUM_SIZE
  {
  }
}
