/** encode_execution_result and decode_execution_result as they run, over the writer and the reader. */
module ResultStreams {
  import opened Wrappers
  import opened Bytes
  import opened Model
  import opened Preimages
  import opened Requests
  import opened Profiles
  import opened Control
  import opened Results
  import opened Wire
  import opened Records
  import opened ResultCodec
  import opened Streams

  // ---------------------------------------------------------------- encoding

  method WriteHeader(w: Writer, h: Header)
    requires w.Valid()
    modifies w
    ensures w.Wrote(PutHeader(h))
  {
    hide PutU16, PutIdentity;
    w.Raw(MAGIC);
    w.U16(VERSION);
    w.Identity(h.request);
    w.Identity(h.backend);
    w.Identity(h.evidence);
    Regroup5(old(w.written), MAGIC, PutU16(VERSION), PutIdentity(h.request), PutIdentity(h.backend),
             PutIdentity(h.evidence));
  }

  method WriteOptionalIdentity(w: Writer, value: Option<Hex>)
    requires w.Valid()
    modifies w
    ensures w.Wrote(PutOption(value, PutIdentity))
  {
    hide PutBool, PutIdentity;
    w.Boolean(value.Some?);
    if value.Some? {
      w.Identity(value.value);
      Regroup2(old(w.written), PutBool(true), PutIdentity(value.value));
    }
  }

  method WriteOptionalU32(w: Writer, value: Option<u32>)
    requires w.Valid()
    modifies w
    ensures w.Wrote(PutOption(value, PutU32))
  {
    hide PutBool, PutU32;
    w.Boolean(value.Some?);
    if value.Some? {
      w.U32(value.value);
      Regroup2(old(w.written), PutBool(true), PutU32(value.value));
    }
  }

  method WriteOptionalLimit(w: Writer, value: Option<LimitKind>)
    requires w.Valid()
    modifies w
    ensures w.Wrote(PutOption(value, PutLimit))
  {
    w.Boolean(value.Some?);
    if value.Some? {
      w.Byte(LimitByte(value.value));
      Regroup2(old(w.written), PutBool(true), PutLimit(value.value));
    }
  }

  method WriteOptionalFailure(w: Writer, value: Option<FailureKind>)
    requires w.Valid()
    modifies w
    ensures w.Wrote(PutOption(value, PutFailure))
  {
    w.Boolean(value.Some?);
    if value.Some? {
      w.Byte(FailureByte(value.value));
      Regroup2(old(w.written), PutBool(true), PutFailure(value.value));
    }
  }

  /** encode_termination. */
  method WriteTermination(w: Writer, value: Option<Termination>)
    requires w.Valid()
    modifies w
    ensures w.Wrote(PutOption(value, PutTermination))
  {
    hide PutBool, PutByte, PutU32, PutLimit, PutTermination;
    w.Boolean(value.Some?);
    if value.Some? {
      var t := value.value;
      w.Byte(t.KindByte());
      WriteOptionalU32(w, t.Value());
      WriteOptionalLimit(w, t.Limit());
      ghost var s := old(w.written);
      Regroup3(s + PutBool(true), PutByte(t.KindByte()), PutOption(t.Value(), PutU32), PutOption(t.Limit(), PutLimit));
      TerminationParts(t);
      Regroup2(s, PutBool(true), PutTermination(t));
    }
  }

  lemma TerminationParts(t: Termination)
    ensures PutTermination(t)
         == PutByte(t.KindByte()) + (PutOption(t.Value(), PutU32) + PutOption(t.Limit(), PutLimit))
  {
    hide PutByte, PutOption, PutTermination;
    TerminationBytes(t, []);
    assert PutTermination(t) + [] == PutTermination(t);
    assert PutOption(t.Limit(), PutLimit) + [] == PutOption(t.Limit(), PutLimit);
  }

  method WriteProcess(w: Writer, p: Process)
    requires w.Valid()
    modifies w
    ensures w.Wrote(PutProcess(p))
  {
    hide PutByte, PutOption;
    w.Byte(StatusByte(p.status));
    w.Byte(StartByte(p.start));
    WriteOptionalIdentity(w, p.observed);
    WriteTermination(w, p.termination);
    Regroup4(old(w.written), PutStatus(p.status), PutStart(p.start), PutOption(p.observed, PutIdentity),
             PutOption(p.termination, PutTermination));
  }

  /** writer::capture. */
  method WriteCapture(w: Writer, value: Option<StreamCapture>)
    requires w.Valid()
    modifies w
    ensures w.Wrote(PutCaptured(value))
  {
    hide PutBool, PutU64, PutIdentity, PutText;
    w.Boolean(value.Some?);
    if value.Some? {
      var c := value.value;
      w.U64(c.count);
      w.Identity(c.digest);
      w.Boolean(c.material.Some?);
      ghost var s := old(w.written);
      if c.material.Some? {
        w.Text(c.material.value);
        Regroup2(s + PutBool(true) + PutU64(c.count) + PutIdentity(c.digest), PutBool(true), PutText(c.material.value));
        assert PutOption<Text>(c.material, PutText) == PutBool(true) + PutText(c.material.value);
      }
      Regroup4(s, PutBool(true), PutU64(c.count), PutIdentity(c.digest), PutOption(c.material, PutText));
    }
  }

  /** The guarantee count and the diagnostic are tested just before each is written. */
  method WriteConclusion(w: Writer, o: Conclusion) returns (outcome: Outcome)
    requires w.Valid()
    modifies w
    ensures w.Valid()
    ensures outcome == Need(|o.established| <= MAXIMUM_GUARANTEE_COUNT && |o.diagnostic| <= MAXIMUM_DIAGNOSTIC_SIZE,
                            InconsistentResult)
    ensures outcome.Pass? ==> w.Wrote(PutConclusion(o))
  {
    hide PutOption, PutText, PutGuarantees;
    if |o.established| > MAXIMUM_GUARANTEE_COUNT {
      return Fail(InconsistentResult);
    }
    w.U16(|o.established|);
    WriteGuarantees(w, o.established);
    Regroup2(old(w.written), PutU16(|o.established|), PutGuarantees(o.established));
    w.Byte(CleanupByte(o.cleanup));
    WriteOptionalFailure(w, o.failure);
    if |o.diagnostic| > MAXIMUM_DIAGNOSTIC_SIZE {
      return Fail(InconsistentResult);
    }
    w.Text(o.diagnostic);
    Regroup4(old(w.written), PutGuaranteeList(o.established), PutCleanup(o.cleanup), PutOption(o.failure, PutFailure),
             PutText(o.diagnostic));
    return Pass;
  }

  method WriteRecord(w: Writer, rec: Record) returns (outcome: Outcome)
    requires w.Valid()
    modifies w
    ensures w.Valid()
    ensures outcome == Need(|rec.outcome.established| <= MAXIMUM_GUARANTEE_COUNT
                            && |rec.outcome.diagnostic| <= MAXIMUM_DIAGNOSTIC_SIZE, InconsistentResult)
    ensures outcome.Pass? ==> w.Wrote(PutRecord(rec))
  {
    hide PutProcess, PutCaptured, PutConclusion;
    WriteProcess(w, rec.process);
    WriteCapture(w, rec.stdout);
    WriteCapture(w, rec.stderr);
    outcome := WriteConclusion(w, rec.outcome);
    Regroup4(old(w.written), PutProcess(rec.process), PutCaptured(rec.stdout), PutCaptured(rec.stderr),
             PutConclusion(rec.outcome));
  }

  /** encode_execution_result. */
  method EncodeExecutionResult(sha: Sha, result: ExecutionResult) returns (r: Result<Bytes>)
    ensures r == Encode(sha, result)
  {
    hide PutHeader, PutRecord, PutIdentity, Sha256Hex;
    var w := new Writer(MAXIMUM_SIZE);
    WriteHeader(w, HeaderOf(result));
    :- WriteRecord(w, RecordOf(result));
    assert w.written == Payload(HeaderOf(result), RecordOf(result));
    var checksum := Sha256Hex(sha, w.output);
    IdentitySize(checksum);
    w.Identity(checksum);
    if w.thrown {
      return Err(InconsistentResult);
    }
    return Ok(w.output);
  }

  // ---------------------------------------------------------------- decoding

  method ReadHeader(input: Reader) returns (r: Result<Header>)
    requires input.Valid()
    modifies input`offset
    ensures input.Read(TakeHeader(old(input.Rest())), r)
  {
    hide TakeU16, TakeIdentity;
    :- ReadMagic(input, MAGIC);
    var version :- input.U16();
    if version != VERSION {
      return Err(CorruptEncoding);
    }
    var request :- input.Identity();
    var backend :- input.Identity();
    var evidence :- input.Identity();
    return Ok(Header(request, backend, evidence));
  }

  /** decode_termination. */
  method ReadTermination(input: Reader) returns (r: Result<Termination>)
    requires input.Valid()
    modifies input`offset
    ensures input.Read(TakeTermination(old(input.Rest())), r)
  {
    hide TakeByte, TakeBool, TakeU32, LimitOf;
    var kind :- input.Byte();
    var hasValue :- input.Boolean();
    var value: Option<u32> := None;
    if hasValue {
      var v :- input.U32();
      value := Some(v);
    }
    var hasLimit :- input.Boolean();
    var limit: Option<LimitKind> := None;
    if hasLimit {
      var l :- input.Byte();
      if LimitOf(l).None? {
        return Err(CorruptEncoding);
      }
      limit := LimitOf(l);
    }
    var t := TerminationOf(kind, value, limit);
    return if t.Ok? then t else Err(CorruptEncoding);
  }

  /** reader::capture: retained material is retained again, and must give the count and digest read. */
  method ReadCapture(sha: Sha, input: Reader) returns (r: Result<Option<StreamCapture>>)
    requires input.Valid()
    modifies input`offset
    ensures input.Read(TakeCaptured(sha, old(input.Rest())), r)
  {
    hide TakeBool, TakeU64, TakeIdentity, TakeText, StorableCapture;
    var present :- input.Boolean();
    if !present {
      return Ok(None);
    }
    var count :- input.U64();
    var digest :- input.Identity();
    var hasMaterial :- input.Boolean();
    if !hasMaterial {
      return Ok(Some(Observed(count, digest)));
    }
    var material :- input.Text(MAXIMUM_MATERIAL_SIZE);
    var capture := Retained(sha, material);
    if capture.count != count || capture.digest != digest {
      return Err(CorruptEncoding);
    }
    return Ok(Some(capture));
  }

  method ReadProcess(input: Reader) returns (r: Result<Process>)
    requires input.Valid()
    modifies input`offset
    ensures input.Read(TakeProcess(old(input.Rest())), r)
  {
    hide TakeByte, TakeBool, TakeIdentity, TakeTermination, StatusOf, StartOf;
    var statusByte :- input.Byte();
    if StatusOf(statusByte).None? {
      return Err(CorruptEncoding);
    }
    var startByte :- input.Byte();
    if StartOf(startByte).None? {
      return Err(CorruptEncoding);
    }
    var hasObserved :- input.Boolean();
    var observed: Option<Hex> := None;
    if hasObserved {
      var o :- input.Identity();
      observed := Some(o);
    }
    var hasTermination :- input.Boolean();
    var termination: Option<Termination> := None;
    if hasTermination {
      var t :- ReadTermination(input);
      termination := Some(t);
    }
    return Ok(Process(StatusOf(statusByte).value, StartOf(startByte).value, observed, termination));
  }

  method ReadConclusion(input: Reader) returns (r: Result<Conclusion>)
    requires input.Valid()
    modifies input`offset
    ensures input.Read(TakeConclusion(old(input.Rest())), r)
  {
    hide TakeByte, TakeBool, TakeU16, TakeGuarantees, TakeText, IsCanonical, CleanupOf, FailureOf;
    var count :- input.U16();
    if count > MAXIMUM_GUARANTEE_COUNT {
      return Err(CorruptEncoding);
    }
    var guarantees :- ReadGuarantees(input, count);
    if !IsCanonical(guarantees) {
      return Err(CorruptEncoding);
    }
    var cleanup :- input.Byte();
    if CleanupOf(cleanup).None? {
      return Err(CorruptEncoding);
    }
    var hasFailure :- input.Boolean();
    var failure: Option<FailureKind> := None;
    if hasFailure {
      var f :- input.Byte();
      if FailureOf(f).None? {
        return Err(CorruptEncoding);
      }
      failure := FailureOf(f);
    }
    var diagnostic :- input.Text(MAXIMUM_DIAGNOSTIC_SIZE);
    return Ok(Conclusion(guarantees, CleanupOf(cleanup).value, failure, diagnostic));
  }

  method ReadRecord(sha: Sha, input: Reader) returns (r: Result<Record>)
    requires input.Valid()
    modifies input`offset
    ensures input.Read(TakeRecord(sha, old(input.Rest())), r)
  {
    hide TakeProcess, TakeCaptured, TakeConclusion, StorableRecord;
    var process :- ReadProcess(input);
    var stdout :- ReadCapture(sha, input);
    var stderr :- ReadCapture(sha, input);
    var outcome :- ReadConclusion(input);
    return Ok(Record(process, stdout, stderr, outcome));
  }

  /** A new source of the request, signalled once; its token, unless the request has no control. */
  method FreshlyCancelled(q: Request) returns (r: Result<Token>)
    ensures r == if Enabled(q) then Ok(Token(q.identity, true)) else Err(InvalidControl)
  {
    var source :- CancellationSource.ForRequest(q);
    var first := source.RequestCancellation();
    if !first {
      return Err(CorruptEncoding);
    }
    return Ok(source.View());
  }

  /** rebuild_result. */
  method RebuildResult(sha: Sha, q: Request, p: Profile, rec: Record) returns (r: Result<ExecutionResult>)
    ensures r == Rebuild(sha, q, p, rec)
  {
    hide Success, FailedBeforeStart, CancelledBeforeStart, CancelledAfterStart, FailedAfterStart;
    var Record(process, stdout, stderr, outcome) := rec;
    if process.status.Succeeded? {
      if !process.start.Started? || process.observed.None? || process.termination.None? || outcome.failure.Some?
         || !outcome.cleanup.Verified? {
        return Err(CorruptEncoding);
      }
      return Success(sha, q, p, process.observed.value, stdout, stderr, outcome.established, outcome.diagnostic);
    }
    if outcome.failure.None? {
      return Err(CorruptEncoding);
    }
    if process.start.NotStarted? {
      if process.observed.Some? || process.termination.Some? || stdout.Some? || stderr.Some?
         || !outcome.cleanup.NotRequired? {
        return Err(CorruptEncoding);
      }
      if outcome.failure.value.CancelledFailure? {
        var token :- FreshlyCancelled(q);
        return CancelledBeforeStart(sha, q, p, token, outcome.established, outcome.diagnostic);
      }
      return FailedBeforeStart(sha, q, p, outcome.failure.value, outcome.established, outcome.diagnostic);
    }
    if process.observed.None? || process.termination.None? {
      return Err(CorruptEncoding);
    }
    if outcome.failure.value.CancelledFailure? {
      var token :- FreshlyCancelled(q);
      return CancelledAfterStart(sha, q, p, token, process.observed.value, stdout, stderr, outcome.established,
                                 outcome.cleanup, outcome.diagnostic);
    }
    return FailedAfterStart(sha, q, p, process.observed.value, process.termination.value, stdout, stderr,
                            outcome.established, outcome.cleanup, outcome.failure.value, outcome.diagnostic);
  }

  /** The try block: its errors are the ones thrown, before the handler maps them. */
  method DecodeUncaught(sha: Sha, encoding: Bytes, q: Request, p: Profile) returns (r: Result<ExecutionResult>)
    ensures r == Attempt(sha, encoding, q, p)
  {
    hide TakeHeader, TakeRecord, Rebuild, Encode, StorableRecord, Sha256Hex;
    if |encoding| > MAXIMUM_SIZE || |encoding| < |MAGIC| + 2 + CHECKSUM_SIZE {
      return Err(CorruptEncoding);
    }
    var payloadSize := |encoding| - CHECKSUM_SIZE;
    var retained := HexEncodeBytes(encoding[payloadSize..]);
    if !ChecksumMatches(sha, encoding, retained) {
      return Err(CorruptEncoding);
    }
    var input := new Reader(encoding, payloadSize);
    var header :- ReadHeader(input);
    if q.identity != header.request || p.identity != header.backend {
      return Err(AuthorityMismatch);
    }
    var rec :- ReadRecord(sha, input);
    :- input.Finish();
    var decoded :- RebuildResult(sha, q, p, rec);
    if decoded.identity != header.evidence {
      return Err(CorruptEncoding);
    }
    var canonical :- EncodeExecutionResult(sha, decoded);
    if canonical != encoding {
      return Err(CorruptEncoding);
    }
    return Ok(decoded);
  }

  predicate ChecksumMatches(sha: Sha, encoding: Bytes, retained: Bytes)
    requires |encoding| >= CHECKSUM_SIZE
  {
    retained == Sha256Hex(sha, encoding[..|encoding| - CHECKSUM_SIZE])
  }

  /** decode_execution_result. */
  method DecodeExecutionResult(sha: Sha, encoding: Bytes, q: Request, p: Profile)
    returns (r: Result<ExecutionResult>)
    ensures r == Decode(sha, encoding, q, p)
  {
    r := DecodeUncaught(sha, encoding, q, p);
    if r.Err? && !r.code.CorruptEncoding? && !r.code.AuthorityMismatch? && !r.code.IdentityFailed? {
      return Err(CorruptEncoding);
    }
  }
}
