/** What follows about any result a factory returns: exactness, agreement of evidence and claims, authority. */
module Evidence {
  import opened Wrappers
  import opened Bytes
  import opened Model
  import opened Preimages
  import opened Requests
  import opened Profiles
  import opened Control
  import opened Results

  // ---------------------------------------------------------------- started results

  /** Failures whose evidence is complete; the other two lose cleanup or capture evidence. */
  predicate CompleteEvidence(r: ExecutionResult) {
    r.failure != Some(CleanupFailed) && r.failure != Some(LogCaptureFailed)
  }

  /**
   A started success, nonzero exit, signal, limit or cancellation establishes the required list
   itself; a cleanup failure establishes it without exactly `cleanup_verified`, which was required;
   a log-capture failure without the capture guarantees of the missing requested streams, which
   are some when both were requested.
   */
  lemma StartedExactness(sha: Sha, c: FactoryCall)
    requires c.WellFormed(sha) && Make(sha, c).Ok? && Make(sha, c).value.start.Started?
    ensures var r := Make(sha, c).value;
      && (CompleteEvidence(r) ==> r.established == c.request.required)
      && (r.failure == Some(CleanupFailed) ==>
            CleanupVerified in c.request.required
            && forall g :: g in r.established <==> g in c.request.required && !g.CleanupVerified?)
      && (r.failure == Some(LogCaptureFailed) ==>
            (forall g :: g in r.established <==> g in c.request.required && g !in MissingStreams(r))
            && (forall g | g in MissingStreams(r) ::
                  g in c.request.required && (g.CompleteStdoutCapture? || g.CompleteStderrCapture?))
            && (WantsStdout(c.request) && WantsStderr(c.request) ==> MissingStreams(r) != {}))
  {
    hide Make, FactoryCall.WellFormed, SealedRequest, SealedProfile, ValidCapture, LimitShape, Identity;
    MadeIsAdmissible(sha, c);
    var r := Make(sha, c).value;
    RequiredOf(sha, r.request);
    RequiredMeans(sha, r.request);
    if CompleteEvidence(r) {
      CanonUnique(r.established, r.request.required);
    }
  }

  // ---------------------------------------------------------------- evidence agrees with claims

  ghost predicate ClaimsAgree(r: ExecutionResult) {
    && (r.stdout.Some? <==> CompleteStdoutCapture in r.established)
    && (r.stderr.Some? <==> CompleteStderrCapture in r.established)
    && (r.cleanup.Verified? <==> CleanupVerified in r.established)
    && Canon(r.established)
    && (forall g | g in r.established :: g in r.request.required && g in r.backend.guarantees)
    && (ResourceLimits in r.established <==> exists k: LimitKind :: GuaranteeFor(k) in r.established)
  }

  lemma EvidenceAgreesWithClaims(sha: Sha, c: FactoryCall)
    requires c.WellFormed(sha) && Make(sha, c).Ok?
    ensures ClaimsAgree(Make(sha, c).value)
  {
    hide Make, FactoryCall.WellFormed, SealedRequest, SealedProfile, ValidCapture, Identity;
    MadeIsAdmissible(sha, c);
    var r := Make(sha, c).value;
    RequiredOf(sha, r.request);
    LimitShapeMeans(r.established);
  }

  lemma LimitShapeMeans(gs: seq<Guarantee>)
    ensures LimitShape(gs) <==> (ResourceLimits in gs <==> exists k: LimitKind :: GuaranteeFor(k) in gs)
  {
    if g :| g in gs && KindSpecific(g) {
      var k := match g
        case CpuTimeLimit => CpuTime
        case AddressSpaceLimit => AddressSpace
        case FileSizeLimit => FileSize
        case OpenFilesLimit => OpenFiles
        case _ => ProcessCount;
      assert GuaranteeFor(k) == g;
    }
    if k: LimitKind :| GuaranteeFor(k) in gs {
      assert KindSpecific(GuaranteeFor(k));
    }
  }

  /** A limit failure names a limit the request sets, and both its guarantee and the aggregate are established. */
  lemma LimitFailuresAreBacked(sha: Sha, c: FactoryCall)
    requires c.WellFormed(sha) && Make(sha, c).Ok? && Make(sha, c).value.failure == Some(ResourceLimitExceeded)
    ensures var r := Make(sha, c).value;
      && r.start.Started? && ResourceLimits in r.established && r.termination.Some? && r.termination.value.Limited?
      && match r.termination.value.kind {
           case CpuTime => r.request.body.limits.cpuTime.Some? && CpuTimeLimit in r.established
           case AddressSpace => r.request.body.limits.addressSpace.Some? && AddressSpaceLimit in r.established
           case FileSize => r.request.body.limits.fileSize.Some? && FileSizeLimit in r.established
           case OpenFiles => r.request.body.limits.openFiles.Some? && OpenFilesLimit in r.established
           case ProcessCount => r.request.body.limits.processCount.Some? && ProcessCountLimit in r.established
         }
  {
    hide Make, FactoryCall.WellFormed, SealedRequest, SealedProfile, ValidCapture, Identity, LimitShape;
    MadeIsAdmissible(sha, c);
    var r := Make(sha, c).value;
    RequiredOf(sha, r.request);
    LimitsNotEmpty(r.request.body.limits, r.termination.value.kind);
    assert GuaranteeFor(r.termination.value.kind) in r.request.required;
  }

  // ---------------------------------------------------------------- unsupported requests never start

  /** When the profile does not support the request, one result is left: not started, backend_unsupported. */
  lemma UnsupportedNeverStarts(sha: Sha, c: FactoryCall)
    requires c.WellFormed(sha) && Make(sha, c).Ok? && !Supports(c.backend, c.request)
    ensures c.CallFailedBeforeStart? && c.failure.BackendUnsupported?
    ensures Make(sha, c).value.start.NotStarted? && Make(sha, c).value.failure == Some(BackendUnsupported)
  {
    hide Normalize, LimitShape, SealedRequest, SealedProfile, Identity, Includes, BeforeStartOnly, FailureEvidence,
         CaptureShape, RequireRequestedControl, Supports;
  }

  /** That result is always available, and also when the backend does support the request. */
  lemma UnsupportedIsAlwaysReportable(sha: Sha, q: Request, p: Profile, diagnostic: Text)
    ensures FailedBeforeStart(sha, q, p, BackendUnsupported, [], diagnostic).Ok?
  {
    hide Identity, Supports;
    NormalizeFixes([]);
  }

  /** The later subset guard of `succeeded` cannot throw: the earlier guards imply it. */
  lemma SuccessSubsetGuardIsRedundant(p: Profile, q: Request, established: seq<Guarantee>)
    requires Includes(q.required, established) && Supports(p, q)
    ensures Includes(p.guarantees, established)
  {
  }

  /** Nor can the guarantee guard of a requested resource-limit failure. */
  lemma LimitGuardNeverThrows(sha: Sha, q: Request, t: Termination, out: Option<StreamCapture>,
                              err: Option<StreamCapture>, established: seq<Guarantee>, u: Cleanup, admitted: bool)
    requires SealedRequest(sha, q) && Includes(established, BeforeStartOnly(q.required))
    ensures FailureEvidence(q, t, out, err, established, u, ResourceLimitExceeded, admitted)
         == Need(t.Limited? && q.body.limits.Requested(t.kind), InvalidFailure)
  {
    hide SealedRequest, BeforeStartOnly, CaptureShape;
    if t.Limited? && q.body.limits.Requested(t.kind) {
      RequiredOf(sha, q);
      LimitsNotEmpty(q.body.limits, t.kind);
      var g := GuaranteeFor(t.kind);
      assert g in q.required && BeforeStart(g) && g in BeforeStartOnly(q.required);
      assert ResourceLimits in BeforeStartOnly(q.required);
    }
  }

  lemma LimitsNotEmpty(l: Limits, kind: LimitKind)
    requires l.Requested(kind)
    ensures !l.Empty()
  {
  }

  // ---------------------------------------------------------------- guards that are weaker than they look

  /** A cleanup or log-capture failure says nothing about how the process ended. */
  lemma AnyTerminationFits(sha: Sha, r: ExecutionResult, t: Termination)
    requires Admissible(sha, r) && r.start.Started? && !CompleteEvidence(r)
    ensures Admissible(sha, Identified(sha, r.(termination := Some(t))))
  {
    hide SealedRequest, SealedProfile, ValidCapture, LimitShape, Includes, Identity;
    var s := Identified(sha, r.(termination := Some(t)));
    assert EvidenceOf(s) == EvidenceOf(r.(termination := Some(t)));
    assert MissingStreams(s) == MissingStreams(r);
  }

  /**
   A log-capture failure that lost nothing is accepted exactly when some stream was not requested:
   the guard only fires when both were requested and both are present.
   */
  lemma LogCaptureWithNothingMissing(
    sha: Sha, q: Request, p: Profile, t: Termination, out: Option<StreamCapture>, err: Option<StreamCapture>, d: Text)
    requires SealedRequest(sha, q) && SealedProfile(sha, p) && Supports(p, q)
    requires ValidCapture(sha, out) && ValidCapture(sha, err)
    requires out.Some? == WantsStdout(q) && err.Some? == WantsStderr(q)
    ensures var made := FailedAfterStart(sha, q, p, q.body.interpreter, t, out, err, q.required, Verified,
                                         LogCaptureFailed, d);
      && (made.Ok? <==> !(WantsStdout(q) && WantsStderr(q)))
      && (made.Err? ==> made.code == InvalidFailure)
  {
    hide SealedRequest, SealedProfile, ValidCapture, Identity, LimitShape, BeforeStartOnly, Normalize;
    RequiredMeans(sha, q);
    RequiredOf(sha, q);
    RequiredHasLimitShape(sha, q);
    NormalizeFixes(q.required);
    BeforeStartIsIncluded(q.required);
  }

  lemma BeforeStartIsIncluded(gs: seq<Guarantee>)
    ensures Includes(gs, BeforeStartOnly(gs))
  {
  }

  /** What a request requires always has the limit shape. */
  lemma RequiredHasLimitShape(sha: Sha, q: Request)
    requires SealedRequest(sha, q)
    ensures LimitShape(q.required)
  {
    hide SealedRequest, LimitShape, Limits.Empty, Limits.Requested;
    RequiredOf(sha, q);
    LimitShapeMeans(q.required);
    if k: LimitKind :| q.body.limits.Requested(k) {
      LimitsNotEmpty(q.body.limits, k);
    }
    if !q.body.limits.Empty() {
      var k := SomeLimit(q.body.limits);
      assert GuaranteeFor(k) in q.required;
    }
  }

  lemma SomeLimit(l: Limits) returns (k: LimitKind)
    requires !l.Empty()
    ensures l.Requested(k)
  {
    if l.cpuTime.Some? {
      k := CpuTime;
    } else if l.addressSpace.Some? {
      k := AddressSpace;
    } else if l.fileSize.Some? {
      k := FileSize;
    } else if l.openFiles.Some? {
      k := OpenFiles;
    } else {
      k := ProcessCount;
    }
  }

  /**
   Every supported sealed request can succeed: claiming exactly what is required, with the streams
   as requested, passes every guard of `succeeded`.
   */
  lemma SupportedRequestsCanSucceed(
    sha: Sha, q: Request, p: Profile, out: Option<StreamCapture>, err: Option<StreamCapture>, claims: seq<Guarantee>,
    d: Text)
    requires SealedRequest(sha, q)
    requires forall g :: g in claims <==> g in q.required
    ensures Success(sha, q, p, q.body.interpreter, out, err, claims, d).Ok?
       <==> Supports(p, q) && out.Some? == WantsStdout(q) && err.Some? == WantsStderr(q)
  {
    hide SealedRequest, Identity, LimitShape, Normalize;
    RequiredMeans(sha, q);
    RequiredHasLimitShape(sha, q);
    CanonUnique(Normalize(claims), q.required);
  }

  // ---------------------------------------------------------------- authority of cancellation

  /** A cancelled result comes from a call with the request's own token, already signalled, and from no other. */
  lemma CancelledIsAuthorised(sha: Sha, c: FactoryCall)
    requires c.WellFormed(sha) && Make(sha, c).Ok?
    ensures Make(sha, c).value.failure == Some(CancelledFailure) <==> c.HasToken()
    ensures c.HasToken() ==>
      c.token == Token(c.request.identity, true) && Enabled(c.request) && Supports(c.backend, c.request)
      && Cancellation in Make(sha, c).value.established
  {
    hide FactoryCall.WellFormed, Make, SealedRequest, SealedProfile, LimitShape, Includes, Identity, Supports,
         ValidCapture;
    MadeIsAdmissible(sha, c);
    TokenIsChecked(sha, c);
    if c.HasToken() {
      RequiredOf(sha, c.request);
    }
  }

  lemma TokenIsChecked(sha: Sha, c: FactoryCall)
    requires Make(sha, c).Ok?
    ensures Make(sha, c).value.failure == Some(CancelledFailure) <==> c.HasToken()
    ensures c.HasToken() ==> c.token == Token(c.request.identity, true)
  {
    hide Normalize, Identity, LimitShape, Includes, Supports, BeforeStartOnly, CaptureShape;
  }

  // ---------------------------------------------------------------- what the evidence identity covers

  /** The fields `identify_result` hashes. Diagnostic and retained material are not among them. */
  ghost predicate SameEvidence(a: ExecutionResult, b: ExecutionResult) {
    && a.status == b.status && a.start == b.start
    && a.request.identity == b.request.identity && a.backend.identity == b.backend.identity
    && a.observed == b.observed && a.termination == b.termination
    && SameCapture(a.stdout, b.stdout) && SameCapture(a.stderr, b.stderr)
    && a.established == b.established && a.cleanup == b.cleanup && a.failure == b.failure
  }

  predicate SameCapture(a: Option<StreamCapture>, b: Option<StreamCapture>) {
    if a.None? || b.None? then a.None? && b.None?
    else a.value.count == b.value.count && a.value.digest == b.value.digest
  }

  /** A capture is hashed as a flag, its count and its digest. */
  function CaptureBytes(c: Option<StreamCapture>): Bytes {
    match c
    case None => [0]
    case Some(c) => [1] + (BE(c.count, 8) + PutString(c.digest))
  }

  lemma CaptureIsFramed(c: Option<StreamCapture>)
    ensures PutOption(Summary(c), PutCapture) == CaptureBytes(c)
  {
    hide PutString, BE;
    if c.Some? {
      SmallRecordBytes(EnvironmentVariable([], []), CaptureSummary(c.value.count, c.value.digest), Cancelled);
    }
  }

  /** The identity of a result is the hash of these bytes of its fields, in this order. */
  lemma ResultIdentityBytes(sha: Sha, r: ExecutionResult)
    requires Admissible(sha, r)
    ensures r.identity == Sha256Hex(sha, PutString(Ascii("pkgexec/execution-evidence/v1"))
      + (([StatusByte(r.status)] + ([StartByte(r.start)] + (PutString(r.request.identity)
          + (PutString(r.backend.identity)
          + (PutOption(r.observed, PutHex) + PutOption(r.termination, PutTermination))))))
      + (CaptureBytes(r.stdout) + (CaptureBytes(r.stderr) + (PutList(r.established, PutGuarantee)
          + ([CleanupByte(r.cleanup)] + PutOption(r.failure, PutFailure)))))))
  {
    hide PutString, PutList, PutOption, Ascii, Render, CaptureBytes, SealedRequest, SealedProfile, NotStartedEvidence,
         StartedEvidence, ValidCapture, LimitShape;
    EvidenceBytes(EvidenceOf(r));
    CaptureIsFramed(r.stdout);
    CaptureIsFramed(r.stderr);
  }

  /** Two results feed SHA-256 the same bytes exactly when they agree on the hashed fields. */
  lemma SameBytesSameEvidence(a: ExecutionResult, b: ExecutionResult)
    ensures Render(EvidenceOf(a)) == Render(EvidenceOf(b)) <==> SameEvidence(a, b)
  {
    hide Render;
    RenderIsInjective(EvidenceOf(a), EvidenceOf(b));
  }

  /** Where SHA-256 does not collide, `operator==` on results is agreement on the hashed fields. */
  lemma EqualResults(sha: Sha, a: ExecutionResult, b: ExecutionResult)
    requires Admissible(sha, a) && Admissible(sha, b) && NoCollision(sha, EvidenceOf(a), EvidenceOf(b))
    ensures a.identity == b.identity <==> SameEvidence(a, b)
  {
    hide Render, Identity, NoCollision, SealedRequest, SealedProfile, NotStartedEvidence, StartedEvidence, ValidCapture,
         LimitShape, Includes;
    IdentityDetermines(sha, EvidenceOf(a), EvidenceOf(b));
  }

  /**
   An evidence identity commits to everything but diagnostic and material: where SHA-256 does not
   collide on the preimages involved, results with one identity have the same request and profile,
   field by field, and the same evidence.
   */
  lemma IdentityCommits(sha: Sha, a: ExecutionResult, b: ExecutionResult)
    requires Admissible(sha, a) && Admissible(sha, b)
    requires PartsSealed(sha, a.request.body) && PartsSealed(sha, b.request.body)
    requires NoCollision(sha, EvidenceOf(a), EvidenceOf(b))
    requires NoCollision(sha, ProfileImage(a.backend.backend, a.backend.guarantees),
                         ProfileImage(b.backend.backend, b.backend.guarantees))
    requires NoCollision(sha, Image(a.request.body, a.request.required), Image(b.request.body, b.request.required))
    requires NoPartsCollision(sha, a.request.body, b.request.body)
    ensures a.identity == b.identity <==> SameEvidence(a, b) && a.request == b.request && a.backend == b.backend
  {
    hide Render, Identity, NoCollision, Admissible, SameEvidence, PartsSealed;
    EqualResults(sha, a, b);
    if SameEvidence(a, b) {
      SameAuthorities(a, b);
      BothSealed(sha, a);
      BothSealed(sha, b);
      SameIdentitySameRequest(sha, a.request, b.request);
      SameIdentitySameProfile(sha, a.backend, b.backend);
    }
  }

  ghost predicate NoPartsCollision(sha: Sha, a: RequestBody, b: RequestBody) {
    && NoCollision(sha, LayoutPreimage(a.resources), LayoutPreimage(b.resources))
    && NoCollision(sha, EnvironmentPreimage(a.environment), EnvironmentPreimage(b.environment))
    && NoCollision(sha, CredentialPreimage(a.credentials), CredentialPreimage(b.credentials))
    && NoCollision(sha, LimitsPreimage(a.limits), LimitsPreimage(b.limits))
  }

  lemma SameAuthorities(a: ExecutionResult, b: ExecutionResult)
    requires SameEvidence(a, b)
    ensures a.request.identity == b.request.identity && a.backend.identity == b.backend.identity
  {
  }

  lemma BothSealed(sha: Sha, r: ExecutionResult)
    requires Admissible(sha, r)
    ensures SealedRequest(sha, r.request) && SealedProfile(sha, r.backend)
  {
  }

  lemma SameIdentitySameProfile(sha: Sha, a: Profile, b: Profile)
    requires SealedProfile(sha, a) && SealedProfile(sha, b)
    requires NoCollision(sha, ProfileImage(a.backend, a.guarantees), ProfileImage(b.backend, b.guarantees))
    ensures a.identity == b.identity <==> a == b
  {
    hide Identity, NoCollision, Normalize, LimitShape;
    IdentityDetermines(sha, ProfileImage(a.backend, a.guarantees), ProfileImage(b.backend, b.guarantees));
  }

  /** Any diagnostic, and retaining or dropping material, leaves a result consistent and its identity as it was. */
  lemma DiagnosticAndMaterialAreFree(sha: Sha, r: ExecutionResult, d: Text, out: Option<StreamCapture>,
                                     err: Option<StreamCapture>)
    requires Admissible(sha, r) && ValidCapture(sha, out) && ValidCapture(sha, err)
    requires SameCapture(out, r.stdout) && SameCapture(err, r.stderr)
    ensures Admissible(sha, r.(diagnostic := d, stdout := out, stderr := err))
  {
    hide SealedRequest, SealedProfile, LimitShape, Includes, Identity, Supports, StreamCapture.Valid;
    var s := r.(diagnostic := d, stdout := out, stderr := err);
    assert EvidenceOf(s) == EvidenceOf(r);
    assert MissingStreams(s) == MissingStreams(r);
  }

  // ---------------------------------------------------------------- which error a refused call throws

  /** Claims of the limit shape, within what the request requires and the backend gives. */
  ghost predicate ClaimsFit(q: Request, p: Profile, claims: seq<Guarantee>) {
    && (ResourceLimits in claims <==> exists k: LimitKind :: GuaranteeFor(k) in claims)
    && forall g | g in claims :: g in q.required && g in p.guarantees
  }

  /** The error of a control check: a request without control, a foreign token, a token not signalled. */
  function ControlError(q: Request, token: Token): ErrorCode {
    if Enabled(q) && token.request != q.identity then ControlMismatch else InvalidControl
  }

  /** The error of a refused started failure, by what is wrong with it. */
  ghost function StartedError(
    q: Request, p: Profile, observed: Hex, t: Termination, out: Option<StreamCapture>, err: Option<StreamCapture>,
    claims: seq<Guarantee>, u: Cleanup, f: FailureKind, admitted: bool): ErrorCode
  {
    if PreStart(f) then InvalidFailure
    else if u.NotRequired? || observed != q.body.interpreter || !ClaimsFit(q, p, claims) then InconsistentResult
    else if !Supports(p, q) then UnsupportedRequest
    else if (exists g :: g in q.required && BeforeStart(g) && g !in claims)
         || (CompleteStdoutCapture in claims) != out.Some? || (CompleteStderrCapture in claims) != err.Some?
         || (CleanupVerified in claims) != u.Verified? then InconsistentResult
    else
      match f
      case CancelledFailure => if admitted then InconsistentResult else InvalidControl
      case LogCaptureFailed =>
        if (out.Some? ==> WantsStdout(q)) && (err.Some? ==> WantsStderr(q)) && WantsStdout(q) && WantsStderr(q)
           && out.Some? && err.Some? then InvalidFailure else InconsistentResult
      case CleanupFailed => if u.CleanupFailure? then InconsistentResult else InvalidFailure
      case _ => if TerminationFits(q, f, t) then InconsistentResult else InvalidFailure
  }

  ghost function ErrorOf(c: FactoryCall): ErrorCode {
    match c
    case CallFailedBeforeStart(q, p, f, e, _) =>
      if f.CancelledFailure? then InvalidControl
      else if !PreStart(f) then InvalidFailure
      else if ClaimsFit(q, p, e) && forall g | g in e :: BeforeStart(g) then UnsupportedRequest
      else InconsistentResult
    case CallCancelledBeforeStart(q, p, token, e, _) =>
      if token != Token(q.identity, true) || !Enabled(q) then ControlError(q, token)
      else if ClaimsFit(q, p, e) && !Supports(p, q) then UnsupportedRequest
      else InconsistentResult
    case CallSucceeded(q, p, _, _, _, e, _) =>
      if (ResourceLimits in e <==> exists k: LimitKind :: GuaranteeFor(k) in e)
         && (forall g | g in e :: g in q.required)
         && !(Supports(p, q) && forall g | g in q.required :: g in e) then UnsupportedRequest
      else InconsistentResult
    case CallFailedAfterStart(q, p, o, t, out, err, e, u, f, _) =>
      StartedError(q, p, o, t, out, err, e, u, f, false)
    case CallCancelledAfterStart(q, p, token, o, out, err, e, u, _) =>
      if token != Token(q.identity, true) || !Enabled(q) then ControlError(q, token)
      else StartedError(q, p, o, Cancelled, out, err, e, u, CancelledFailure, true)
  }

  /** The first three claim guards of every factory, as conditions on the set of claims. */
  lemma ClaimGuards(q: Request, p: Profile, claims: seq<Guarantee>)
    ensures ClaimsFit(q, p, claims) <==>
      LimitShape(Normalize(claims)) && Includes(q.required, Normalize(claims))
      && Includes(p.guarantees, Normalize(claims))
    ensures LimitShape(Normalize(claims)) <==>
      (ResourceLimits in claims <==> exists k: LimitKind :: GuaranteeFor(k) in claims)
    ensures Includes(q.required, Normalize(claims)) <==> forall g | g in claims :: g in q.required
    ensures Includes(Normalize(claims), q.required) <==> forall g | g in q.required :: g in claims
    ensures (forall g | g in Normalize(claims) :: BeforeStart(g)) <==> forall g | g in claims :: BeforeStart(g)
  {
    hide LimitShape;
    LimitShapeMeans(Normalize(claims));
  }

  lemma StartedErrorIs(
    sha: Sha, q: Request, p: Profile, o: Hex, t: Termination, out: Option<StreamCapture>, err: Option<StreamCapture>,
    e: seq<Guarantee>, u: Cleanup, f: FailureKind, admitted: bool, d: Text)
    requires SealedRequest(sha, q) && (admitted ==> f.CancelledFailure? && t.Cancelled?)
    requires FailedAfterStartImpl(sha, q, p, o, t, out, err, e, u, f, admitted, d).Err?
    ensures FailedAfterStartImpl(sha, q, p, o, t, out, err, e, u, f, admitted, d).code
         == StartedError(q, p, o, t, out, err, e, u, f, admitted)
  {
    hide SealedRequest, LimitShape, Normalize, Includes, BeforeStartOnly, Identified, FailureEvidence, ClaimsFit,
         Supports;
    var claims := Normalize(e);
    ClaimGuards(q, p, e);
    NormalKeeps(e);
    BeforeStartGuard(q, e);
    if Includes(claims, BeforeStartOnly(q.required)) && !PreStart(f) {
      SwitchErrorIs(sha, q, t, out, err, claims, u, f, admitted);
    }
  }

  lemma NormalKeeps(e: seq<Guarantee>)
    ensures forall g :: g in Normalize(e) <==> g in e
  {
  }

  lemma BeforeStartGuard(q: Request, claims: seq<Guarantee>)
    ensures Includes(Normalize(claims), BeforeStartOnly(q.required)) <==>
      !exists g :: g in q.required && BeforeStart(g) && g !in claims
  {
  }

  /** The switch over the failure, with both streams and the cleanup already agreeing with the claims. */
  lemma SwitchErrorIs(
    sha: Sha, q: Request, t: Termination, out: Option<StreamCapture>, err: Option<StreamCapture>,
    claims: seq<Guarantee>, u: Cleanup, f: FailureKind, admitted: bool)
    requires SealedRequest(sha, q) && Includes(claims, BeforeStartOnly(q.required)) && !PreStart(f)
    requires admitted ==> f.CancelledFailure? && t.Cancelled?
    ensures FailureEvidence(q, t, out, err, claims, u, f, admitted) ==
      match f {
        case CancelledFailure => Need(admitted, InvalidControl)
        case LogCaptureFailed =>
          if !((out.Some? ==> WantsStdout(q)) && (err.Some? ==> WantsStderr(q))) then Fail(InconsistentResult)
          else Need(!(WantsStdout(q) && out.Some? && WantsStderr(q) && err.Some?), InvalidFailure)
        case CleanupFailed => Need(u.CleanupFailure?, InvalidFailure)
        case _ => Need(TerminationFits(q, f, t), InvalidFailure)
      }
  {
    hide SealedRequest, Includes, BeforeStartOnly;
    if f.ResourceLimitExceeded? {
      LimitGuardNeverThrows(sha, q, t, out, err, claims, u, admitted);
    }
  }

  /** The error of every refused factory call is the one its arguments call for. */
  lemma EveryRefusalExplained(sha: Sha, c: FactoryCall)
    requires c.WellFormed(sha) && Make(sha, c).Err?
    ensures Make(sha, c).code == ErrorOf(c)
  {
    hide SealedRequest, SealedProfile, ValidCapture, LimitShape, Normalize, Includes, Identified, FailedAfterStartImpl,
         StartedError, ClaimsFit, Supports;
    ClaimGuards(c.request, c.backend, c.established);
    match c {
      case CallFailedBeforeStart(q, p, f, e, _) =>
      case CallCancelledBeforeStart(q, p, _, e, _) =>
      case CallSucceeded(q, p, _, _, _, e, _) =>
        if Supports(p, q) && forall g | g in e :: g in q.required {
          SupportsAll(q, p, e);
        }
      case CallFailedAfterStart(q, p, o, t, out, err, e, u, f, d) =>
        StartedErrorIs(sha, q, p, o, t, out, err, e, u, f, false, d);
      case CallCancelledAfterStart(q, p, token, o, out, err, e, u, d) =>
        if token == Token(q.identity, true) && Enabled(q) {
          StartedErrorIs(sha, q, p, o, Cancelled, out, err, e, u, CancelledFailure, true, d);
        }
    }
  }

  lemma SupportsAll(q: Request, p: Profile, claims: seq<Guarantee>)
    requires Supports(p, q) && forall g | g in claims :: g in q.required
    ensures Includes(p.guarantees, Normalize(claims))
  {
  }
}
