/** Execution results (src/result.cpp): the five factories, and exactly what they admit. */
module Results {
  import opened Wrappers
  import opened Bytes
  import opened Model
  import opened Preimages
  import opened Requests
  import opened Profiles
  import opened Control

  datatype ExecutionResult = ExecutionResult(
    status: Status, start: StartState, request: Request, backend: Profile, observed: Option<Hex>,
    termination: Option<Termination>, stdout: Option<StreamCapture>, stderr: Option<StreamCapture>,
    established: Vec<Guarantee>, cleanup: Cleanup, failure: Option<FailureKind>, diagnostic: Text, identity: Hex)

  // ---------------------------------------------------------------- evidence identity

  function Summary(c: Option<StreamCapture>): Option<CaptureSummary> {
    match c case None => None case Some(c) => Some(CaptureSummary(c.count, c.digest))
  }

  /** What identify_result hashes. */
  function EvidenceOf(r: ExecutionResult): Preimage {
    EvidenceImage(r.status, r.start, r.request.identity, r.backend.identity, r.observed, r.termination,
                  Summary(r.stdout), Summary(r.stderr), r.established, r.cleanup, r.failure)
  }

  function Identified(sha: Sha, r: ExecutionResult): ExecutionResult {
    r.(identity := Identity(sha, EvidenceOf(r)))
  }

  // ---------------------------------------------------------------- vocabulary decisions

  /** pre_start_failure. */
  predicate PreStart(f: FailureKind) {
    || f.RequestRejected? || f.BackendUnsupported? || f.ResourceAdmissionFailed?
    || f.InterpreterUnavailable? || f.IsolationSetupFailed? || f.ProcessStartFailed?
  }

  /** before_start_guarantee. */
  predicate BeforeStart(g: Guarantee) {
    !g.CompleteStdoutCapture? && !g.CompleteStderrCapture? && !g.CleanupVerified?
  }

  /** guarantee_for. */
  function GuaranteeFor(k: LimitKind): Guarantee {
    match k
    case CpuTime => CpuTimeLimit
    case AddressSpace => AddressSpaceLimit
    case FileSize => FileSizeLimit
    case OpenFiles => OpenFilesLimit
    case ProcessCount => ProcessCountLimit
  }

  function BeforeStartOnly(gs: seq<Guarantee>): (r: seq<Guarantee>)
    ensures forall g :: g in r <==> g in gs && BeforeStart(g)
  {
    if gs == [] then [] else
      var last := |gs| - 1;
      assert gs == gs[..last] + [gs[last]];
      BeforeStartOnly(gs[..last]) + (if BeforeStart(gs[last]) then [gs[last]] else [])
  }

  /** before_start_requirements. */
  method BeforeStartRequirements(r: Request) returns (result: seq<Guarantee>)
    ensures result == BeforeStartOnly(r.required)
  {
    result := [];
    for i := 0 to |r.required|
      invariant result == BeforeStartOnly(r.required[..i])
    {
      assert r.required[..i + 1][..i] == r.required[..i];
      if BeforeStart(r.required[i]) {
        result := result + [r.required[i]];
      }
    }
    assert r.required[..|r.required|] == r.required;
  }

  // ---------------------------------------------------------------- the factories

  function WantsStdout(r: Request): bool {
    r.body.environment.stdout.CaptureComplete?
  }

  function WantsStderr(r: Request): bool {
    r.body.environment.stderr.CaptureComplete?
  }

  /** require_capture_shape. */
  predicate CaptureShape(r: Request, stdout: Option<StreamCapture>, stderr: Option<StreamCapture>, allowMissing: bool) {
    !(|| (!allowMissing && WantsStdout(r) != stdout.Some?)
      || (!allowMissing && WantsStderr(r) != stderr.Some?)
      || (!WantsStdout(r) && stdout.Some?)
      || (!WantsStderr(r) && stderr.Some?))
  }

  /** require_requested_control. */
  function RequireRequestedControl(r: Request, token: Token): Outcome {
    if RequireControl(r, token).Fail? then RequireControl(r, token) else Need(token.requested, InvalidControl)
  }

  function FailedBeforeStart(
    sha: Sha, request: Request, backend: Profile, failure: FailureKind, established: seq<Guarantee>, diagnostic: Text)
    : Result<ExecutionResult>
  {
    var established := Normalize(established);
    :- Need(!failure.CancelledFailure?, InvalidControl);
    :- Need(PreStart(failure), InvalidFailure);
    :- Need(LimitShape(established), InconsistentResult);
    :- Need(Includes(request.required, established), InconsistentResult);
    :- Need(Includes(backend.guarantees, established), InconsistentResult);
    :- Need(forall g | g in established :: BeforeStart(g), InconsistentResult);
    :- Need(failure.BackendUnsupported? || Supports(backend, request), UnsupportedRequest);
    Ok(Identified(sha, ExecutionResult(Failed, NotStarted, request, backend, None, None, None, None, established,
                                       NotRequired, Some(failure), diagnostic, request.identity)))
  }

  function CancelledBeforeStart(
    sha: Sha, request: Request, backend: Profile, token: Token, established: seq<Guarantee>, diagnostic: Text)
    : Result<ExecutionResult>
  {
    var established := Normalize(established);
    :- RequireRequestedControl(request, token);
    :- Need(LimitShape(established), InconsistentResult);
    :- Need(Includes(request.required, established), InconsistentResult);
    :- Need(Includes(backend.guarantees, established), InconsistentResult);
    :- Need(Supports(backend, request), UnsupportedRequest);
    :- Need(Cancellation in established, InconsistentResult);
    :- Need(forall g | g in established :: BeforeStart(g), InconsistentResult);
    Ok(Identified(sha, ExecutionResult(Failed, NotStarted, request, backend, None, None, None, None, established,
                                       NotRequired, Some(CancelledFailure), diagnostic, request.identity)))
  }

  function Success(
    sha: Sha, request: Request, backend: Profile, observed: Hex, stdout: Option<StreamCapture>,
    stderr: Option<StreamCapture>, established: seq<Guarantee>, diagnostic: Text)
    : Result<ExecutionResult>
  {
    var established := Normalize(established);
    :- Need(LimitShape(established), InconsistentResult);
    :- Need(Includes(request.required, established), InconsistentResult);
    :- Need(Supports(backend, request) && Includes(established, request.required), UnsupportedRequest);
    :- Need(Includes(backend.guarantees, established), InconsistentResult);
    :- Need(observed == request.body.interpreter, InconsistentResult);
    :- Need(CaptureShape(request, stdout, stderr, false), InconsistentResult);
    Ok(Identified(sha, ExecutionResult(Succeeded, Started, request, backend, Some(observed), Some(Exited(0)), stdout,
                                       stderr, established, Verified, None, diagnostic, request.identity)))
  }

  /** The switch over the failure kind in failed_after_start_impl. */
  function FailureEvidence(
    request: Request, termination: Termination, stdout: Option<StreamCapture>, stderr: Option<StreamCapture>,
    established: seq<Guarantee>, cleanup: Cleanup, failure: FailureKind, admitted: bool): Outcome
  {
    match failure
    case ProgramExitedNonzero => Need(termination.Exited? && termination.status != 0, InvalidFailure)
    case ProgramTerminatedBySignal => Need(termination.Signaled?, InvalidFailure)
    case ResourceLimitExceeded =>
      if !termination.Limited? then Fail(InvalidFailure)
      else if !request.body.limits.Requested(termination.kind) then Fail(InvalidFailure)
      else Need(ResourceLimits in established && GuaranteeFor(termination.kind) in established, InconsistentResult)
    case CancelledFailure => if !admitted then Fail(InvalidControl) else Need(termination.Cancelled?, InvalidFailure)
    case LogCaptureFailed =>
      if !CaptureShape(request, stdout, stderr, true) then Fail(InconsistentResult)
      else Need(!(WantsStdout(request) && stdout.Some? && WantsStderr(request) && stderr.Some?), InvalidFailure)
    case CleanupFailed => Need(cleanup.CleanupFailure?, InvalidFailure)
    case _ => Pass
  }

  /** failed_after_start_impl. */
  function FailedAfterStartImpl(
    sha: Sha, request: Request, backend: Profile, observed: Hex, termination: Termination,
    stdout: Option<StreamCapture>, stderr: Option<StreamCapture>, established: seq<Guarantee>, cleanup: Cleanup,
    failure: FailureKind, admitted: bool, diagnostic: Text)
    : Result<ExecutionResult>
  {
    var established := Normalize(established);
    :- Need(!PreStart(failure), InvalidFailure);
    :- Need(!cleanup.NotRequired?, InconsistentResult);
    :- Need(observed == request.body.interpreter, InconsistentResult);
    :- Need(LimitShape(established), InconsistentResult);
    :- Need(Includes(request.required, established), InconsistentResult);
    :- Need(Includes(backend.guarantees, established), InconsistentResult);
    :- Need(Supports(backend, request), UnsupportedRequest);
    :- Need(Includes(established, BeforeStartOnly(request.required)), InconsistentResult);
    :- Need((CompleteStdoutCapture in established) == stdout.Some?
            && (CompleteStderrCapture in established) == stderr.Some?, InconsistentResult);
    :- Need(cleanup.Verified? == (CleanupVerified in established), InconsistentResult);
    :- FailureEvidence(request, termination, stdout, stderr, established, cleanup, failure, admitted);
    :- Need(failure.LogCaptureFailed? || CaptureShape(request, stdout, stderr, false), InconsistentResult);
    :- Need(failure.CleanupFailed? || cleanup.Verified?, InconsistentResult);
    Ok(Identified(sha, ExecutionResult(Failed, Started, request, backend, Some(observed), Some(termination), stdout,
                                       stderr, established, cleanup, Some(failure), diagnostic, request.identity)))
  }

  function FailedAfterStart(
    sha: Sha, request: Request, backend: Profile, observed: Hex, termination: Termination,
    stdout: Option<StreamCapture>, stderr: Option<StreamCapture>, established: seq<Guarantee>, cleanup: Cleanup,
    failure: FailureKind, diagnostic: Text)
    : Result<ExecutionResult>
  {
    FailedAfterStartImpl(sha, request, backend, observed, termination, stdout, stderr, established, cleanup, failure,
                         false, diagnostic)
  }

  function CancelledAfterStart(
    sha: Sha, request: Request, backend: Profile, token: Token, observed: Hex, stdout: Option<StreamCapture>,
    stderr: Option<StreamCapture>, established: seq<Guarantee>, cleanup: Cleanup, diagnostic: Text)
    : Result<ExecutionResult>
  {
    var control := RequireRequestedControl(request, token);
    :- control;
    FailedAfterStartImpl(sha, request, backend, observed, Cancelled, stdout, stderr, established, cleanup,
                         CancelledFailure, true, diagnostic)
  }

  /** Any call of any of the five factories, with all its arguments. */
  datatype FactoryCall =
    | CallFailedBeforeStart(
        request: Request, backend: Profile, failure: FailureKind, established: seq<Guarantee>, diagnostic: Text)
    | CallCancelledBeforeStart(
        request: Request, backend: Profile, token: Token, established: seq<Guarantee>, diagnostic: Text)
    | CallSucceeded(
        request: Request, backend: Profile, observed: Hex, stdout: Option<StreamCapture>,
        stderr: Option<StreamCapture>, established: seq<Guarantee>, diagnostic: Text)
    | CallFailedAfterStart(
        request: Request, backend: Profile, observed: Hex, termination: Termination, stdout: Option<StreamCapture>,
        stderr: Option<StreamCapture>, established: seq<Guarantee>, cleanup: Cleanup, failure: FailureKind,
        diagnostic: Text)
    | CallCancelledAfterStart(
        request: Request, backend: Profile, token: Token, observed: Hex, stdout: Option<StreamCapture>,
        stderr: Option<StreamCapture>, established: seq<Guarantee>, cleanup: Cleanup, diagnostic: Text)
  {
    predicate HasToken() {
      CallCancelledBeforeStart? || CallCancelledAfterStart?
    }

    predicate HasStreams() {
      CallSucceeded? || CallFailedAfterStart? || CallCancelledAfterStart?
    }

    /** The arguments are values their own classes can construct. */
    ghost predicate WellFormed(sha: Sha) {
      && SealedRequest(sha, request)
      && SealedProfile(sha, backend)
      && (HasStreams() ==> ValidCapture(sha, stdout) && ValidCapture(sha, stderr))
    }
  }

  function Make(sha: Sha, c: FactoryCall): Result<ExecutionResult> {
    match c
    case CallFailedBeforeStart(q, p, f, e, d) => FailedBeforeStart(sha, q, p, f, e, d)
    case CallCancelledBeforeStart(q, p, t, e, d) => CancelledBeforeStart(sha, q, p, t, e, d)
    case CallSucceeded(q, p, o, out, err, e, d) => Success(sha, q, p, o, out, err, e, d)
    case CallFailedAfterStart(q, p, o, t, out, err, e, c, f, d) =>
      FailedAfterStart(sha, q, p, o, t, out, err, e, c, f, d)
    case CallCancelledAfterStart(q, p, t, o, out, err, e, c, d) =>
      CancelledAfterStart(sha, q, p, t, o, out, err, e, c, d)
  }

  // ---------------------------------------------------------------- what the factories admit

  /** The result establishes every required guarantee except those in `missing`, and nothing else. */
  ghost predicate EstablishesAllBut(r: ExecutionResult, missing: set<Guarantee>) {
    forall g :: g in r.established <==> g in r.request.required && g !in missing
  }

  ghost predicate NotStartedEvidence(r: ExecutionResult) {
    && r.observed.None? && r.termination.None? && r.stdout.None? && r.stderr.None? && r.cleanup.NotRequired?
    && CompleteStdoutCapture !in r.established && CompleteStderrCapture !in r.established
    && CleanupVerified !in r.established
    && r.failure.Some?
    && match r.failure.value {
         case CancelledFailure => Enabled(r.request) && Supports(r.backend, r.request) && Cancellation in r.established
         case BackendUnsupported => true
         case RequestRejected => Supports(r.backend, r.request)
         case ResourceAdmissionFailed => Supports(r.backend, r.request)
         case InterpreterUnavailable => Supports(r.backend, r.request)
         case IsolationSetupFailed => Supports(r.backend, r.request)
         case ProcessStartFailed => Supports(r.backend, r.request)
         case _ => false
       }
  }

  /** The capture guarantees of the requested streams for which no evidence is present. */
  ghost function MissingStreams(r: ExecutionResult): set<Guarantee> {
    (if WantsStdout(r.request) && r.stdout.None? then {CompleteStdoutCapture} else {})
    + (if WantsStderr(r.request) && r.stderr.None? then {CompleteStderrCapture} else {})
  }

  ghost predicate StreamsAsRequested(r: ExecutionResult) {
    r.stdout.Some? == WantsStdout(r.request) && r.stderr.Some? == WantsStderr(r.request)
  }

  /** The process termination each failure of a started process may report. */
  ghost predicate TerminationFits(q: Request, f: FailureKind, t: Termination) {
    match f
    case ProgramExitedNonzero => t.Exited? && t.status != 0
    case ProgramTerminatedBySignal => t.Signaled?
    case ResourceLimitExceeded => t.Limited? && q.body.limits.Requested(t.kind)
    case CancelledFailure => t.Cancelled? && Enabled(q)
    case LogCaptureFailed => true
    case CleanupFailed => true
    case _ => false
  }

  ghost predicate LogCaptureEvidence(r: ExecutionResult) {
    && (r.stdout.Some? ==> WantsStdout(r.request)) && (r.stderr.Some? ==> WantsStderr(r.request))
    && (WantsStdout(r.request) && WantsStderr(r.request) ==> MissingStreams(r) != {})
  }

  /**
   Started evidence: everything required is established, except `cleanup_verified` after a cleanup
   failure and the capture guarantees of the streams a log-capture failure lost.
   */
  ghost predicate StartedEvidence(r: ExecutionResult) {
    && r.observed == Some(r.request.body.interpreter)
    && Supports(r.backend, r.request)
    && r.termination.Some?
    && (if r.failure.None? then r.termination.value == Exited(0)
        else TerminationFits(r.request, r.failure.value, r.termination.value))
    && (if r.failure == Some(LogCaptureFailed) then LogCaptureEvidence(r) else StreamsAsRequested(r))
    && r.cleanup == (if r.failure == Some(CleanupFailed) then CleanupFailure else Verified)
    && EstablishesAllBut(r, MissingStreams(r) + if r.failure == Some(CleanupFailed) then {CleanupVerified} else {})
  }

  /** The reference definition of consistent evidence, without reference to the factories' guards. */
  ghost predicate Admissible(sha: Sha, r: ExecutionResult) {
    && SealedRequest(sha, r.request) && SealedProfile(sha, r.backend)
    && ValidCapture(sha, r.stdout) && ValidCapture(sha, r.stderr)
    && Canon(r.established) && LimitShape(r.established)
    && (forall g | g in r.established :: g in r.request.required)
    && (forall g | g in r.established :: g in r.backend.guarantees)
    && r.identity == Identity(sha, EvidenceOf(r))
    && (r.status.Succeeded? <==> r.failure.None?)
    && (if r.start.NotStarted? then NotStartedEvidence(r) else StartedEvidence(r))
  }

  // ---------------------------------------------------------------- every factory result is admissible

  lemma NotStartedIsAdmissible(sha: Sha, c: FactoryCall)
    requires c.WellFormed(sha) && (c.CallFailedBeforeStart? || c.CallCancelledBeforeStart?) && Make(sha, c).Ok?
    ensures Admissible(sha, Make(sha, c).value)
    ensures Make(sha, c).value.request == c.request && Make(sha, c).value.backend == c.backend
  {
    hide Normalize, LimitShape, SealedRequest, SealedProfile, Identity;
  }

  lemma SuccessIsAdmissible(sha: Sha, c: FactoryCall)
    requires c.WellFormed(sha) && c.CallSucceeded? && Make(sha, c).Ok?
    ensures Admissible(sha, Make(sha, c).value)
    ensures Make(sha, c).value.request == c.request && Make(sha, c).value.backend == c.backend
  {
    hide Normalize, LimitShape, SealedRequest, SealedProfile, Identity;
    var r := Make(sha, c).value;
    assert MissingStreams(r) == {};
  }

  /** Which of the guarantees a started process can fail to establish are required at all. */
  lemma RequiredOf(sha: Sha, q: Request)
    requires SealedRequest(sha, q)
    ensures CompleteStdoutCapture in q.required <==> WantsStdout(q)
    ensures CompleteStderrCapture in q.required <==> WantsStderr(q)
    ensures CleanupVerified in q.required
    ensures Cancellation in q.required <==> Enabled(q)
    ensures ResourceLimits in q.required <==> !q.body.limits.Empty()
    ensures forall k: LimitKind :: GuaranteeFor(k) in q.required <==> q.body.limits.Requested(k)
  {
    hide SealedRequest, HasAccess;
    RequiredMeans(sha, q);
    forall k: LimitKind
      ensures GuaranteeFor(k) in q.required <==> q.body.limits.Requested(k)
    {
      assert Consistent(GuaranteeFor(k), q.body) <==> q.body.limits.Requested(k);
    }
  }

  /** The guards after the guarantee checks pin down what is established. */
  lemma EstablishedExactly(r: ExecutionResult)
    requires Includes(r.request.required, r.established)
    requires Includes(r.established, BeforeStartOnly(r.request.required))
    requires CompleteStdoutCapture in r.request.required <==> WantsStdout(r.request)
    requires CompleteStderrCapture in r.request.required <==> WantsStderr(r.request)
    requires CompleteStdoutCapture in r.established <==> r.stdout.Some?
    requires CompleteStderrCapture in r.established <==> r.stderr.Some?
    requires r.failure == Some(CleanupFailed) <==> CleanupVerified !in r.established
    ensures EstablishesAllBut(r, MissingStreams(r) + if r.failure == Some(CleanupFailed) then {CleanupVerified} else {})
  {
    forall g | g in r.request.required && BeforeStart(g)
      ensures g in r.established
    {
      assert g in BeforeStartOnly(r.request.required);
    }
  }

  lemma IncludesMeans(superset: seq<Guarantee>, subset: seq<Guarantee>)
    ensures Includes(superset, subset) <==> forall g | g in subset :: g in superset
  {
  }

  lemma StartedImplIsAdmissible(
    sha: Sha, q: Request, p: Profile, observed: Hex, t: Termination, out: Option<StreamCapture>,
    err: Option<StreamCapture>, e: seq<Guarantee>, cleanup: Cleanup, f: FailureKind, admitted: bool, d: Text)
    requires SealedRequest(sha, q) && SealedProfile(sha, p) && ValidCapture(sha, out) && ValidCapture(sha, err)
    requires admitted ==> Enabled(q)
    requires FailedAfterStartImpl(sha, q, p, observed, t, out, err, e, cleanup, f, admitted, d).Ok?
    ensures var r := FailedAfterStartImpl(sha, q, p, observed, t, out, err, e, cleanup, f, admitted, d).value;
      Admissible(sha, r) && r.request == q && r.backend == p
  {
    hide Normalize, LimitShape, SealedRequest, SealedProfile, Identity, BeforeStartOnly, EstablishesAllBut,
         ValidCapture, Includes;
    var r := FailedAfterStartImpl(sha, q, p, observed, t, out, err, e, cleanup, f, admitted, d).value;
    RequiredOf(sha, q);
    EstablishedExactly(r);
    IncludesMeans(q.required, r.established);
    IncludesMeans(p.guarantees, r.established);
  }

  lemma StartedIsAdmissible(sha: Sha, c: FactoryCall)
    requires c.WellFormed(sha) && (c.CallFailedAfterStart? || c.CallCancelledAfterStart?) && Make(sha, c).Ok?
    ensures Admissible(sha, Make(sha, c).value)
    ensures Make(sha, c).value.request == c.request && Make(sha, c).value.backend == c.backend
  {
    hide Admissible, FailedAfterStartImpl;
    match c {
      case CallFailedAfterStart(q, p, o, t, out, err, e, u, f, d) =>
        StartedImplIsAdmissible(sha, q, p, o, t, out, err, e, u, f, false, d);
      case CallCancelledAfterStart(q, p, t, o, out, err, e, u, d) =>
        StartedImplIsAdmissible(sha, q, p, o, Cancelled, out, err, e, u, CancelledFailure, true, d);
    }
  }

  lemma MadeIsAdmissible(sha: Sha, c: FactoryCall)
    requires c.WellFormed(sha) && Make(sha, c).Ok?
    ensures Admissible(sha, Make(sha, c).value)
    ensures Make(sha, c).value.request == c.request && Make(sha, c).value.backend == c.backend
  {
    hide Admissible, Make, FactoryCall.WellFormed;
    if c.CallSucceeded? {
      SuccessIsAdmissible(sha, c);
    } else if c.CallFailedAfterStart? || c.CallCancelledAfterStart? {
      StartedIsAdmissible(sha, c);
    } else {
      NotStartedIsAdmissible(sha, c);
    }
  }

  // ---------------------------------------------------------------- every admissible result is made

  /** The call that makes `r` again; a cancellation is authorised by a signalled token of its request. */
  function CallFor(r: ExecutionResult): FactoryCall
    requires r.start.Started? ==> r.observed.Some? && r.termination.Some?
    requires r.start.NotStarted? ==> r.failure.Some?
  {
    var token := Token(r.request.identity, true);
    if r.start.NotStarted? then
      if r.failure == Some(CancelledFailure) then
        CallCancelledBeforeStart(r.request, r.backend, token, r.established, r.diagnostic)
      else
        CallFailedBeforeStart(r.request, r.backend, r.failure.value, r.established, r.diagnostic)
    else if r.failure.None? then
      CallSucceeded(r.request, r.backend, r.observed.value, r.stdout, r.stderr, r.established, r.diagnostic)
    else if r.failure == Some(CancelledFailure) then
      CallCancelledAfterStart(r.request, r.backend, token, r.observed.value, r.stdout, r.stderr, r.established,
                              r.cleanup, r.diagnostic)
    else
      CallFailedAfterStart(r.request, r.backend, r.observed.value, r.termination.value, r.stdout, r.stderr,
                           r.established, r.cleanup, r.failure.value, r.diagnostic)
  }

  lemma AdmissibleNotStartedIsMade(sha: Sha, r: ExecutionResult)
    requires Admissible(sha, r) && r.start.NotStarted?
    ensures r.failure.Some? && CallFor(r).WellFormed(sha) && Make(sha, CallFor(r)) == Ok(r)
  {
    hide Normalize, LimitShape, SealedRequest, SealedProfile, Identity;
    NormalizeFixes(r.established);
  }

  lemma AdmissibleSuccessIsMade(sha: Sha, r: ExecutionResult)
    requires Admissible(sha, r) && r.start.Started? && r.failure.None?
    ensures r.observed.Some? && r.termination.Some? && CallFor(r).WellFormed(sha) && Make(sha, CallFor(r)) == Ok(r)
  {
    hide Normalize, LimitShape, SealedRequest, SealedProfile, Identity;
    NormalizeFixes(r.established);
    assert MissingStreams(r) == {};
  }

  lemma AdmissibleFailureEvidence(sha: Sha, r: ExecutionResult)
    requires Admissible(sha, r) && r.start.Started? && r.failure.Some?
    ensures r.termination.Some?
    ensures FailureEvidence(r.request, r.termination.value, r.stdout, r.stderr, r.established, r.cleanup,
                            r.failure.value, r.failure.value.CancelledFailure?).Pass?
    ensures (CompleteStdoutCapture in r.established) == r.stdout.Some?
    ensures (CompleteStderrCapture in r.established) == r.stderr.Some?
    ensures r.cleanup.Verified? == (CleanupVerified in r.established)
    ensures Includes(r.established, BeforeStartOnly(r.request.required))
    ensures r.failure == Some(LogCaptureFailed) || CaptureShape(r.request, r.stdout, r.stderr, false)
    ensures !PreStart(r.failure.value)
    ensures r.failure.value.CancelledFailure? ==> Enabled(r.request) && r.termination.value.Cancelled?
  {
    hide Normalize, LimitShape, SealedRequest, SealedProfile, Identity, BeforeStartOnly;
    RequiredOf(sha, r.request);
  }

  lemma AdmissibleFailureIsMade(sha: Sha, r: ExecutionResult)
    requires Admissible(sha, r) && r.start.Started? && r.failure.Some?
    ensures r.observed.Some? && r.termination.Some? && CallFor(r).WellFormed(sha) && Make(sha, CallFor(r)) == Ok(r)
  {
    hide Normalize, LimitShape, SealedRequest, SealedProfile, Identity, FailureEvidence, BeforeStartOnly, Includes,
         EstablishesAllBut, MissingStreams, ValidCapture, CaptureShape, StreamsAsRequested, LogCaptureEvidence,
         TerminationFits, PreStart;
    NormalizeFixes(r.established);
    AdmissibleFailureEvidence(sha, r);
    IncludesMeans(r.request.required, r.established);
    IncludesMeans(r.backend.guarantees, r.established);
  }

  lemma AdmissibleIsMade(sha: Sha, r: ExecutionResult)
    requires Admissible(sha, r)
    ensures r.start.Started? ==> r.observed.Some? && r.termination.Some?
    ensures r.start.NotStarted? ==> r.failure.Some?
    ensures CallFor(r).WellFormed(sha) && Make(sha, CallFor(r)) == Ok(r)
  {
    hide Admissible, Make, CallFor, FactoryCall.WellFormed;
    if r.start.NotStarted? {
      AdmissibleNotStartedIsMade(sha, r);
    } else if r.failure.None? {
      AdmissibleSuccessIsMade(sha, r);
    } else {
      AdmissibleFailureIsMade(sha, r);
    }
  }

  /** The five factories together return exactly the admissible results. */
  lemma FactoriesAdmitExactly(sha: Sha, r: ExecutionResult)
    ensures (exists c: FactoryCall :: c.WellFormed(sha) && Make(sha, c) == Ok(r)) <==> Admissible(sha, r)
  {
    hide Admissible, Make, FactoryCall.WellFormed;
    if Admissible(sha, r) {
      AdmissibleIsMade(sha, r);
    }
    forall c: FactoryCall | c.WellFormed(sha) && Make(sha, c) == Ok(r)
      ensures Admissible(sha, r)
    {
      MadeIsAdmissible(sha, c);
    }
  }

  // ---------------------------------------------------------------- which call returns which result

  /** Normalised claims are determined by the set of guarantees claimed. */
  lemma SameClaimsNormalize(a: seq<Guarantee>, b: seq<Guarantee>)
    requires forall g :: g in a <==> g in b
    ensures Normalize(a) == Normalize(b)
  {
    CanonUnique(Normalize(a), Normalize(b));
  }

  /** A factory looks only at the set of claims: their order and repetitions change neither result nor error. */
  lemma ClaimsAreASet(sha: Sha, c: FactoryCall, claims: seq<Guarantee>)
    requires forall g :: g in claims <==> g in c.established
    ensures Make(sha, c.(established := claims)) == Make(sha, c)
  {
    hide Normalize, Identified, LimitShape, Includes, Supports, BeforeStartOnly, CaptureShape, FailureEvidence,
         RequireRequestedControl;
    SameClaimsNormalize(claims, c.established);
  }

  /** The result a call describes, whether or not it is consistent: its arguments, with the claims as a sorted list. */
  function Described(sha: Sha, c: FactoryCall, claims: Vec<Guarantee>): ExecutionResult {
    Identified(sha, match c
      case CallFailedBeforeStart(q, p, f, _, d) =>
        ExecutionResult(Failed, NotStarted, q, p, None, None, None, None, claims, NotRequired, Some(f), d, q.identity)
      case CallCancelledBeforeStart(q, p, _, _, d) =>
        ExecutionResult(Failed, NotStarted, q, p, None, None, None, None, claims, NotRequired, Some(CancelledFailure),
                        d, q.identity)
      case CallSucceeded(q, p, o, out, err, _, d) =>
        ExecutionResult(Succeeded, Started, q, p, Some(o), Some(Exited(0)), out, err, claims, Verified, None, d,
                        q.identity)
      case CallFailedAfterStart(q, p, o, t, out, err, _, u, f, d) =>
        ExecutionResult(Failed, Started, q, p, Some(o), Some(t), out, err, claims, u, Some(f), d, q.identity)
      case CallCancelledAfterStart(q, p, _, o, out, err, _, u, d) =>
        ExecutionResult(Failed, Started, q, p, Some(o), Some(Cancelled), out, err, claims, u, Some(CancelledFailure), d,
                        q.identity))
  }

  /** Only the two cancelling factories report a cancellation, and only with the request's own signalled token. */
  predicate ControlFits(c: FactoryCall) {
    if c.HasToken() then c.token == Token(c.request.identity, true)
    else (c.CallFailedBeforeStart? || c.CallFailedAfterStart?) ==> !c.failure.CancelledFailure?
  }

  /**
   What every factory does on every call: it returns the result its arguments describe if that
   result is consistent and the control fits, and otherwise throws.
   */
  lemma EveryCallDecided(sha: Sha, c: FactoryCall, claims: Vec<Guarantee>)
    requires c.WellFormed(sha) && Canon(claims) && forall g :: g in claims <==> g in c.established
    ensures var r := Described(sha, c, claims);
      if ControlFits(c) && Admissible(sha, r) then Make(sha, c) == Ok(r) else Make(sha, c).Err?
  {
    hide Make, Admissible, FactoryCall.WellFormed, Described, ControlFits, CallFor, Canon;
    var d := c.(established := claims);
    ClaimsAreASet(sha, c, claims);
    SortedIsWellFormed(sha, c, claims);
    if Make(sha, c).Ok? {
      MadeIsAdmissible(sha, d);
      MadeIsDescribed(sha, d, claims);
    }
    if ControlFits(c) && Admissible(sha, Described(sha, c, claims)) {
      AdmissibleIsMade(sha, Described(sha, c, claims));
      CallForDescribed(sha, c, claims);
    }
  }

  lemma SortedIsWellFormed(sha: Sha, c: FactoryCall, claims: seq<Guarantee>)
    requires c.WellFormed(sha)
    ensures c.(established := claims).WellFormed(sha)
  {
    hide SealedRequest, SealedProfile, ValidCapture;
  }

  lemma MadeIsDescribed(sha: Sha, c: FactoryCall, claims: Vec<Guarantee>)
    requires Make(sha, c).Ok? && Canon(claims) && c.established == claims
    ensures Make(sha, c).value == Described(sha, c, claims) && ControlFits(c)
    ensures forall gs: seq<Guarantee> :: ControlFits(c.(established := gs))
    ensures forall gs: seq<Guarantee> :: Described(sha, c.(established := gs), claims) == Described(sha, c, claims)
  {
    hide Normalize, Identity, EvidenceOf, LimitShape, Includes, Supports, BeforeStartOnly, CaptureShape, Canon;
    NormalizeFixes(claims);
  }

  lemma CallForDescribed(sha: Sha, c: FactoryCall, claims: Vec<Guarantee>)
    requires Admissible(sha, Described(sha, c, claims)) && ControlFits(c)
    ensures var r := Described(sha, c, claims);
      && (r.start.Started? ==> r.observed.Some? && r.termination.Some?)
      && (r.start.NotStarted? ==> r.failure.Some?)
      && CallFor(r) == c.(established := claims)
  {
    hide Identity, EvidenceOf, SealedRequest, SealedProfile, ValidCapture, LimitShape, Supports, EstablishesAllBut,
         MissingStreams, StreamsAsRequested, LogCaptureEvidence;
  }
}
