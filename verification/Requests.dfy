/** Sealed execution requests (src/request.cpp): derivation of the required guarantees, and sealing. */
module Requests {
  import opened Wrappers
  import opened Bytes
  import opened Model
  import opened Preimages
  import opened Builders

  datatype RequestBody = RequestBody(
    program: Program, purpose: Purpose, interpreter: Hex, rootView: Hex, resources: ResourceLayout,
    environment: Environment, credentials: Credentials, limits: Limits, cancellation: CancellationPolicy)

  datatype Request = Request(body: RequestBody, required: Vec<Guarantee>, identity: Hex)

  // ---------------------------------------------------------------- derivation

  predicate HasAccess(layout: ResourceLayout, access: Access) {
    exists b | b in layout.bindings :: b.access == access
  }

  /** require_consistent_guarantee: the guarantee agrees with the request's policies. */
  predicate Consistent(g: Guarantee, body: RequestBody) {
    match g
    case ReadOnlyResources => HasAccess(body.resources, ReadOnly)
    case WritableResources => HasAccess(body.resources, Writable)
    case DeniedNetwork => body.environment.network.NetworkDenied?
    case LoopbackIsolated => body.environment.network.LoopbackOnly?
    case ResourceLimits => !body.limits.Empty()
    case CpuTimeLimit => body.limits.cpuTime.Some?
    case AddressSpaceLimit => body.limits.addressSpace.Some?
    case FileSizeLimit => body.limits.fileSize.Some?
    case OpenFilesLimit => body.limits.openFiles.Some?
    case ProcessCountLimit => body.limits.processCount.Some?
    case Cancellation => !body.cancellation.Disabled?
    case CompleteStdoutCapture => body.environment.stdout.CaptureComplete?
    case CompleteStderrCapture => body.environment.stderr.CaptureComplete?
    case ExactInterpreter => true
    case ClosedEnvironment => true
    case RootView => true
    case FixedCredentials => true
    case CleanupVerified => true
  }

  function PushIf(s: seq<Guarantee>, condition: bool, g: Guarantee): (r: seq<Guarantee>)
    ensures forall x :: x in r <==> x in s || (condition && x == g)
  {
    if condition then s + [g] else s
  }

  function PushFixed(s: seq<Guarantee>): seq<Guarantee> {
    s + [ExactInterpreter] + [ClosedEnvironment] + [RootView] + [FixedCredentials] + [CleanupVerified]
  }

  function AccessGuarantee(b: ResourceBinding): Guarantee {
    if b.access.ReadOnly? then ReadOnlyResources else WritableResources
  }

  function PushBindings(s: seq<Guarantee>, bindings: seq<ResourceBinding>): (r: seq<Guarantee>)
    ensures forall x :: x in r <==> x in s || exists b | b in bindings :: x == AccessGuarantee(b)
  {
    if bindings == [] then s else
      var last := |bindings| - 1;
      assert bindings == bindings[..last] + [bindings[last]];
      PushBindings(s, bindings[..last]) + [AccessGuarantee(bindings[last])]
  }

  function PushNetwork(s: seq<Guarantee>, n: Network): seq<Guarantee> {
    match n
    case NetworkDenied => s + [DeniedNetwork]
    case LoopbackOnly => s + [LoopbackIsolated]
    case NetworkAllowed => s
  }

  function PushLimits(s: seq<Guarantee>, l: Limits): seq<Guarantee> {
    var s := PushIf(s, !l.Empty(), ResourceLimits);
    var s := PushIf(s, l.cpuTime.Some?, CpuTimeLimit);
    var s := PushIf(s, l.addressSpace.Some?, AddressSpaceLimit);
    var s := PushIf(s, l.fileSize.Some?, FileSizeLimit);
    var s := PushIf(s, l.openFiles.Some?, OpenFilesLimit);
    PushIf(s, l.processCount.Some?, ProcessCountLimit)
  }

  function PushStreams(s: seq<Guarantee>, body: RequestBody): seq<Guarantee> {
    var s := PushIf(s, !body.cancellation.Disabled?, Cancellation);
    var s := PushIf(s, body.environment.stdout.CaptureComplete?, CompleteStdoutCapture);
    PushIf(s, body.environment.stderr.CaptureComplete?, CompleteStderrCapture)
  }

  /** The vector before sorting: the caller's additional guarantees, then everything that is pushed. */
  function Pushed(body: RequestBody, additional: seq<Guarantee>): seq<Guarantee> {
    var s := PushFixed(additional);
    var s := PushBindings(s, body.resources.bindings);
    var s := PushNetwork(s, body.environment.network);
    var s := PushLimits(s, body.limits);
    PushStreams(s, body)
  }

  function DeriveRequired(body: RequestBody, additional: seq<Guarantee>): Result<Vec<Guarantee>> {
    var required := Normalize(Pushed(body, additional));
    if forall g | g in required :: Consistent(g, body) then Ok(required) else Err(InvalidPolicy)
  }

  /** derive_required_guarantees as written: push, sort, unique, then check every entry. */
  method DeriveRequiredGuarantees(body: RequestBody, additional: seq<Guarantee>) returns (r: Result<Vec<Guarantee>>)
    ensures r == DeriveRequired(body, additional)
  {
    var values := additional;
    values := values + [ExactInterpreter];
    values := values + [ClosedEnvironment];
    values := values + [RootView];
    values := values + [FixedCredentials];
    values := values + [CleanupVerified];
    var bindings := body.resources.bindings;
    for i := 0 to |bindings|
      invariant values == PushBindings(PushFixed(additional), bindings[..i])
    {
      assert bindings[..i + 1][..i] == bindings[..i];
      values := values + [if bindings[i].access.ReadOnly? then ReadOnlyResources else WritableResources];
    }
    assert bindings[..|bindings|] == bindings;
    match body.environment.network {
      case NetworkDenied => values := values + [DeniedNetwork];
      case LoopbackOnly => values := values + [LoopbackIsolated];
      case NetworkAllowed =>
    }
    values := PushLimitGuarantees(values, body.limits);
    values := PushStreamGuarantees(values, body);
    r := CheckConsistent(body, Normalize(values));
  }

  method PushLimitGuarantees(s: seq<Guarantee>, limits: Limits) returns (values: seq<Guarantee>)
    ensures values == PushLimits(s, limits)
  {
    values := s;
    if !limits.Empty() {
      values := values + [ResourceLimits];
    }
    if limits.cpuTime.Some? {
      values := values + [CpuTimeLimit];
    }
    if limits.addressSpace.Some? {
      values := values + [AddressSpaceLimit];
    }
    if limits.fileSize.Some? {
      values := values + [FileSizeLimit];
    }
    if limits.openFiles.Some? {
      values := values + [OpenFilesLimit];
    }
    if limits.processCount.Some? {
      values := values + [ProcessCountLimit];
    }
  }

  method PushStreamGuarantees(s: seq<Guarantee>, body: RequestBody) returns (values: seq<Guarantee>)
    ensures values == PushStreams(s, body)
  {
    values := s;
    if !body.cancellation.Disabled? {
      values := values + [Cancellation];
    }
    if body.environment.stdout.CaptureComplete? {
      values := values + [CompleteStdoutCapture];
    }
    if body.environment.stderr.CaptureComplete? {
      values := values + [CompleteStderrCapture];
    }
  }

  method CheckConsistent(body: RequestBody, required: Vec<Guarantee>) returns (r: Result<Vec<Guarantee>>)
    ensures r == if forall g | g in required :: Consistent(g, body) then Ok(required) else Err(InvalidPolicy)
  {
    for i := 0 to |required|
      invariant forall j | 0 <= j < i :: Consistent(required[j], body)
    {
      if !Consistent(required[i], body) {
        return Err(InvalidPolicy);
      }
    }
    return Ok(required);
  }

  /** A guarantee is consistent with a request exactly when the request derives it. */
  lemma ConsistentIffDerived(g: Guarantee, body: RequestBody, additional: seq<Guarantee>)
    ensures g in Pushed(body, additional) <==> g in additional || Consistent(g, body)
  {
    hide PushLimits, PushStreams, PushBindings, HasAccess;
    var s0 := PushFixed(additional);
    var s1 := PushBindings(s0, body.resources.bindings);
    var s2 := PushNetwork(s1, body.environment.network);
    var s3 := PushLimits(s2, body.limits);
    BindingsDerive(g, s0, body.resources);
    LimitsDerive(g, s2, body.limits);
    StreamsDerive(g, s3, body);
  }

  lemma BindingsDerive(g: Guarantee, s: seq<Guarantee>, layout: ResourceLayout)
    ensures g in PushBindings(s, layout.bindings) <==>
      (|| g in s
       || (g.ReadOnlyResources? && HasAccess(layout, ReadOnly))
       || (g.WritableResources? && HasAccess(layout, Writable)))
  {
    hide PushBindings;
    assert (exists b | b in layout.bindings :: g == AccessGuarantee(b)) <==>
      (g.ReadOnlyResources? && HasAccess(layout, ReadOnly))
      || (g.WritableResources? && HasAccess(layout, Writable)) by {
      if b :| b in layout.bindings && b.access.ReadOnly? {
        assert AccessGuarantee(b) == ReadOnlyResources;
      }
      if b :| b in layout.bindings && b.access.Writable? {
        assert AccessGuarantee(b) == WritableResources;
      }
    }
  }

  lemma LimitsDerive(g: Guarantee, s: seq<Guarantee>, l: Limits)
    ensures g in PushLimits(s, l) <==>
      (|| g in s
       || (g.ResourceLimits? && !l.Empty())
       || (g.CpuTimeLimit? && l.cpuTime.Some?)
       || (g.AddressSpaceLimit? && l.addressSpace.Some?)
       || (g.FileSizeLimit? && l.fileSize.Some?)
       || (g.OpenFilesLimit? && l.openFiles.Some?)
       || (g.ProcessCountLimit? && l.processCount.Some?))
  {
    hide PushIf;
  }

  lemma StreamsDerive(g: Guarantee, s: seq<Guarantee>, body: RequestBody)
    ensures g in PushStreams(s, body) <==>
      (|| g in s
       || (g.Cancellation? && !body.cancellation.Disabled?)
       || (g.CompleteStdoutCapture? && body.environment.stdout.CaptureComplete?)
       || (g.CompleteStderrCapture? && body.environment.stderr.CaptureComplete?))
  {
    hide PushIf;
  }

  /** With no additional guarantees derivation succeeds, and yields exactly the consistent ones. */
  lemma DerivedExactly(body: RequestBody)
    ensures var d := DeriveRequired(body, []);
      d.Ok? && Canon(d.value) && forall g :: g in d.value <==> Consistent(g, body)
  {
    hide Pushed, Consistent;
    forall g
      ensures g in Pushed(body, []) <==> Consistent(g, body)
    {
      ConsistentIffDerived(g, body, []);
    }
  }

  /**
   The list a request derives, in full: its order is that of the enumerator values, and each
   guarantee is in it if and only if the policy it stands for asks for it.
   */
  lemma DerivedInFull(body: RequestBody, additional: seq<Guarantee>)
    requires DeriveRequired(body, additional).Ok?
    ensures var d := DeriveRequired(body, additional).value;
      && (forall i, j | 0 <= i < j < |d| :: GuaranteeByte(d[i]) < GuaranteeByte(d[j]))
      && AlwaysInFull(d) && ResourcesInFull(body.resources.bindings, d) && EnvironmentInFull(body, d)
      && LimitsInFull(body.limits, d)
  {
    hide DeriveRequired, Consistent, AlwaysInFull, ResourcesInFull, EnvironmentInFull, LimitsInFull, Canon;
    AdditionalIsInert(body, additional);
    DerivedExactly(body);
    var d := DeriveRequired(body, additional).value;
    CanonAscends(d);
    MembersInFull(body, d);
  }

  lemma MembersInFull(body: RequestBody, d: seq<Guarantee>)
    requires forall g :: g in d <==> Consistent(g, body)
    ensures AlwaysInFull(d) && ResourcesInFull(body.resources.bindings, d) && EnvironmentInFull(body, d)
    ensures LimitsInFull(body.limits, d)
  {
    hide Consistent;
    AlwaysConsistent(body);
    ResourcesConsistent(body);
    EnvironmentConsistent(body);
    LimitsConsistent(body);
  }

  lemma AlwaysConsistent(body: RequestBody)
    ensures Consistent(ExactInterpreter, body) && Consistent(ClosedEnvironment, body) && Consistent(RootView, body)
    ensures Consistent(FixedCredentials, body) && Consistent(CleanupVerified, body)
  {
  }

  lemma ResourcesConsistent(body: RequestBody)
    ensures Consistent(ReadOnlyResources, body) <==> exists b | b in body.resources.bindings :: b.access.ReadOnly?
    ensures Consistent(WritableResources, body) <==> exists b | b in body.resources.bindings :: b.access.Writable?
  {
  }

  lemma EnvironmentConsistent(body: RequestBody)
    ensures Consistent(DeniedNetwork, body) <==> body.environment.network.NetworkDenied?
    ensures Consistent(LoopbackIsolated, body) <==> body.environment.network.LoopbackOnly?
    ensures Consistent(Cancellation, body) <==> body.cancellation.GracefulThenForced?
    ensures Consistent(CompleteStdoutCapture, body) <==> body.environment.stdout.CaptureComplete?
    ensures Consistent(CompleteStderrCapture, body) <==> body.environment.stderr.CaptureComplete?
  {
  }

  lemma LimitsConsistent(body: RequestBody)
    ensures var l := body.limits;
      && (Consistent(CpuTimeLimit, body) <==> l.cpuTime.Some?)
      && (Consistent(AddressSpaceLimit, body) <==> l.addressSpace.Some?)
      && (Consistent(FileSizeLimit, body) <==> l.fileSize.Some?)
      && (Consistent(OpenFilesLimit, body) <==> l.openFiles.Some?)
      && (Consistent(ProcessCountLimit, body) <==> l.processCount.Some?)
      && (Consistent(ResourceLimits, body) <==>
            l.cpuTime.Some? || l.addressSpace.Some? || l.fileSize.Some? || l.openFiles.Some? || l.processCount.Some?)
  {
  }

  ghost predicate AlwaysInFull(d: seq<Guarantee>) {
    ExactInterpreter in d && ClosedEnvironment in d && RootView in d && FixedCredentials in d && CleanupVerified in d
  }

  ghost predicate ResourcesInFull(bindings: seq<ResourceBinding>, d: seq<Guarantee>) {
    && (ReadOnlyResources in d <==> exists b | b in bindings :: b.access.ReadOnly?)
    && (WritableResources in d <==> exists b | b in bindings :: b.access.Writable?)
  }

  ghost predicate EnvironmentInFull(body: RequestBody, d: seq<Guarantee>) {
    && (DeniedNetwork in d <==> body.environment.network.NetworkDenied?)
    && (LoopbackIsolated in d <==> body.environment.network.LoopbackOnly?)
    && (Cancellation in d <==> body.cancellation.GracefulThenForced?)
    && (CompleteStdoutCapture in d <==> body.environment.stdout.CaptureComplete?)
    && (CompleteStderrCapture in d <==> body.environment.stderr.CaptureComplete?)
  }

  ghost predicate LimitsInFull(l: Limits, d: seq<Guarantee>) {
    && (CpuTimeLimit in d <==> l.cpuTime.Some?)
    && (AddressSpaceLimit in d <==> l.addressSpace.Some?)
    && (FileSizeLimit in d <==> l.fileSize.Some?)
    && (OpenFilesLimit in d <==> l.openFiles.Some?)
    && (ProcessCountLimit in d <==> l.processCount.Some?)
    && (ResourceLimits in d <==>
          l.cpuTime.Some? || l.addressSpace.Some? || l.fileSize.Some? || l.openFiles.Some? || l.processCount.Some?)
  }

  /** Additional guarantees are inert: they are rejected, or they change nothing. */
  lemma AdditionalIsInert(body: RequestBody, additional: seq<Guarantee>)
    ensures DeriveRequired(body, additional)
         == if forall g | g in additional :: Consistent(g, body) then DeriveRequired(body, []) else Err(InvalidPolicy)
  {
    hide Pushed, Consistent;
    DerivedExactly(body);
    var required := Normalize(Pushed(body, additional));
    forall g
      ensures g in required <==> g in additional || Consistent(g, body)
    {
      ConsistentIffDerived(g, body, additional);
    }
    if forall g | g in additional :: Consistent(g, body) {
      CanonUnique(required, DeriveRequired(body, []).value);
    } else {
      var g :| g in additional && !Consistent(g, body);
      assert g in required;
    }
  }

  // ---------------------------------------------------------------- sealing

  function Image(body: RequestBody, required: Vec<Guarantee>): Preimage {
    RequestImage(body.program, body.purpose, body.interpreter, body.rootView, body.resources.identity,
                 body.environment.identity, body.credentials.identity, body.limits.identity, body.cancellation,
                 required)
  }

  /** execution_request::seal. */
  function Seal(sha: Sha, body: RequestBody, additional: seq<Guarantee>): Result<Request> {
    var required :- DeriveRequired(body, additional);
    Ok(Request(body, required, Identity(sha, Image(body, required))))
  }

  /** As it runs: derive by pushing and sorting, then hash field by field. */
  method SealExecutionRequest(sha: Sha, body: RequestBody, additional: seq<Guarantee>) returns (r: Result<Request>)
    ensures r == Seal(sha, body, additional)
  {
    hide DeriveRequired, Identity;
    var required :- DeriveRequiredGuarantees(body, additional);
    var identity := IdentifyRequest(sha, Image(body, required));
    return Ok(Request(body, required, identity.value));
  }

  /** A sealed request, said directly: it requires what is consistent with it, and carries its own identity. */
  ghost predicate SealedRequest(sha: Sha, r: Request) {
    && Canon(r.required)
    && (forall g :: g in r.required <==> Consistent(g, r.body))
    && r.identity == Identity(sha, Image(r.body, r.required))
  }

  /** These are exactly the values `seal` returns, its constructor being private. */
  lemma RequestIsSealed(sha: Sha, r: Request)
    ensures Seal(sha, r.body, []) == Ok(r) <==> SealedRequest(sha, r)
  {
    hide Identity, DeriveRequired, Consistent;
    DerivedExactly(r.body);
    if SealedRequest(sha, r) {
      CanonUnique(r.required, DeriveRequired(r.body, []).value);
    }
  }

  /** Every way of sealing one body that succeeds gives one request, whatever was added. */
  lemma SealIsUnique(sha: Sha, body: RequestBody, additional: seq<Guarantee>)
    ensures Seal(sha, body, []).Ok?
    ensures Seal(sha, body, additional).Ok? <==> forall g | g in additional :: Consistent(g, body)
    ensures Seal(sha, body, additional).Ok? ==>
      Seal(sha, body, additional) == Seal(sha, body, []) && SealedRequest(sha, Seal(sha, body, additional).value)
  {
    hide Identity, DeriveRequired, Consistent, SealedRequest;
    DerivedExactly(body);
    AdditionalIsInert(body, additional);
    RequestIsSealed(sha, Seal(sha, body, []).value);
  }

  lemma RequiredMeans(sha: Sha, r: Request)
    requires SealedRequest(sha, r)
    ensures Canon(r.required) && forall g :: g in r.required <==> Consistent(g, r.body)
  {
  }

  // ---------------------------------------------------------------- identity stands for content

  function LayoutPreimage(l: ResourceLayout): Preimage {
    LayoutImage(l.bindings, l.working)
  }

  function EnvironmentPreimage(e: Environment): Preimage {
    EnvironmentImage(e.searchPath, e.home, e.temporary, e.parallelism, e.mask, e.epoch, e.network, e.stdin, e.stdout,
                     e.stderr, e.variables)
  }

  function CredentialPreimage(c: Credentials): Preimage {
    CredentialImage(c.user, c.group, c.groups, c.noNewPrivileges)
  }

  function LimitsPreimage(l: Limits): Preimage {
    LimitsImage(l.cpuTime, l.addressSpace, l.fileSize, l.openFiles, l.processCount)
  }

  /** The sealed policies carry the identity of their own content. */
  ghost predicate PartsSealed(sha: Sha, body: RequestBody) {
    && body.resources.identity == Identity(sha, LayoutPreimage(body.resources))
    && body.environment.identity == Identity(sha, EnvironmentPreimage(body.environment))
    && body.credentials.identity == Identity(sha, CredentialPreimage(body.credentials))
    && body.limits.identity == Identity(sha, LimitsPreimage(body.limits))
  }

  /** The identity of a sealed request is the hash of these bytes of its parts, in this order. */
  lemma RequestIdentityBytes(sha: Sha, r: Request)
    requires SealedRequest(sha, r)
    ensures var b := r.body;
      r.identity == Sha256Hex(sha, PutString(Ascii("pkgexec/execution-request/v1"))
        + ((PutU16(1) + (PutString(b.program.language) + (PutString(b.program.content) + (PurposeBytes(b.purpose)
            + (PutString(b.interpreter) + PutString(b.rootView))))))
        + (PutString(b.resources.identity) + (PutString(b.environment.identity) + (PutString(b.credentials.identity)
            + (PutString(b.limits.identity) + (CancellationBytes(b.cancellation)
            + PutList(r.required, PutGuarantee))))))))
  {
    hide PutString, PutList, PutU16, PutOption, Ascii, Render, Consistent;
    var b := r.body;
    var p := Image(b, r.required);
    RequestBytes(p);
    PurposeIsFramed(b.purpose);
    CancellationIsFramed(b.cancellation);
    var subject := PutString(b.interpreter) + PutString(b.rootView);
    assert PurposeBytes(b.purpose) + subject
        == [PurposeByte(b.purpose.Kind())] + (PutOption(b.purpose.Action(), PutString) + subject);
    var required := PutList(r.required, PutGuarantee);
    assert CancellationBytes(b.cancellation) + required
        == [if b.cancellation.Disabled? then 0 else 1] + (PutOption(b.cancellation.Grace(), PutU64) + required);
  }

  /** The kind, and whether there is an action; a lifecycle action follows. */
  function PurposeBytes(p: Purpose): Bytes {
    match p
    case BuildPurpose => [0, 0]
    case CheckPurpose => [1, 0]
    case LifecyclePurpose(action) => [2, 1] + PutString(action)
  }

  /** The mode, and whether there is a grace period; an enabled policy's grace period follows. */
  function CancellationBytes(c: CancellationPolicy): Bytes {
    match c
    case Disabled => [0, 0]
    case GracefulThenForced(grace) => [1, 1] + BE(grace, 8)
  }

  lemma PurposeIsFramed(p: Purpose)
    ensures PurposeBytes(p) == [PurposeByte(p.Kind())] + PutOption(p.Action(), PutString)
  {
    hide PutString;
  }

  lemma CancellationIsFramed(c: CancellationPolicy)
    ensures CancellationBytes(c) == [if c.Disabled? then 0 else 1] + PutOption(c.Grace(), PutU64)
  {
    hide BE;
  }

  /** `operator==` compares identities. Where SHA-256 does not collide, that is equality of every field. */
  lemma SameIdentitySameRequest(sha: Sha, a: Request, b: Request)
    requires SealedRequest(sha, a) && SealedRequest(sha, b) && PartsSealed(sha, a.body) && PartsSealed(sha, b.body)
    requires NoCollision(sha, Image(a.body, a.required), Image(b.body, b.required))
    requires NoCollision(sha, LayoutPreimage(a.body.resources), LayoutPreimage(b.body.resources))
    requires NoCollision(sha, EnvironmentPreimage(a.body.environment), EnvironmentPreimage(b.body.environment))
    requires NoCollision(sha, CredentialPreimage(a.body.credentials), CredentialPreimage(b.body.credentials))
    requires NoCollision(sha, LimitsPreimage(a.body.limits), LimitsPreimage(b.body.limits))
    ensures a.identity == b.identity <==> a == b
  {
    hide Identity, NoCollision, DeriveRequired;
    IdentityDetermines(sha, Image(a.body, a.required), Image(b.body, b.required));
    IdentityDetermines(sha, LayoutPreimage(a.body.resources), LayoutPreimage(b.body.resources));
    IdentityDetermines(sha, EnvironmentPreimage(a.body.environment), EnvironmentPreimage(b.body.environment));
    IdentityDetermines(sha, CredentialPreimage(a.body.credentials), CredentialPreimage(b.body.credentials));
    IdentityDetermines(sha, LimitsPreimage(a.body.limits), LimitsPreimage(b.body.limits));
  }
}
