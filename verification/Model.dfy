/** The library's vocabulary and its executor-neutral values (include/libpkgexec/model.h). */
module Model {
  import opened Wrappers
  import opened Bytes
  import opened Ordering

  datatype PurposeKind = Build | Check | Lifecycle
  datatype Role =
    | SourceTree | BuildInputTree | CheckInputTree | BuildWorkspace
    | PackageOutputRoot | ManagedTargetRoot | PrivateTemporaryRoot | PackageTree
  datatype Access = ReadOnly | Writable
  datatype Network = NetworkDenied | LoopbackOnly | NetworkAllowed
  datatype StdinPolicy = Closed | NullDevice
  datatype StreamPolicy = CaptureComplete | Discard
  datatype LimitKind = CpuTime | AddressSpace | FileSize | OpenFiles | ProcessCount
  datatype Status = Succeeded | Failed
  datatype StartState = NotStarted | Started
  datatype Cleanup = NotRequired | Verified | CleanupFailure
  datatype FailureKind =
    | RequestRejected | BackendUnsupported | ResourceAdmissionFailed
    | InterpreterUnavailable | IsolationSetupFailed | ProcessStartFailed
    | ProgramExitedNonzero | ProgramTerminatedBySignal | ResourceLimitExceeded
    | CancelledFailure | LogCaptureFailed | CleanupFailed
  datatype Guarantee =
    | ExactInterpreter | ClosedEnvironment | RootView | ReadOnlyResources
    | WritableResources | FixedCredentials | DeniedNetwork | LoopbackIsolated
    | ResourceLimits | Cancellation | CompleteStdoutCapture | CompleteStderrCapture
    | CleanupVerified | CpuTimeLimit | AddressSpaceLimit | FileSizeLimit
    | OpenFilesLimit | ProcessCountLimit

  // ---------------------------------------------------------------- enumerator values

  function PurposeByte(p: PurposeKind): byte {
    match p case Build => 0 case Check => 1 case Lifecycle => 2
  }

  function RoleByte(r: Role): byte {
    match r
    case SourceTree => 0 case BuildInputTree => 1 case CheckInputTree => 2 case BuildWorkspace => 3
    case PackageOutputRoot => 4 case ManagedTargetRoot => 5 case PrivateTemporaryRoot => 6 case PackageTree => 7
  }

  function AccessByte(a: Access): byte {
    if a.ReadOnly? then 0 else 1
  }

  function NetworkByte(n: Network): byte {
    match n case NetworkDenied => 0 case LoopbackOnly => 1 case NetworkAllowed => 2
  }

  function StdinByte(s: StdinPolicy): byte {
    if s.Closed? then 0 else 1
  }

  function StreamByte(s: StreamPolicy): byte {
    if s.CaptureComplete? then 0 else 1
  }

  function LimitByte(k: LimitKind): byte {
    match k case CpuTime => 0 case AddressSpace => 1 case FileSize => 2 case OpenFiles => 3 case ProcessCount => 4
  }

  function LimitOf(b: byte): Option<LimitKind> {
    match b
    case 0 => Some(CpuTime) case 1 => Some(AddressSpace) case 2 => Some(FileSize)
    case 3 => Some(OpenFiles) case 4 => Some(ProcessCount) case _ => None
  }

  function StatusByte(s: Status): byte {
    if s.Succeeded? then 0 else 1
  }

  function StatusOf(b: byte): Option<Status> {
    match b case 0 => Some(Succeeded) case 1 => Some(Failed) case _ => None
  }

  function StartByte(s: StartState): byte {
    if s.NotStarted? then 0 else 1
  }

  function StartOf(b: byte): Option<StartState> {
    match b case 0 => Some(NotStarted) case 1 => Some(Started) case _ => None
  }

  function CleanupByte(c: Cleanup): byte {
    match c case NotRequired => 0 case Verified => 1 case CleanupFailure => 2
  }

  function CleanupOf(b: byte): Option<Cleanup> {
    match b case 0 => Some(NotRequired) case 1 => Some(Verified) case 2 => Some(CleanupFailure) case _ => None
  }

  function FailureByte(f: FailureKind): byte {
    match f
    case RequestRejected => 0 case BackendUnsupported => 1 case ResourceAdmissionFailed => 2
    case InterpreterUnavailable => 3 case IsolationSetupFailed => 4 case ProcessStartFailed => 5
    case ProgramExitedNonzero => 6 case ProgramTerminatedBySignal => 7 case ResourceLimitExceeded => 8
    case CancelledFailure => 9 case LogCaptureFailed => 10 case CleanupFailed => 11
  }

  function FailureOf(b: byte): Option<FailureKind> {
    match b
    case 0 => Some(RequestRejected) case 1 => Some(BackendUnsupported) case 2 => Some(ResourceAdmissionFailed)
    case 3 => Some(InterpreterUnavailable) case 4 => Some(IsolationSetupFailed) case 5 => Some(ProcessStartFailed)
    case 6 => Some(ProgramExitedNonzero) case 7 => Some(ProgramTerminatedBySignal) case 8 => Some(ResourceLimitExceeded)
    case 9 => Some(CancelledFailure) case 10 => Some(LogCaptureFailed) case 11 => Some(CleanupFailed)
    case _ => None
  }

  function GuaranteeByte(g: Guarantee): byte {
    match g
    case ExactInterpreter => 0 case ClosedEnvironment => 1 case RootView => 2 case ReadOnlyResources => 3
    case WritableResources => 4 case FixedCredentials => 5 case DeniedNetwork => 6 case LoopbackIsolated => 7
    case ResourceLimits => 8 case Cancellation => 9 case CompleteStdoutCapture => 10
    case CompleteStderrCapture => 11 case CleanupVerified => 12 case CpuTimeLimit => 13
    case AddressSpaceLimit => 14 case FileSizeLimit => 15 case OpenFilesLimit => 16 case ProcessCountLimit => 17
  }

  function GuaranteeOf(b: byte): Option<Guarantee> {
    match b
    case 0 => Some(ExactInterpreter) case 1 => Some(ClosedEnvironment) case 2 => Some(RootView)
    case 3 => Some(ReadOnlyResources) case 4 => Some(WritableResources) case 5 => Some(FixedCredentials)
    case 6 => Some(DeniedNetwork) case 7 => Some(LoopbackIsolated) case 8 => Some(ResourceLimits)
    case 9 => Some(Cancellation) case 10 => Some(CompleteStdoutCapture) case 11 => Some(CompleteStderrCapture)
    case 12 => Some(CleanupVerified) case 13 => Some(CpuTimeLimit) case 14 => Some(AddressSpaceLimit)
    case 15 => Some(FileSizeLimit) case 16 => Some(OpenFilesLimit) case 17 => Some(ProcessCountLimit)
    case _ => None
  }

  // The enumerators in the order of their declarations.
  const ROLES: seq<Role> := [
    SourceTree, BuildInputTree, CheckInputTree, BuildWorkspace, PackageOutputRoot, ManagedTargetRoot,
    PrivateTemporaryRoot, PackageTree]
  const LIMIT_KINDS: seq<LimitKind> := [CpuTime, AddressSpace, FileSize, OpenFiles, ProcessCount]
  const FAILURE_KINDS: seq<FailureKind> := [
    RequestRejected, BackendUnsupported, ResourceAdmissionFailed, InterpreterUnavailable, IsolationSetupFailed,
    ProcessStartFailed, ProgramExitedNonzero, ProgramTerminatedBySignal, ResourceLimitExceeded, CancelledFailure,
    LogCaptureFailed, CleanupFailed]
  const GUARANTEES: seq<Guarantee> := [
    ExactInterpreter, ClosedEnvironment, RootView, ReadOnlyResources, WritableResources, FixedCredentials,
    DeniedNetwork, LoopbackIsolated, ResourceLimits, Cancellation, CompleteStdoutCapture, CompleteStderrCapture,
    CleanupVerified, CpuTimeLimit, AddressSpaceLimit, FileSizeLimit, OpenFilesLimit, ProcessCountLimit]

  /** The value of an enumerator is its place in its declaration, and every enumerator has one. */
  lemma GuaranteeOrdinals()
    ensures |GUARANTEES| == 18
    ensures forall i | 0 <= i < 18 :: GuaranteeByte(GUARANTEES[i]) == i && GuaranteeOf(i) == Some(GUARANTEES[i])
    ensures forall g :: GUARANTEES[GuaranteeByte(g)] == g
  {
  }

  lemma FailureOrdinals()
    ensures |FAILURE_KINDS| == 12
    ensures forall i | 0 <= i < 12 :: FailureByte(FAILURE_KINDS[i]) == i && FailureOf(i) == Some(FAILURE_KINDS[i])
    ensures forall f :: FAILURE_KINDS[FailureByte(f)] == f
  {
  }

  lemma OtherOrdinals()
    ensures forall r :: RoleByte(r) < |ROLES| && ROLES[RoleByte(r)] == r
    ensures forall k :: LimitByte(k) < |LIMIT_KINDS| && LIMIT_KINDS[LimitByte(k)] == k
    ensures PurposeByte(Build) == AccessByte(ReadOnly) == NetworkByte(NetworkDenied) == StdinByte(Closed) == 0
    ensures PurposeByte(Check) == AccessByte(Writable) == NetworkByte(LoopbackOnly) == StdinByte(NullDevice) == 1
    ensures PurposeByte(Lifecycle) == NetworkByte(NetworkAllowed) == CleanupByte(CleanupFailure) == 2
    ensures StreamByte(CaptureComplete) == StatusByte(Succeeded) == StartByte(NotStarted) == 0
    ensures StreamByte(Discard) == StatusByte(Failed) == StartByte(Started) == 1
    ensures CleanupByte(NotRequired) == 0 && CleanupByte(Verified) == 1
  {
  }

  // ---------------------------------------------------------------- values

  datatype ResourceSlot = ResourceSlot(role: Role, name: Text)
  datatype ResourceBinding = ResourceBinding(slot: ResourceSlot, resource: Hex, access: Access, mountPoint: Text)
  datatype ResourceLayout = ResourceLayout(bindings: Vec<ResourceBinding>, working: ResourceSlot, identity: Hex)

  datatype EnvironmentVariable = EnvironmentVariable(name: Text, value: Text)
  datatype Environment = Environment(
    searchPath: Vec<Text>, home: Text, temporary: Text, parallelism: u32, mask: u32, epoch: Option<i64>,
    network: Network, stdin: StdinPolicy, stdout: StreamPolicy, stderr: StreamPolicy,
    variables: Vec<EnvironmentVariable>, identity: Hex)

  datatype Credentials = Credentials(user: u64, group: u64, groups: Vec<u64>, noNewPrivileges: bool, identity: Hex)

  datatype Limits = Limits(
    cpuTime: Option<u64>, addressSpace: Option<u64>, fileSize: Option<u64>,
    openFiles: Option<u64>, processCount: Option<u64>, identity: Hex)
  {
    predicate Empty() {
      cpuTime.None? && addressSpace.None? && fileSize.None? && openFiles.None? && processCount.None?
    }

    /** limit_requested. */
    predicate Requested(kind: LimitKind) {
      match kind
      case CpuTime => cpuTime.Some?
      case AddressSpace => addressSpace.Some?
      case FileSize => fileSize.Some?
      case OpenFiles => openFiles.Some?
      case ProcessCount => processCount.Some?
    }
  }

  /** Only an enabled policy carries a grace period, and it is positive. */
  datatype CancellationPolicy = Disabled | GracefulThenForced(grace: Grace) {
    function Grace(): Option<u64> {
      if Disabled? then None else Some(grace)
    }
  }
  type Grace = x: u64 | x > 0 witness 1

  /** `pkgsource::program` is foreign: its language text and content digest are all that is used. */
  datatype Program = Program(language: Text, content: Hex)

  /** Only lifecycle purposes carry an action, here the text `to_string` gives it. */
  datatype Purpose = BuildPurpose | CheckPurpose | LifecyclePurpose(action: Text) {
    function Kind(): PurposeKind {
      match this case BuildPurpose => Build case CheckPurpose => Check case LifecyclePurpose(_) => Lifecycle
    }

    function Action(): Option<Text> {
      if LifecyclePurpose? then Some(action) else None
    }
  }

  /** The four static constructors of `process_termination` are the only way to make one. */
  datatype Termination = Exited(status: byte) | Signaled(signal: Signal) | Cancelled | Limited(kind: LimitKind) {
    function KindByte(): byte {
      match this case Exited(_) => 0 case Signaled(_) => 1 case Cancelled => 2 case Limited(_) => 3
    }

    function Value(): Option<u32> {
      match this case Exited(v) => Some(v) case Signaled(v) => Some(v) case _ => None
    }

    function Limit(): Option<LimitKind> {
      if Limited? then Some(kind) else None
    }
  }

  /** The fields each termination is made of, on the wire and in preimages. */
  lemma TerminationFields(status: byte, signal: Signal, kind: LimitKind)
    ensures var t := Exited(status); t.KindByte() == 0 && t.Value() == Some(status) && t.Limit() == None
    ensures var t := Signaled(signal); t.KindByte() == 1 && t.Value() == Some(signal) && t.Limit() == None
    ensures var t := Cancelled; t.KindByte() == 2 && t.Value() == None && t.Limit() == None
    ensures var t := Limited(kind); t.KindByte() == 3 && t.Value() == None && t.Limit() == Some(kind)
  {
  }

  type Signal = x: u32 | x > 0 witness 1

  function MakeExited(status: u32): Result<Termination> {
    if status > 255 then Err(InvalidValue) else Ok(Exited(status))
  }

  function MakeSignaled(signal: u32): Result<Termination> {
    if signal == 0 then Err(InvalidValue) else Ok(Signaled(signal))
  }

  /** Captured stream evidence; `Retained` is the invariant its private constructor enforces. */
  datatype StreamCapture = StreamCapture(count: u64, digest: Hex, material: Option<Text>) {
    ghost predicate Valid(sha: Sha) {
      material.Some? ==> count == |material.value| && digest == Sha256Hex(sha, material.value)
    }
  }

  function Retained(sha: Sha, material: Text): StreamCapture {
    StreamCapture(|material|, Sha256Hex(sha, material), Some(material))
  }

  function Observed(count: u64, digest: Hex): StreamCapture {
    StreamCapture(count, digest, None)
  }

  ghost predicate ValidCapture(sha: Sha, c: Option<StreamCapture>) {
    c.Some? ==> c.value.Valid(sha)
  }

  // ---------------------------------------------------------------- guarantee lists

  predicate GuaranteeLess(a: Guarantee, b: Guarantee) {
    GuaranteeByte(a) < GuaranteeByte(b)
  }

  lemma GuaranteeBytesDiffer()
    ensures forall a, b :: GuaranteeByte(a) == GuaranteeByte(b) ==> a == b
  {
    forall a, b | GuaranteeByte(a) == GuaranteeByte(b)
      ensures a == b
    {
      assert GuaranteeOf(GuaranteeByte(a)) == Some(a) && GuaranteeOf(GuaranteeByte(b)) == Some(b);
    }
  }

  lemma FailureBytesDiffer()
    ensures forall a, b :: FailureByte(a) == FailureByte(b) ==> a == b
  {
    forall a, b | FailureByte(a) == FailureByte(b)
      ensures a == b
    {
      assert FailureOf(FailureByte(a)) == Some(a) && FailureOf(FailureByte(b)) == Some(b);
    }
  }

  lemma GuaranteeTotal()
    ensures Total(GuaranteeLess)
  {
    GuaranteeBytesDiffer();
  }

  ghost predicate Canon(s: seq<Guarantee>) {
    Increasing(s, GuaranteeLess)
  }

  /** normalize_guarantees: sorted, without repetitions. */
  function Normalize(s: seq<Guarantee>): (r: Vec<Guarantee>)
    ensures Canon(r) && |r| <= 18 && forall g :: g in r <==> g in s
  {
    GuaranteeTotal();
    CanonicalIncreasing(s, GuaranteeLess);
    CanonIsShort(Canonical(s, GuaranteeLess));
    Canonical(s, GuaranteeLess)
  }

  /** Sealed guarantee lists ascend by enumerator value, that is in the order of the declaration. */
  lemma CanonAscends(s: seq<Guarantee>)
    ensures Canon(s) <==> forall i, j | 0 <= i < j < |s| :: GuaranteeByte(s[i]) < GuaranteeByte(s[j])
  {
  }

  lemma CanonUnique(a: seq<Guarantee>, b: seq<Guarantee>)
    requires Canon(a) && Canon(b) && forall g :: g in a <==> g in b
    ensures a == b
  {
    GuaranteeTotal();
    IncreasingIsUnique(a, b, GuaranteeLess);
  }

  /** Normalising is idempotent and fixes exactly the strictly increasing lists. */
  lemma NormalizeFixes(s: seq<Guarantee>)
    ensures Normalize(s) == s <==> Canon(s)
  {
    if Canon(s) {
      CanonUnique(Normalize(s), s);
    }
  }

  /** A strictly increasing list over 18 enumerators has at most 18 entries. */
  lemma CanonIsShort(s: seq<Guarantee>)
    requires Canon(s)
    ensures |s| <= 18
  {
    for i := 0 to |s|
      invariant i > 0 ==> GuaranteeByte(s[i - 1]) >= i - 1
    {
      assert i > 0 ==> GuaranteeLess(s[i - 1], s[i]);
    }
  }

  /** `std::includes` on strictly increasing ranges is the subset test. */
  predicate Includes(superset: seq<Guarantee>, subset: seq<Guarantee>) {
    forall g | g in subset :: g in superset
  }
}
