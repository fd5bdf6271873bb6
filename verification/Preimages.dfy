/**
 What each `identify_*` function feeds to SHA-256. The bytes determine every hashed field and
 the kind of value they were made from.
 */
module Preimages {
  import opened Wrappers
  import opened Bytes
  import opened Model

  // ---------------------------------------------------------------- framing

  function PutByte(b: byte): Bytes {
    [b]
  }

  function PutBool(b: bool): Bytes {
    [if b then 1 else 0]
  }

  function PutU16(v: u16): Bytes {
    BE(v, 2)
  }

  function PutU32(v: u32): Bytes {
    BE(v, 4)
  }

  function PutU64(v: u64): Bytes {
    BE(v, 8)
  }

  /** The two's complement cast of `add_i64`. */
  function PutI64(v: i64): Bytes {
    PutU64(if v < 0 then v + TWO_64 else v)
  }

  function PutString(s: Text): Bytes {
    PutU64(|s|) + s
  }

  function PutOption<T>(v: Option<T>, put: T -> Bytes): Bytes {
    match v case None => PutBool(false) case Some(x) => PutBool(true) + put(x)
  }

  function Each<T>(xs: seq<T>, put: T -> Bytes): Bytes {
    if xs == [] then [] else put(xs[0]) + Each(xs[1..], put)
  }

  function PutList<T>(xs: Vec<T>, put: T -> Bytes): Bytes {
    PutU64(|xs|) + Each(xs, put)
  }

  function PutHex(h: Hex): Bytes {
    PutString(h)
  }

  function PutRole(r: Role): Bytes {
    PutByte(RoleByte(r))
  }

  function PutAccess(a: Access): Bytes {
    PutByte(AccessByte(a))
  }

  function PutNetwork(n: Network): Bytes {
    PutByte(NetworkByte(n))
  }

  function PutStdin(s: StdinPolicy): Bytes {
    PutByte(StdinByte(s))
  }

  function PutStreamPolicy(s: StreamPolicy): Bytes {
    PutByte(StreamByte(s))
  }

  function PutPurpose(p: PurposeKind): Bytes {
    PutByte(PurposeByte(p))
  }

  function PutGuarantee(g: Guarantee): Bytes {
    PutByte(GuaranteeByte(g))
  }

  function PutLimit(k: LimitKind): Bytes {
    PutByte(LimitByte(k))
  }

  function PutFailure(f: FailureKind): Bytes {
    PutByte(FailureByte(f))
  }

  function PutBinding(b: ResourceBinding): Bytes {
    Flat([PutRole(b.slot.role), PutString(b.slot.name), PutHex(b.resource), PutAccess(b.access),
          PutString(b.mountPoint)])
  }

  function PutVariable(v: EnvironmentVariable): Bytes {
    Flat([PutString(v.name), PutString(v.value)])
  }

  function PutTermination(t: Termination): Bytes {
    Flat([PutByte(t.KindByte()), PutOption(t.Value(), PutU32), PutOption(t.Limit(), PutLimit)])
  }

  /** The part of a capture that is hashed: never its retained material. */
  datatype CaptureSummary = CaptureSummary(count: u64, digest: Hex)

  function PutCapture(c: CaptureSummary): Bytes {
    Flat([PutU64(c.count), PutHex(c.digest)])
  }

  /** The concatenation of the chunks from number `i` on. */
  function FlatFrom(chunks: seq<Bytes>, i: nat): Bytes
    decreases |chunks| - i
  {
    if i >= |chunks| then [] else chunks[i] + FlatFrom(chunks, i + 1)
  }

  function Flat(chunks: seq<Bytes>): Bytes {
    FlatFrom(chunks, 0)
  }

  // ---------------------------------------------------------------- the seven preimages

  /** Exactly the values that are hashed, one constructor per `identify_*` function. */
  datatype Preimage =
    | LayoutImage(bindings: Vec<ResourceBinding>, working: ResourceSlot)
    | EnvironmentImage(
        searchPath: Vec<Text>, home: Text, temporary: Text, parallelism: u32, mask: u32, epoch: Option<i64>,
        network: Network, stdin: StdinPolicy, stdout: StreamPolicy, stderr: StreamPolicy,
        variables: Vec<EnvironmentVariable>)
    | CredentialImage(user: u64, group: u64, groups: Vec<u64>, noNewPrivileges: bool)
    | LimitsImage(
        cpuTime: Option<u64>, addressSpace: Option<u64>, fileSize: Option<u64>,
        openFiles: Option<u64>, processCount: Option<u64>)
    | RequestImage(
        program: Program, purpose: Purpose, interpreter: Hex, rootView: Hex, layout: Hex, environment: Hex,
        credentials: Hex, limits: Hex, cancellation: CancellationPolicy, required: Vec<Guarantee>)
    | ProfileImage(backend: Hex, guarantees: Vec<Guarantee>)
    | EvidenceImage(
        status: Status, start: StartState, request: Hex, profile: Hex, observed: Option<Hex>,
        termination: Option<Termination>, standardOutput: Option<CaptureSummary>,
        standardError: Option<CaptureSummary>, established: Vec<Guarantee>, cleanup: Cleanup,
        failure: Option<FailureKind>)

  function DomainName(p: Preimage): (s: string)
    ensures |s| < 40
  {
    match p
    case LayoutImage(_, _) => "pkgexec/resource-layout/v1"
    case EnvironmentImage(_, _, _, _, _, _, _, _, _, _, _) => "pkgexec/environment-policy/v1"
    case CredentialImage(_, _, _, _) => "pkgexec/credential-policy/v1"
    case LimitsImage(_, _, _, _, _) => "pkgexec/resource-limits/v1"
    case RequestImage(_, _, _, _, _, _, _, _, _, _) => "pkgexec/execution-request/v1"
    case ProfileImage(_, _) => "pkgexec/backend-capability-profile/v1"
    case EvidenceImage(_, _, _, _, _, _, _, _, _, _, _) => "pkgexec/execution-evidence/v1"
  }

  function Ascii(s: string): (t: Bytes)
    ensures |t| == |s|
  {
    seq(|s|, i requires 0 <= i < |s| => s[i] as int % 256)
  }

  function Domain(p: Preimage): Text {
    Ascii(DomainName(p))
  }

  const REQUEST_SCHEMA_VERSION: u16 := 1

  /** The updates after the domain. The three leading zeros of an environment are its fixed policies. */
  function Chunks(p: Preimage): seq<Bytes> {
    match p
    case LayoutImage(bindings, working) =>
      [PutList(bindings, PutBinding), PutRole(working.role), PutString(working.name)]
    case EnvironmentImage(_, _, _, _, _, _, _, _, _, _, _) =>
      EnvironmentPolicies(p) + EnvironmentValues(p)
    case CredentialImage(user, group, groups, noNewPrivileges) =>
      [PutU64(user), PutU64(group), PutList(groups, PutU64), PutBool(noNewPrivileges)]
    case LimitsImage(cpuTime, addressSpace, fileSize, openFiles, processCount) =>
      [PutOption(cpuTime, PutU64), PutOption(addressSpace, PutU64), PutOption(fileSize, PutU64),
       PutOption(openFiles, PutU64), PutOption(processCount, PutU64)]
    case RequestImage(_, _, _, _, _, _, _, _, _, _) =>
      RequestSubject(p) + RequestParts(p)
    case ProfileImage(backend, guarantees) =>
      [PutHex(backend), PutList(guarantees, PutGuarantee)]
    case EvidenceImage(_, _, _, _, _, _, _, _, _, _, _) =>
      EvidenceProcess(p) + EvidenceOutcome(p)
  }

  function EnvironmentPolicies(p: Preimage): seq<Bytes>
    requires p.EnvironmentImage?
  {
    [PutByte(0), PutByte(0), PutByte(0), PutNetwork(p.network), PutStdin(p.stdin), PutStreamPolicy(p.stdout),
     PutStreamPolicy(p.stderr)]
  }

  function EnvironmentValues(p: Preimage): seq<Bytes>
    requires p.EnvironmentImage?
  {
    [PutList(p.searchPath, PutString), PutString(p.home), PutString(p.temporary), PutU32(p.parallelism),
     PutU32(p.mask), PutOption(p.epoch, PutI64), PutList(p.variables, PutVariable)]
  }

  function RequestSubject(p: Preimage): seq<Bytes>
    requires p.RequestImage?
  {
    [PutU16(REQUEST_SCHEMA_VERSION), PutString(p.program.language), PutHex(p.program.content),
     PutPurpose(p.purpose.Kind()), PutOption(p.purpose.Action(), PutString), PutHex(p.interpreter), PutHex(p.rootView)]
  }

  function RequestParts(p: Preimage): seq<Bytes>
    requires p.RequestImage?
  {
    [PutHex(p.layout), PutHex(p.environment), PutHex(p.credentials), PutHex(p.limits),
     PutBool(p.cancellation.GracefulThenForced?), PutOption(p.cancellation.Grace(), PutU64),
     PutList(p.required, PutGuarantee)]
  }

  function EvidenceProcess(p: Preimage): seq<Bytes>
    requires p.EvidenceImage?
  {
    [PutByte(StatusByte(p.status)), PutByte(StartByte(p.start)), PutHex(p.request), PutHex(p.profile),
     PutOption(p.observed, PutHex), PutOption(p.termination, PutTermination)]
  }

  function EvidenceOutcome(p: Preimage): seq<Bytes>
    requires p.EvidenceImage?
  {
    [PutOption(p.standardOutput, PutCapture), PutOption(p.standardError, PutCapture),
     PutList(p.established, PutGuarantee), PutByte(CleanupByte(p.cleanup)), PutOption(p.failure, PutFailure)]
  }

  function Render(p: Preimage): Bytes {
    PutString(Domain(p)) + Flat(Chunks(p))
  }

  function Identity(sha: Sha, p: Preimage): Hex {
    Sha256Hex(sha, Render(p))
  }

  // ---------------------------------------------------------------- unambiguous framing

  /** No encoding made with `put` can be mistaken for another one, whatever follows either. */
  ghost predicate Framed<T(!new)>(put: T -> Bytes) {
    forall a, b, s: Bytes, t: Bytes {:trigger put(a) + s, put(b) + t} ::
      put(a) + s == put(b) + t ==> a == b && s == t
  }

  lemma SplitAt(a: Bytes, s: Bytes, b: Bytes, t: Bytes)
    requires |a| == |b| && a + s == b + t
    ensures a == b && s == t
  {
    assert a == (a + s)[..|a|] && b == (b + t)[..|b|];
    assert s == (a + s)[|a|..] && t == (b + t)[|b|..];
  }

  lemma PeelBE(a: nat, s: Bytes, b: nat, t: Bytes, n: nat)
    requires a < Pow256(n) && b < Pow256(n) && BE(a, n) + s == BE(b, n) + t
    ensures a == b && s == t
  {
    SplitAt(BE(a, n), s, BE(b, n), t);
    FromBEOfBE(a, n);
    FromBEOfBE(b, n);
  }

  lemma NumbersFramed()
    ensures Framed(PutU16) && Framed(PutU32) && Framed(PutU64) && Framed(PutI64)
  {
    Widths();
    forall a: u16, b: u16, s: Bytes, t: Bytes | PutU16(a) + s == PutU16(b) + t
      ensures a == b && s == t
    {
      PeelBE(a, s, b, t, 2);
    }
    forall a: u32, b: u32, s: Bytes, t: Bytes | PutU32(a) + s == PutU32(b) + t
      ensures a == b && s == t
    {
      PeelBE(a, s, b, t, 4);
    }
    forall a: u64, b: u64, s: Bytes, t: Bytes | PutU64(a) + s == PutU64(b) + t
      ensures a == b && s == t
    {
      PeelBE(a, s, b, t, 8);
    }
    forall a: i64, b: i64, s: Bytes, t: Bytes | PutI64(a) + s == PutI64(b) + t
      ensures a == b && s == t
    {
      PeelBE(if a < 0 then a + TWO_64 else a, s, if b < 0 then b + TWO_64 else b, t, 8);
    }
  }

  lemma CodeFramed<T(!new)>(put: T -> Bytes, code: T -> byte)
    requires forall a :: put(a) == [code(a)]
    requires forall a, b :: code(a) == code(b) ==> a == b
    ensures Framed(put)
  {
    forall a, b, s: Bytes, t: Bytes | put(a) + s == put(b) + t
      ensures a == b && s == t
    {
      SplitAt([code(a)], s, [code(b)], t);
    }
  }

  lemma BytesFramed()
    ensures Framed(PutByte) && Framed(PutBool)
    ensures Framed(PutRole) && Framed(PutAccess) && Framed(PutNetwork) && Framed(PutStdin) && Framed(PutStreamPolicy)
    ensures Framed(PutPurpose) && Framed(PutLimit) && Framed(PutGuarantee) && Framed(PutFailure)
  {
    hide Framed;
    CodeFramed(PutByte, (b: byte) => b);
    CodeFramed(PutBool, (b: bool) => if b then 1 else 0);
    CodeFramed(PutRole, RoleByte);
    CodeFramed(PutAccess, AccessByte);
    CodeFramed(PutNetwork, NetworkByte);
    CodeFramed(PutStdin, StdinByte);
    CodeFramed(PutStreamPolicy, StreamByte);
    CodeFramed(PutPurpose, PurposeByte);
    CodeFramed(PutLimit, LimitByte);
    GuaranteeBytesDiffer();
    CodeFramed(PutGuarantee, GuaranteeByte);
    FailureBytesDiffer();
    CodeFramed(PutFailure, FailureByte);
  }

  lemma PeelString(a: Text, s: Bytes, b: Text, t: Bytes)
    requires PutString(a) + s == PutString(b) + t
    ensures a == b && s == t
  {
    hide PutU64, Framed;
    NumbersFramed();
    PeelU64(|a|, a + s, |b|, b + t) by {
      assert PutU64(|a|) + (a + s) == PutString(a) + s;
      assert PutU64(|b|) + (b + t) == PutString(b) + t;
    }
    SplitAt(a, s, b, t);
  }

  lemma PeelU64(a: u64, s: Bytes, b: u64, t: Bytes)
    requires PutU64(a) + s == PutU64(b) + t
    ensures a == b && s == t
  {
    Widths();
    PeelBE(a, s, b, t, 8);
  }

  lemma StringsFramed()
    ensures Framed(PutString) && Framed(PutHex)
  {
    forall a: Text, b: Text, s: Bytes, t: Bytes | PutString(a) + s == PutString(b) + t
      ensures a == b && s == t
    {
      PeelString(a, s, b, t);
    }
  }

  lemma {:induction false} PeelEach<T(!new)>(xs: seq<T>, s: Bytes, ys: seq<T>, t: Bytes, put: T -> Bytes)
    requires Framed(put) && |xs| == |ys| && Each(xs, put) + s == Each(ys, put) + t
    ensures xs == ys && s == t
  {
    if xs == [] {
      assert Each(xs, put) + s == s && Each(ys, put) + t == t;
    } else {
      assert put(xs[0]) + (Each(xs[1..], put) + s) == Each(xs, put) + s;
      assert put(ys[0]) + (Each(ys[1..], put) + t) == Each(ys, put) + t;
      PeelEach(xs[1..], s, ys[1..], t, put);
      assert xs == [xs[0]] + xs[1..] && ys == [ys[0]] + ys[1..];
    }
  }

  /** Two chunk lists with the same concatenation from `i` on carry the same value in chunk `i`. */
  lemma Field<T(!new)>(c: seq<Bytes>, d: seq<Bytes>, i: nat, put: T -> Bytes, a: T, b: T)
    requires Framed(put) && i < |c| && i < |d| && c[i] == put(a) && d[i] == put(b)
    requires FlatFrom(c, i) == FlatFrom(d, i)
    ensures a == b && FlatFrom(c, i + 1) == FlatFrom(d, i + 1)
  {
    assert put(a) + FlatFrom(c, i + 1) == put(b) + FlatFrom(d, i + 1);
  }

  lemma OptionField<T(!new)>(c: seq<Bytes>, d: seq<Bytes>, i: nat, put: T -> Bytes, a: Option<T>, b: Option<T>)
    requires Framed(put) && i < |c| && i < |d| && c[i] == PutOption(a, put) && d[i] == PutOption(b, put)
    requires FlatFrom(c, i) == FlatFrom(d, i)
    ensures a == b && FlatFrom(c, i + 1) == FlatFrom(d, i + 1)
  {
    PeelOption(a, FlatFrom(c, i + 1), b, FlatFrom(d, i + 1), put);
  }

  lemma PeelOption<T(!new)>(a: Option<T>, s: Bytes, b: Option<T>, t: Bytes, put: T -> Bytes)
    requires Framed(put) && PutOption(a, put) + s == PutOption(b, put) + t
    ensures a == b && s == t
  {
    var x := if a.Some? then put(a.value) + s else s;
    var y := if b.Some? then put(b.value) + t else t;
    assert PutOption(a, put) + s == PutBool(a.Some?) + x;
    assert PutOption(b, put) + t == PutBool(b.Some?) + y;
    SplitAt(PutBool(a.Some?), x, PutBool(b.Some?), y);
  }

  lemma ListField<T(!new)>(c: seq<Bytes>, d: seq<Bytes>, i: nat, put: T -> Bytes, a: Vec<T>, b: Vec<T>)
    requires Framed(put) && i < |c| && i < |d| && c[i] == PutList(a, put) && d[i] == PutList(b, put)
    requires FlatFrom(c, i) == FlatFrom(d, i)
    ensures a == b && FlatFrom(c, i + 1) == FlatFrom(d, i + 1)
  {
    hide PutU64, Framed;
    var s, t := FlatFrom(c, i + 1), FlatFrom(d, i + 1);
    assert PutU64(|a|) + (Each(a, put) + s) == PutList(a, put) + s;
    assert PutU64(|b|) + (Each(b, put) + t) == PutList(b, put) + t;
    PeelU64(|a|, Each(a, put) + s, |b|, Each(b, put) + t);
    PeelEach(a, s, b, t, put);
  }

  /** A record written as a list of chunks is framed: appending `s` is appending one more chunk. */
  lemma {:induction false} FlatAppend(c: seq<Bytes>, i: nat, s: Bytes)
    requires i <= |c|
    ensures FlatFrom(c, i) + s == FlatFrom(c + [s], i)
    decreases |c| - i
  {
    if i == |c| {
      assert FlatFrom(c + [s], i) == s + FlatFrom(c + [s], i + 1) == s;
    } else {
      FlatAppend(c, i + 1, s);
      assert (c + [s])[i] == c[i];
    }
  }

  lemma {:induction false} FlatConcat(c: seq<Bytes>, d: seq<Bytes>, i: nat)
    requires i <= |c|
    ensures FlatFrom(c + d, i) == FlatFrom(c, i) + FlatFrom(d, 0)
    decreases |c| - i
  {
    if i == |c| {
      FlatShift(c, d, 0);
    } else {
      FlatConcat(c, d, i + 1);
      assert (c + d)[i] == c[i];
    }
  }

  lemma {:induction false} FlatShift(c: seq<Bytes>, d: seq<Bytes>, i: nat)
    requires i <= |d|
    ensures FlatFrom(c + d, |c| + i) == FlatFrom(d, i)
    decreases |d| - i
  {
    if i < |d| {
      FlatShift(c, d, i + 1);
      assert (c + d)[|c| + i] == d[i];
    }
  }

  lemma RecordsFramed()
    ensures Framed(PutVariable) && Framed(PutCapture)
  {
    hide PutString, PutHex, PutU64;
    StringsFramed();
    NumbersFramed();
    forall a, b, s: Bytes, t: Bytes | PutVariable(a) + s == PutVariable(b) + t
      ensures a == b && s == t
    {
      var c, d := [PutString(a.name), PutString(a.value)], [PutString(b.name), PutString(b.value)];
      FlatAppend(c, 0, s);
      FlatAppend(d, 0, t);
      Field(c + [s], d + [t], 0, PutString, a.name, b.name);
      Field(c + [s], d + [t], 1, PutString, a.value, b.value);
      Remainder(c, s, d, t);
    }
    forall a, b, s: Bytes, t: Bytes | PutCapture(a) + s == PutCapture(b) + t
      ensures a == b && s == t
    {
      var c, d := [PutU64(a.count), PutHex(a.digest)], [PutU64(b.count), PutHex(b.digest)];
      FlatAppend(c, 0, s);
      FlatAppend(d, 0, t);
      Field(c + [s], d + [t], 0, PutU64, a.count, b.count);
      Field(c + [s], d + [t], 1, PutHex, a.digest, b.digest);
      Remainder(c, s, d, t);
    }
  }

  lemma TerminationsFramed()
    ensures Framed(PutTermination)
  {
    hide PutByte, PutOption, PutLimit, PutU32;
    BytesFramed();
    NumbersFramed();
    forall a, b, s: Bytes, t: Bytes | PutTermination(a) + s == PutTermination(b) + t
      ensures a == b && s == t
    {
      var c := [PutByte(a.KindByte()), PutOption(a.Value(), PutU32), PutOption(a.Limit(), PutLimit)];
      var d := [PutByte(b.KindByte()), PutOption(b.Value(), PutU32), PutOption(b.Limit(), PutLimit)];
      FlatAppend(c, 0, s);
      FlatAppend(d, 0, t);
      Field(c + [s], d + [t], 0, PutByte, a.KindByte(), b.KindByte());
      OptionField(c + [s], d + [t], 1, PutU32, a.Value(), b.Value());
      OptionField(c + [s], d + [t], 2, PutLimit, a.Limit(), b.Limit());
      Remainder(c, s, d, t);
    }
  }

  lemma BindingsFramed()
    ensures Framed(PutBinding)
  {
    hide PutRole, PutString, PutHex, PutAccess;
    BytesFramed();
    StringsFramed();
    forall a, b, s: Bytes, t: Bytes | PutBinding(a) + s == PutBinding(b) + t
      ensures a == b && s == t
    {
      var c := [PutRole(a.slot.role), PutString(a.slot.name), PutHex(a.resource), PutAccess(a.access),
                PutString(a.mountPoint)];
      var d := [PutRole(b.slot.role), PutString(b.slot.name), PutHex(b.resource), PutAccess(b.access),
                PutString(b.mountPoint)];
      FlatAppend(c, 0, s);
      FlatAppend(d, 0, t);
      Field(c + [s], d + [t], 0, PutRole, a.slot.role, b.slot.role);
      Field(c + [s], d + [t], 1, PutString, a.slot.name, b.slot.name);
      Field(c + [s], d + [t], 2, PutHex, a.resource, b.resource);
      Field(c + [s], d + [t], 3, PutAccess, a.access, b.access);
      Field(c + [s], d + [t], 4, PutString, a.mountPoint, b.mountPoint);
      Remainder(c, s, d, t);
    }
  }

  lemma Remainder(c: seq<Bytes>, s: Bytes, d: seq<Bytes>, t: Bytes)
    requires |c| == |d| && FlatFrom(c + [s], |c|) == FlatFrom(d + [t], |d|)
    ensures s == t
  {
    FlatAppend(c, |c|, s);
    FlatAppend(d, |d|, t);
    assert FlatFrom(c, |c|) + s == s && FlatFrom(d, |d|) + t == t;
  }

  // ---------------------------------------------------------------- injectivity and domain separation

  /** Three letters that tell the domain names apart. */
  function Letters(p: Preimage): (char, char, char) {
    match p
    case LayoutImage(_, _) => ('r', 'e', 'a')
    case EnvironmentImage(_, _, _, _, _, _, _, _, _, _, _) => ('e', 'n', 't')
    case CredentialImage(_, _, _, _) => ('c', 'r', '-')
    case LimitsImage(_, _, _, _, _) => ('r', 'e', 'i')
    case RequestImage(_, _, _, _, _, _, _, _, _, _) => ('e', 'x', 'r')
    case ProfileImage(_, _) => ('b', 'a', 'p')
    case EvidenceImage(_, _, _, _, _, _, _, _, _, _, _) => ('e', 'x', 'e')
  }

  lemma FirstLetter(p: Preimage)
    ensures |DomainName(p)| > 18 && DomainName(p)[8] == Letters(p).0
  {
  }

  lemma SecondLetter(p: Preimage)
    ensures |DomainName(p)| > 18 && DomainName(p)[9] == Letters(p).1
  {
  }

  lemma ThirdLetter(p: Preimage)
    ensures |DomainName(p)| > 18 && DomainName(p)[18] == Letters(p).2
  {
  }

  lemma DomainLetters(p: Preimage)
    ensures |Domain(p)| > 18
    ensures Domain(p)[8] == Letters(p).0 as int
    ensures Domain(p)[9] == Letters(p).1 as int
    ensures Domain(p)[18] == Letters(p).2 as int
  {
    hide DomainName;
    FirstLetter(p);
    SecondLetter(p);
    ThirdLetter(p);
  }

  lemma DomainsDiffer(p: Preimage, q: Preimage)
    requires Domain(p) == Domain(q)
    ensures p.LayoutImage? == q.LayoutImage? && p.EnvironmentImage? == q.EnvironmentImage?
    ensures p.CredentialImage? == q.CredentialImage? && p.LimitsImage? == q.LimitsImage?
    ensures p.RequestImage? == q.RequestImage? && p.ProfileImage? == q.ProfileImage?
    ensures p.EvidenceImage? == q.EvidenceImage?
  {
    hide Domain;
    DomainLetters(p);
    DomainLetters(q);
  }

  lemma LayoutDetermined(p: Preimage, q: Preimage)
    requires p.LayoutImage? && q.LayoutImage? && Flat(Chunks(p)) == Flat(Chunks(q))
    ensures p == q
  {
    hide FlatFrom, PutList, PutBinding, PutRole, PutString, Framed;
    BindingsFramed();
    BytesFramed();
    StringsFramed();
    var c, d := Chunks(p), Chunks(q);
    ListField(c, d, 0, PutBinding, p.bindings, q.bindings);
    Field(c, d, 1, PutRole, p.working.role, q.working.role);
    Field(c, d, 2, PutString, p.working.name, q.working.name);
  }

  lemma EnvironmentDetermined(p: Preimage, q: Preimage)
    requires p.EnvironmentImage? && q.EnvironmentImage? && Flat(Chunks(p)) == Flat(Chunks(q))
    ensures p == q
  {
    hide FlatFrom, EnvironmentValues, PutByte, PutNetwork, PutStdin, PutStreamPolicy, Framed;
    BytesFramed();
    var c, d := Chunks(p), Chunks(q);
    Field(c, d, 0, PutByte, 0, 0);
    Field(c, d, 1, PutByte, 0, 0);
    Field(c, d, 2, PutByte, 0, 0);
    Field(c, d, 3, PutNetwork, p.network, q.network);
    Field(c, d, 4, PutStdin, p.stdin, q.stdin);
    Field(c, d, 5, PutStreamPolicy, p.stdout, q.stdout);
    Field(c, d, 6, PutStreamPolicy, p.stderr, q.stderr);
    FlatShift(EnvironmentPolicies(p), EnvironmentValues(p), 0);
    FlatShift(EnvironmentPolicies(q), EnvironmentValues(q), 0);
    EnvironmentValuesDetermined(p, q);
  }

  lemma EnvironmentValuesDetermined(p: Preimage, q: Preimage)
    requires p.EnvironmentImage? && q.EnvironmentImage?
    requires FlatFrom(EnvironmentValues(p), 0) == FlatFrom(EnvironmentValues(q), 0)
    ensures p.searchPath == q.searchPath && p.home == q.home && p.temporary == q.temporary
    ensures p.parallelism == q.parallelism && p.mask == q.mask && p.epoch == q.epoch && p.variables == q.variables
  {
    hide FlatFrom, PutList, PutString, PutU32, PutI64, PutOption, PutVariable, Framed;
    NumbersFramed();
    StringsFramed();
    RecordsFramed();
    var c, d := EnvironmentValues(p), EnvironmentValues(q);
    ListField(c, d, 0, PutString, p.searchPath, q.searchPath);
    Field(c, d, 1, PutString, p.home, q.home);
    Field(c, d, 2, PutString, p.temporary, q.temporary);
    Field(c, d, 3, PutU32, p.parallelism, q.parallelism);
    Field(c, d, 4, PutU32, p.mask, q.mask);
    OptionField(c, d, 5, PutI64, p.epoch, q.epoch);
    ListField(c, d, 6, PutVariable, p.variables, q.variables);
  }

  lemma CredentialDetermined(p: Preimage, q: Preimage)
    requires p.CredentialImage? && q.CredentialImage? && Flat(Chunks(p)) == Flat(Chunks(q))
    ensures p == q
  {
    hide FlatFrom, PutU64, PutList, PutBool, Framed;
    BytesFramed();
    NumbersFramed();
    var c, d := Chunks(p), Chunks(q);
    Field(c, d, 0, PutU64, p.user, q.user);
    Field(c, d, 1, PutU64, p.group, q.group);
    ListField(c, d, 2, PutU64, p.groups, q.groups);
    Field(c, d, 3, PutBool, p.noNewPrivileges, q.noNewPrivileges);
  }

  lemma LimitsDetermined(p: Preimage, q: Preimage)
    requires p.LimitsImage? && q.LimitsImage? && Flat(Chunks(p)) == Flat(Chunks(q))
    ensures p == q
  {
    hide FlatFrom, PutU64, PutOption, Framed;
    NumbersFramed();
    var c, d := Chunks(p), Chunks(q);
    OptionField(c, d, 0, PutU64, p.cpuTime, q.cpuTime);
    OptionField(c, d, 1, PutU64, p.addressSpace, q.addressSpace);
    OptionField(c, d, 2, PutU64, p.fileSize, q.fileSize);
    OptionField(c, d, 3, PutU64, p.openFiles, q.openFiles);
    OptionField(c, d, 4, PutU64, p.processCount, q.processCount);
  }

  lemma RequestDetermined(p: Preimage, q: Preimage)
    requires p.RequestImage? && q.RequestImage? && Flat(Chunks(p)) == Flat(Chunks(q))
    ensures p == q
  {
    hide FlatFrom, RequestParts, PutU16, PutString, PutHex, PutPurpose, PutOption, Framed;
    BytesFramed();
    NumbersFramed();
    StringsFramed();
    var c, d := Chunks(p), Chunks(q);
    Field(c, d, 0, PutU16, REQUEST_SCHEMA_VERSION, REQUEST_SCHEMA_VERSION);
    Field(c, d, 1, PutString, p.program.language, q.program.language);
    Field(c, d, 2, PutHex, p.program.content, q.program.content);
    Field(c, d, 3, PutPurpose, p.purpose.Kind(), q.purpose.Kind());
    OptionField(c, d, 4, PutString, p.purpose.Action(), q.purpose.Action());
    Field(c, d, 5, PutHex, p.interpreter, q.interpreter);
    Field(c, d, 6, PutHex, p.rootView, q.rootView);
    FlatShift(RequestSubject(p), RequestParts(p), 0);
    FlatShift(RequestSubject(q), RequestParts(q), 0);
    RequestPartsDetermined(p, q);
  }

  lemma RequestPartsDetermined(p: Preimage, q: Preimage)
    requires p.RequestImage? && q.RequestImage?
    requires FlatFrom(RequestParts(p), 0) == FlatFrom(RequestParts(q), 0)
    ensures p.layout == q.layout && p.environment == q.environment && p.credentials == q.credentials
    ensures p.limits == q.limits && p.cancellation == q.cancellation && p.required == q.required
  {
    hide FlatFrom, PutHex, PutOption, PutBool, PutU64, PutList, PutGuarantee, Framed;
    BytesFramed();
    NumbersFramed();
    StringsFramed();
    var c, d := RequestParts(p), RequestParts(q);
    Field(c, d, 0, PutHex, p.layout, q.layout);
    Field(c, d, 1, PutHex, p.environment, q.environment);
    Field(c, d, 2, PutHex, p.credentials, q.credentials);
    Field(c, d, 3, PutHex, p.limits, q.limits);
    Field(c, d, 4, PutBool, p.cancellation.GracefulThenForced?, q.cancellation.GracefulThenForced?);
    OptionField(c, d, 5, PutU64, p.cancellation.Grace(), q.cancellation.Grace());
    ListField(c, d, 6, PutGuarantee, p.required, q.required);
  }

  lemma ProfileDetermined(p: Preimage, q: Preimage)
    requires p.ProfileImage? && q.ProfileImage? && Flat(Chunks(p)) == Flat(Chunks(q))
    ensures p == q
  {
    hide FlatFrom, PutHex, PutList, PutGuarantee, Framed;
    BytesFramed();
    StringsFramed();
    var c, d := Chunks(p), Chunks(q);
    Field(c, d, 0, PutHex, p.backend, q.backend);
    ListField(c, d, 1, PutGuarantee, p.guarantees, q.guarantees);
  }

  lemma EvidenceDetermined(p: Preimage, q: Preimage)
    requires p.EvidenceImage? && q.EvidenceImage? && Flat(Chunks(p)) == Flat(Chunks(q))
    ensures p == q
  {
    hide FlatFrom, EvidenceOutcome, PutByte, PutHex, PutOption, PutTermination, Framed;
    BytesFramed();
    StringsFramed();
    TerminationsFramed();
    var c, d := Chunks(p), Chunks(q);
    Field(c, d, 0, PutByte, StatusByte(p.status), StatusByte(q.status));
    Field(c, d, 1, PutByte, StartByte(p.start), StartByte(q.start));
    Field(c, d, 2, PutHex, p.request, q.request);
    Field(c, d, 3, PutHex, p.profile, q.profile);
    OptionField(c, d, 4, PutHex, p.observed, q.observed);
    OptionField(c, d, 5, PutTermination, p.termination, q.termination);
    FlatShift(EvidenceProcess(p), EvidenceOutcome(p), 0);
    FlatShift(EvidenceProcess(q), EvidenceOutcome(q), 0);
    EvidenceOutcomeDetermined(p, q);
  }

  lemma EvidenceOutcomeDetermined(p: Preimage, q: Preimage)
    requires p.EvidenceImage? && q.EvidenceImage?
    requires FlatFrom(EvidenceOutcome(p), 0) == FlatFrom(EvidenceOutcome(q), 0)
    ensures p.standardOutput == q.standardOutput && p.standardError == q.standardError
    ensures p.established == q.established && p.cleanup == q.cleanup && p.failure == q.failure
  {
    hide FlatFrom, PutByte, PutOption, PutCapture, PutList, PutGuarantee, PutFailure, Framed;
    BytesFramed();
    RecordsFramed();
    var c, d := EvidenceOutcome(p), EvidenceOutcome(q);
    OptionField(c, d, 0, PutCapture, p.standardOutput, q.standardOutput);
    OptionField(c, d, 1, PutCapture, p.standardError, q.standardError);
    ListField(c, d, 2, PutGuarantee, p.established, q.established);
    Field(c, d, 3, PutByte, CleanupByte(p.cleanup), CleanupByte(q.cleanup));
    OptionField(c, d, 4, PutFailure, p.failure, q.failure);
  }

  /**
   Two hashed byte strings are equal exactly when they were made by the same `identify_*`
   function from the same values: framing is unambiguous and the domains never collide.
   */
  lemma RenderIsInjective(p: Preimage, q: Preimage)
    ensures Render(p) == Render(q) <==> p == q
  {
    hide PutString, Chunks, Domain, Flat;
    if Render(p) == Render(q) {
      PeelString(Domain(p), Flat(Chunks(p)), Domain(q), Flat(Chunks(q)));
      DomainsDiffer(p, q);
      match p {
        case LayoutImage(_, _) => LayoutDetermined(p, q);
        case EnvironmentImage(_, _, _, _, _, _, _, _, _, _, _) => EnvironmentDetermined(p, q);
        case CredentialImage(_, _, _, _) => CredentialDetermined(p, q);
        case LimitsImage(_, _, _, _, _) => LimitsDetermined(p, q);
        case RequestImage(_, _, _, _, _, _, _, _, _, _) => RequestDetermined(p, q);
        case ProfileImage(_, _) => ProfileDetermined(p, q);
        case EvidenceImage(_, _, _, _, _, _, _, _, _, _, _) => EvidenceDetermined(p, q);
      }
    }
  }

  // ---------------------------------------------------------------- the bytes, field by field

  lemma FlatTwo(a: Bytes, b: Bytes)
    ensures Flat([a, b]) == a + b
  {
    var chunks := [a, b];
    assert FlatFrom(chunks, 2) == [];
    assert FlatFrom(chunks, 1) == b + [] == b;
    assert FlatFrom(chunks, 0) == a + FlatFrom(chunks, 1);
  }

  lemma FlatThree(a: Bytes, b: Bytes, c: Bytes)
    ensures Flat([a, b, c]) == a + (b + c)
  {
    var chunks := [a, b, c];
    assert FlatFrom(chunks, 3) == [];
    assert FlatFrom(chunks, 2) == c + [] == c;
    assert FlatFrom(chunks, 1) == b + FlatFrom(chunks, 2);
    assert FlatFrom(chunks, 0) == a + FlatFrom(chunks, 1);
  }

  lemma FlatFour(a: Bytes, b: Bytes, c: Bytes, d: Bytes)
    ensures Flat([a, b, c, d]) == a + (b + (c + d))
  {
    var chunks := [a, b, c, d];
    assert FlatFrom(chunks, 4) == [];
    assert FlatFrom(chunks, 3) == d + [] == d;
    assert FlatFrom(chunks, 2) == c + FlatFrom(chunks, 3);
    assert FlatFrom(chunks, 1) == b + FlatFrom(chunks, 2);
    assert FlatFrom(chunks, 0) == a + FlatFrom(chunks, 1);
  }

  lemma FlatFive(a: Bytes, b: Bytes, c: Bytes, d: Bytes, e: Bytes)
    ensures Flat([a, b, c, d, e]) == a + (b + (c + (d + e)))
  {
    var chunks := [a, b, c, d, e];
    assert FlatFrom(chunks, 5) == [];
    assert FlatFrom(chunks, 4) == e + [] == e;
    assert FlatFrom(chunks, 3) == d + FlatFrom(chunks, 4);
    assert FlatFrom(chunks, 2) == c + FlatFrom(chunks, 3);
    assert FlatFrom(chunks, 1) == b + FlatFrom(chunks, 2);
    assert FlatFrom(chunks, 0) == a + FlatFrom(chunks, 1);
  }

  lemma FlatSix(a: Bytes, b: Bytes, c: Bytes, d: Bytes, e: Bytes, f: Bytes)
    ensures Flat([a, b, c, d, e, f]) == a + (b + (c + (d + (e + f))))
  {
    var chunks := [a, b, c, d, e, f];
    assert FlatFrom(chunks, 6) == [];
    assert FlatFrom(chunks, 5) == f + [] == f;
    assert FlatFrom(chunks, 4) == e + FlatFrom(chunks, 5);
    assert FlatFrom(chunks, 3) == d + FlatFrom(chunks, 4);
    assert FlatFrom(chunks, 2) == c + FlatFrom(chunks, 3);
    assert FlatFrom(chunks, 1) == b + FlatFrom(chunks, 2);
    assert FlatFrom(chunks, 0) == a + FlatFrom(chunks, 1);
  }

  lemma FlatSeven(a: Bytes, b: Bytes, c: Bytes, d: Bytes, e: Bytes, f: Bytes, g: Bytes)
    ensures Flat([a, b, c, d, e, f, g]) == a + (b + (c + (d + (e + (f + g)))))
  {
    var chunks := [a, b, c, d, e, f, g];
    assert FlatFrom(chunks, 7) == [];
    assert FlatFrom(chunks, 6) == g + [] == g;
    assert FlatFrom(chunks, 5) == f + FlatFrom(chunks, 6);
    assert FlatFrom(chunks, 4) == e + FlatFrom(chunks, 5);
    assert FlatFrom(chunks, 3) == d + FlatFrom(chunks, 4);
    assert FlatFrom(chunks, 2) == c + FlatFrom(chunks, 3);
    assert FlatFrom(chunks, 1) == b + FlatFrom(chunks, 2);
    assert FlatFrom(chunks, 0) == a + FlatFrom(chunks, 1);
  }

  /** How single fields are framed: flags are one byte, lengths and counts eight, numbers big-endian. */
  lemma Framing<T>(b: bool, s: Text, v: i64, xs: Vec<T>, x: T, put: T -> Bytes)
    ensures PutBool(b) == [if b then 1 else 0]
    ensures PutString(s) == BE(|s|, 8) + s
    ensures PutI64(v) == BE(if v < 0 then v + TWO_64 else v, 8)
    ensures PutOption(None, put) == [0] && PutOption(Some(x), put) == [1] + put(x)
    ensures PutList(xs, put) == BE(|xs|, 8) + Each(xs, put)
    ensures Each([], put) == [] && Each([x] + xs, put) == put(x) + Each(xs, put)
  {
    assert ([x] + xs)[1..] == xs;
  }

  lemma BindingBytes(b: ResourceBinding)
    ensures PutBinding(b) == [RoleByte(b.slot.role)] + (PutString(b.slot.name) + (PutString(b.resource)
                             + ([AccessByte(b.access)] + PutString(b.mountPoint))))
  {
    hide PutString, FlatFrom;
    FlatFive(PutRole(b.slot.role), PutString(b.slot.name), PutHex(b.resource), PutAccess(b.access),
             PutString(b.mountPoint));
  }

  lemma SmallRecordBytes(v: EnvironmentVariable, c: CaptureSummary, t: Termination)
    ensures PutVariable(v) == PutString(v.name) + PutString(v.value)
    ensures PutCapture(c) == BE(c.count, 8) + PutString(c.digest)
    ensures PutTermination(t) == [t.KindByte()] + (PutOption(t.Value(), PutU32) + PutOption(t.Limit(), PutLimit))
  {
    hide PutString, FlatFrom, PutOption;
    FlatTwo(PutString(v.name), PutString(v.value));
    FlatTwo(PutU64(c.count), PutHex(c.digest));
    FlatThree(PutByte(t.KindByte()), PutOption(t.Value(), PutU32), PutOption(t.Limit(), PutLimit));
  }

  lemma LayoutBytes(p: Preimage)
    requires p.LayoutImage?
    ensures Render(p) == PutString(Ascii("pkgexec/resource-layout/v1"))
      + (PutList(p.bindings, PutBinding) + ([RoleByte(p.working.role)] + PutString(p.working.name)))
  {
    hide PutString, PutList, FlatFrom, Ascii;
    FlatThree(PutList(p.bindings, PutBinding), PutRole(p.working.role), PutString(p.working.name));
  }

  lemma EnvironmentBytes(p: Preimage)
    requires p.EnvironmentImage?
    ensures Render(p) == PutString(Ascii("pkgexec/environment-policy/v1"))
      + (([0] + ([0] + ([0] + ([NetworkByte(p.network)] + ([StdinByte(p.stdin)]
          + ([StreamByte(p.stdout)] + [StreamByte(p.stderr)]))))))
      + (PutList(p.searchPath, PutString) + (PutString(p.home) + (PutString(p.temporary) + (PutU32(p.parallelism)
          + (PutU32(p.mask) + (PutOption(p.epoch, PutI64) + PutList(p.variables, PutVariable))))))))
  {
    hide PutString, PutList, PutOption, PutU32, FlatFrom, Ascii;
    FlatConcat(EnvironmentPolicies(p), EnvironmentValues(p), 0);
    FlatSeven([0], [0], [0], PutNetwork(p.network), PutStdin(p.stdin), PutStreamPolicy(p.stdout),
              PutStreamPolicy(p.stderr));
    FlatSeven(PutList(p.searchPath, PutString), PutString(p.home), PutString(p.temporary), PutU32(p.parallelism),
              PutU32(p.mask), PutOption(p.epoch, PutI64), PutList(p.variables, PutVariable));
  }

  lemma CredentialBytes(p: Preimage)
    requires p.CredentialImage?
    ensures Render(p) == PutString(Ascii("pkgexec/credential-policy/v1"))
      + (PutU64(p.user) + (PutU64(p.group) + (PutList(p.groups, PutU64) + PutBool(p.noNewPrivileges))))
  {
    hide PutString, PutList, PutU64, PutBool, FlatFrom, Ascii;
    FlatFour(PutU64(p.user), PutU64(p.group), PutList(p.groups, PutU64), PutBool(p.noNewPrivileges));
  }

  lemma LimitsBytes(p: Preimage)
    requires p.LimitsImage?
    ensures Render(p) == PutString(Ascii("pkgexec/resource-limits/v1"))
      + (PutOption(p.cpuTime, PutU64) + (PutOption(p.addressSpace, PutU64) + (PutOption(p.fileSize, PutU64)
      + (PutOption(p.openFiles, PutU64) + PutOption(p.processCount, PutU64)))))
  {
    hide PutString, PutOption, PutU64, FlatFrom, Ascii;
    FlatFive(PutOption(p.cpuTime, PutU64), PutOption(p.addressSpace, PutU64), PutOption(p.fileSize, PutU64),
             PutOption(p.openFiles, PutU64), PutOption(p.processCount, PutU64));
  }

  lemma RequestBytes(p: Preimage)
    requires p.RequestImage?
    ensures Render(p) == PutString(Ascii("pkgexec/execution-request/v1"))
      + ((PutU16(1) + (PutString(p.program.language) + (PutString(p.program.content)
          + ([PurposeByte(p.purpose.Kind())] + (PutOption(p.purpose.Action(), PutString)
          + (PutString(p.interpreter) + PutString(p.rootView)))))))
      + (PutString(p.layout) + (PutString(p.environment) + (PutString(p.credentials) + (PutString(p.limits)
          + ([if p.cancellation.Disabled? then 0 else 1] + (PutOption(p.cancellation.Grace(), PutU64)
          + PutList(p.required, PutGuarantee))))))))
  {
    hide PutString, PutList, PutOption, PutU16, FlatFrom, Ascii;
    FlatConcat(RequestSubject(p), RequestParts(p), 0);
    FlatSeven(PutU16(1), PutString(p.program.language), PutHex(p.program.content), PutPurpose(p.purpose.Kind()),
              PutOption(p.purpose.Action(), PutString), PutHex(p.interpreter), PutHex(p.rootView));
    FlatSeven(PutHex(p.layout), PutHex(p.environment), PutHex(p.credentials), PutHex(p.limits),
              PutBool(p.cancellation.GracefulThenForced?), PutOption(p.cancellation.Grace(), PutU64),
              PutList(p.required, PutGuarantee));
  }

  lemma ProfileBytes(p: Preimage)
    requires p.ProfileImage?
    ensures Render(p) == PutString(Ascii("pkgexec/backend-capability-profile/v1"))
      + (PutString(p.backend) + PutList(p.guarantees, PutGuarantee))
  {
    hide PutString, PutList, FlatFrom, Ascii;
    FlatTwo(PutHex(p.backend), PutList(p.guarantees, PutGuarantee));
  }

  lemma EvidenceBytes(p: Preimage)
    requires p.EvidenceImage?
    ensures Render(p) == PutString(Ascii("pkgexec/execution-evidence/v1"))
      + (([StatusByte(p.status)] + ([StartByte(p.start)] + (PutString(p.request) + (PutString(p.profile)
          + (PutOption(p.observed, PutHex) + PutOption(p.termination, PutTermination))))))
      + (PutOption(p.standardOutput, PutCapture) + (PutOption(p.standardError, PutCapture)
          + (PutList(p.established, PutGuarantee) + ([CleanupByte(p.cleanup)] + PutOption(p.failure, PutFailure))))))
  {
    hide PutString, PutList, PutOption, FlatFrom, Ascii;
    FlatConcat(EvidenceProcess(p), EvidenceOutcome(p), 0);
    FlatSix(PutByte(StatusByte(p.status)), PutByte(StartByte(p.start)), PutHex(p.request), PutHex(p.profile),
            PutOption(p.observed, PutHex), PutOption(p.termination, PutTermination));
    FlatFive(PutOption(p.standardOutput, PutCapture), PutOption(p.standardError, PutCapture),
             PutList(p.established, PutGuarantee), PutByte(CleanupByte(p.cleanup)), PutOption(p.failure, PutFailure));
  }

  /** SHA-256 does not collide on these two preimages: a premise of corollaries, never assumed. */
  ghost predicate NoCollision(sha: Sha, p: Preimage, q: Preimage) {
    sha(Render(p)) == sha(Render(q)) ==> Render(p) == Render(q)
  }

  /** Without a collision an identity stands for the values it was computed from. */
  lemma IdentityDetermines(sha: Sha, p: Preimage, q: Preimage)
    requires NoCollision(sha, p, q)
    ensures Identity(sha, p) == Identity(sha, q) <==> p == q
  {
    if Identity(sha, p) == Identity(sha, q) {
      PackUnpack(sha(Render(p)));
      PackUnpack(sha(Render(q)));
      RenderIsInjective(p, q);
    }
  }
}
