/** The incremental digest of identity_support.cpp, and the functions that feed it. */
module Builders {
  import opened Wrappers
  import opened Bytes
  import opened Model
  import opened Preimages

  lemma FlatOne(chunk: Bytes)
    ensures Flat([chunk]) == chunk
  {
    assert FlatFrom([chunk], 1) == [];
  }

  /**
   The digest context is represented by the bytes it has been updated with, and `chunks` by how
   they were given. An update after `Finish`, or a second `Finish`, throws; `thrown` records that,
   and nothing changes any more.
   */
  class IdentityBuilder {
    var preimage: Bytes
    var finished: bool
    var thrown: bool
    ghost var chunks: seq<Bytes>

    ghost predicate Valid()
      reads this
    {
      preimage == Flat(chunks)
    }

    predicate Live()
      reads this
    {
      !finished && !thrown
    }

    /** One more chunk was hashed, unless the digest was finalised before. */
    twostate predicate Added(chunk: Bytes)
      reads this
    {
      && Valid()
      && finished == old(finished) && thrown == (old(thrown) || old(finished))
      && chunks == if old(Live()) then old(chunks) + [chunk] else old(chunks)
    }

    constructor (domain: Text)
      ensures Valid() && Live() && chunks == [PutString(domain)]
    {
      preimage, finished, thrown, chunks := [], false, false, [];
      new;
      AddString(domain);
    }

    method AddBytes(data: Bytes)
      requires Valid()
      modifies this
      ensures Added(data)
    {
      if finished {
        thrown := true;
      } else if !thrown {
        FlatConcat(chunks, [data], 0);
        FlatOne(data);
        preimage, chunks := preimage + data, chunks + [data];
      }
    }

    /** Regards the updates from number `k` on as one. */
    ghost method Join(k: nat)
      requires Valid() && k <= |chunks|
      modifies this`chunks
      ensures Valid() && chunks == old(chunks[..k]) + [FlatFrom(old(chunks), k)]
    {
      assert chunks == chunks[..k] + chunks[k..];
      FlatConcat(chunks[..k], chunks[k..], 0);
      FlatShift(chunks[..k], chunks[k..], 0);
      FlatConcat(chunks[..k], [FlatFrom(chunks, k)], 0);
      FlatOne(FlatFrom(chunks, k));
      chunks := chunks[..k] + [FlatFrom(chunks, k)];
    }

    method AddBool(value: bool)
      requires Valid()
      modifies this
      ensures Added(PutBool(value))
    {
      AddByte(if value then 1 else 0);
    }

    method AddByte(value: byte)
      requires Valid()
      modifies this
      ensures Added(PutByte(value))
    {
      AddBytes([value]);
    }

    method AddU16(value: u16)
      requires Valid()
      modifies this
      ensures Added(PutU16(value))
    {
      assert BE(value, 2) == BE(value / 256, 1) + [value % 256];
      assert BE(value / 256, 1) == BE(value / 256 / 256, 0) + [value / 256 % 256];
      assert PutU16(value) == [value / 256 % 256, value % 256];
      AddBytes([value / 256 % 256, value % 256]);
    }

    method AddU32(value: u32)
      requires Valid()
      modifies this
      ensures Added(PutU32(value))
    {
      var bytes := EncodeU32(value);
      AddBytes(bytes);
    }

    method AddU64(value: u64)
      requires Valid()
      modifies this
      ensures Added(PutU64(value))
    {
      var bytes := EncodeU64(value);
      AddBytes(bytes);
    }

    method AddI64(value: i64)
      requires Valid()
      modifies this
      ensures Added(PutI64(value))
    {
      AddU64(if value < 0 then value + TWO_64 else value);
    }

    method AddString(value: Text)
      requires Valid()
      modifies this
      ensures Added(PutString(value))
    {
      AddU64(|value|);
      AddBytes(value);
      if Live() {
        JoinTwo(PutU64(|value|), value);
      }
    }

    method AddOptionalU64(value: Option<u64>)
      requires Valid()
      modifies this
      ensures Added(PutOption(value, PutU64))
    {
      AddBool(value.Some?);
      if value.Some? {
        AddU64(value.value);
        if Live() {
          JoinTwo(PutBool(true), PutU64(value.value));
        }
      }
    }

    method AddOptionalI64(value: Option<i64>)
      requires Valid()
      modifies this
      ensures Added(PutOption(value, PutI64))
    {
      AddBool(value.Some?);
      if value.Some? {
        AddI64(value.value);
        if Live() {
          JoinTwo(PutBool(true), PutI64(value.value));
        }
      }
    }

    ghost method JoinTwo(a: Bytes, b: Bytes)
      requires Valid() && |chunks| >= 2 && chunks[|chunks| - 2..] == [a, b]
      modifies this`chunks
      ensures Valid() && chunks == old(chunks[..|chunks| - 2]) + [a + b]
    {
      var k := |chunks| - 2;
      assert chunks[k] == chunks[k..][0] && chunks[k + 1] == chunks[k..][1];
      assert FlatFrom(chunks, k + 2) == [] && FlatFrom(chunks, k + 1) == b + [] == b;
      assert FlatFrom(chunks, k) == a + b;
      Join(k);
    }

    /** The digest can be taken once. */
    method Finish(sha: Sha) returns (r: Result<Bytes>)
      requires Valid()
      modifies this
      ensures !Live() && preimage == old(preimage)
      ensures r == if old(Live()) then Ok(Sha256Hex(sha, Flat(old(chunks)))) else Err(IdentityFailed)
    {
      if finished || thrown {
        thrown := true;
        return Err(IdentityFailed);
      }
      finished := true;
      var hex := HexEncodeBytes(sha(preimage));
      return Ok(hex);
    }
  }

  // ---------------------------------------------------------------- loops over lists

  lemma {:induction false} EachAppend<T>(xs: seq<T>, x: T, put: T -> Bytes)
    ensures Each(xs + [x], put) == Each(xs, put) + put(x)
  {
    if xs == [] {
      assert [] + [x] == [x] && [x][1..] == [];
    } else {
      assert (xs + [x])[1..] == xs[1..] + [x];
      EachAppend(xs[1..], x, put);
    }
  }

  /** The encoding of a list after its first `i` elements have been written. */
  ghost function ListSoFar<T>(xs: Vec<T>, i: nat, put: T -> Bytes): Bytes
    requires i <= |xs|
  {
    PutU64(|xs|) + Each(xs[..i], put)
  }

  lemma ListStep<T>(xs: Vec<T>, i: nat, put: T -> Bytes)
    requires i < |xs|
    ensures ListSoFar(xs, i, put) + put(xs[i]) == ListSoFar(xs, i + 1, put)
  {
    assert xs[..i + 1] == xs[..i] + [xs[i]];
    EachAppend(xs[..i], xs[i], put);
  }

  lemma ListEnds<T>(xs: Vec<T>, put: T -> Bytes)
    ensures ListSoFar(xs, 0, put) == PutU64(|xs|) && ListSoFar(xs, |xs|, put) == PutList(xs, put)
  {
    assert xs[..|xs|] == xs;
  }

  method AddGuarantees(hash: IdentityBuilder, values: Vec<Guarantee>)
    requires hash.Valid() && hash.Live()
    modifies hash
    ensures hash.Added(PutList(values, PutGuarantee))
  {
    hide PutU64, FlatFrom, Each;
    hash.AddU64(|values|);
    ListEnds(values, PutGuarantee);
    for i := 0 to |values|
      invariant hash.Added(ListSoFar(values, i, PutGuarantee))
    {
      hash.AddByte(GuaranteeByte(values[i]));
      hash.JoinTwo(ListSoFar(values, i, PutGuarantee), PutGuarantee(values[i]));
      ListStep(values, i, PutGuarantee);
    }
  }

  method AddStrings(hash: IdentityBuilder, values: Vec<Text>)
    requires hash.Valid() && hash.Live()
    modifies hash
    ensures hash.Added(PutList(values, PutString))
  {
    hide PutU64, PutString, FlatFrom, Each;
    hash.AddU64(|values|);
    ListEnds(values, PutString);
    for i := 0 to |values|
      invariant hash.Added(ListSoFar(values, i, PutString))
    {
      hash.AddString(values[i]);
      hash.JoinTwo(ListSoFar(values, i, PutString), PutString(values[i]));
      ListStep(values, i, PutString);
    }
  }

  method AddNumbers(hash: IdentityBuilder, values: Vec<u64>)
    requires hash.Valid() && hash.Live()
    modifies hash
    ensures hash.Added(PutList(values, PutU64))
  {
    hide PutU64, FlatFrom, Each;
    hash.AddU64(|values|);
    ListEnds(values, PutU64);
    for i := 0 to |values|
      invariant hash.Added(ListSoFar(values, i, PutU64))
    {
      hash.AddU64(values[i]);
      hash.JoinTwo(ListSoFar(values, i, PutU64), PutU64(values[i]));
      ListStep(values, i, PutU64);
    }
  }

  method AddVariable(hash: IdentityBuilder, v: EnvironmentVariable)
    requires hash.Valid() && hash.Live()
    modifies hash
    ensures hash.Added(PutVariable(v))
  {
    hide PutString, FlatFrom;
    hash.AddString(v.name);
    hash.AddString(v.value);
    hash.JoinTwo(PutString(v.name), PutString(v.value));
    FlatTwo(PutString(v.name), PutString(v.value));
  }

  method AddVariables(hash: IdentityBuilder, values: Vec<EnvironmentVariable>)
    requires hash.Valid() && hash.Live()
    modifies hash
    ensures hash.Added(PutList(values, PutVariable))
  {
    hide PutU64, PutVariable, FlatFrom, Each;
    hash.AddU64(|values|);
    ListEnds(values, PutVariable);
    for i := 0 to |values|
      invariant hash.Added(ListSoFar(values, i, PutVariable))
    {
      AddVariable(hash, values[i]);
      hash.JoinTwo(ListSoFar(values, i, PutVariable), PutVariable(values[i]));
      ListStep(values, i, PutVariable);
    }
  }

  /** Regards the updates after the first `before` as one. */
  ghost method JoinOwn(hash: IdentityBuilder, before: seq<Bytes>, own: seq<Bytes>)
    requires hash.Valid() && hash.chunks == before + own
    modifies hash`chunks
    ensures hash.Valid() && hash.chunks == before + [Flat(own)]
  {
    hide FlatFrom;
    FlatShift(before, own, 0);
    hash.Join(|before|);
    assert (before + own)[..|before|] == before;
  }

  method AddBinding(hash: IdentityBuilder, b: ResourceBinding)
    requires hash.Valid() && hash.Live()
    modifies hash
    ensures hash.Added(PutBinding(b))
  {
    hide PutByte, PutString, FlatFrom;
    ghost var before := hash.chunks;
    hash.AddByte(RoleByte(b.slot.role));
    hash.AddString(b.slot.name);
    hash.AddString(b.resource);
    hash.AddByte(AccessByte(b.access));
    hash.AddString(b.mountPoint);
    ghost var own := [PutRole(b.slot.role), PutString(b.slot.name), PutHex(b.resource), PutAccess(b.access),
                      PutString(b.mountPoint)];
    JoinOwn(hash, before, own);
  }

  method AddBindings(hash: IdentityBuilder, values: Vec<ResourceBinding>)
    requires hash.Valid() && hash.Live()
    modifies hash
    ensures hash.Added(PutList(values, PutBinding))
  {
    hide PutU64, PutBinding, FlatFrom, Each;
    hash.AddU64(|values|);
    ListEnds(values, PutBinding);
    for i := 0 to |values|
      invariant hash.Added(ListSoFar(values, i, PutBinding))
    {
      AddBinding(hash, values[i]);
      hash.JoinTwo(ListSoFar(values, i, PutBinding), PutBinding(values[i]));
      ListStep(values, i, PutBinding);
    }
  }

  // ---------------------------------------------------------------- optional fields

  method AddOptionalString(hash: IdentityBuilder, value: Option<Text>)
    requires hash.Valid() && hash.Live()
    modifies hash
    ensures hash.Added(PutOption(value, PutString))
  {
    hash.AddBool(value.Some?);
    if value.Some? {
      hash.AddString(value.value);
      hash.JoinTwo(PutBool(true), PutString(value.value));
    }
  }

  method AddOptionalHex(hash: IdentityBuilder, value: Option<Hex>)
    requires hash.Valid() && hash.Live()
    modifies hash
    ensures hash.Added(PutOption(value, PutHex))
  {
    hash.AddBool(value.Some?);
    if value.Some? {
      hash.AddString(value.value);
      hash.JoinTwo(PutBool(true), PutHex(value.value));
    }
  }

  method AddOptionalU32(hash: IdentityBuilder, value: Option<u32>)
    requires hash.Valid() && hash.Live()
    modifies hash
    ensures hash.Added(PutOption(value, PutU32))
  {
    hash.AddBool(value.Some?);
    if value.Some? {
      hash.AddU32(value.value);
      hash.JoinTwo(PutBool(true), PutU32(value.value));
    }
  }

  method AddOptionalLimit(hash: IdentityBuilder, value: Option<LimitKind>)
    requires hash.Valid() && hash.Live()
    modifies hash
    ensures hash.Added(PutOption(value, PutLimit))
  {
    hash.AddBool(value.Some?);
    if value.Some? {
      hash.AddByte(LimitByte(value.value));
      hash.JoinTwo(PutBool(true), PutLimit(value.value));
    }
  }

  method AddOptionalFailure(hash: IdentityBuilder, value: Option<FailureKind>)
    requires hash.Valid() && hash.Live()
    modifies hash
    ensures hash.Added(PutOption(value, PutFailure))
  {
    hash.AddBool(value.Some?);
    if value.Some? {
      hash.AddByte(FailureByte(value.value));
      hash.JoinTwo(PutBool(true), PutFailure(value.value));
    }
  }

  /** append_capture. */
  method AddCapture(hash: IdentityBuilder, value: Option<CaptureSummary>)
    requires hash.Valid() && hash.Live()
    modifies hash
    ensures hash.Added(PutOption(value, PutCapture))
  {
    hide PutBool, PutU64, PutString, FlatFrom;
    ghost var before := hash.chunks;
    hash.AddBool(value.Some?);
    if value.Some? {
      var c := value.value;
      hash.AddU64(c.count);
      hash.AddString(c.digest);
      assert hash.chunks == before + [PutBool(true), PutU64(c.count), PutHex(c.digest)];
      hash.JoinTwo(PutU64(c.count), PutHex(c.digest));
      FlatTwo(PutU64(c.count), PutHex(c.digest));
      assert hash.chunks == before + [PutBool(true), PutCapture(c)];
      hash.JoinTwo(PutBool(true), PutCapture(c));
      assert hash.chunks == before + [PutOption(value, PutCapture)];
    }
  }

  method AddTermination(hash: IdentityBuilder, value: Option<Termination>)
    requires hash.Valid() && hash.Live()
    modifies hash
    ensures hash.Added(PutOption(value, PutTermination))
  {
    hide PutByte, PutBool, PutU32, PutLimit, FlatFrom;
    ghost var start := hash.chunks;
    hash.AddBool(value.Some?);
    if value.Some? {
      ghost var before := hash.chunks;
      assert before == start + [PutBool(true)];
      var t := value.value;
      hash.AddByte(t.KindByte());
      AddOptionalU32(hash, t.Value());
      AddOptionalLimit(hash, t.Limit());
      ghost var own := [PutByte(t.KindByte()), PutOption(t.Value(), PutU32), PutOption(t.Limit(), PutLimit)];
      JoinOwn(hash, before, own);
      assert hash.chunks == start + [PutBool(true), PutTermination(t)];
      hash.JoinTwo(PutBool(true), PutTermination(t));
      assert hash.chunks == start + [PutOption(value, PutTermination)];
    }
  }

  // ---------------------------------------------------------------- the identify functions

  lemma Rendered(p: Preimage)
    ensures Flat([PutString(Domain(p))] + Chunks(p)) == Render(p)
  {
    FlatConcat([PutString(Domain(p))], Chunks(p), 0);
    FlatOne(PutString(Domain(p)));
  }

  method IdentifyLayout(sha: Sha, p: Preimage) returns (r: Result<Bytes>)
    requires p.LayoutImage?
    ensures r == Ok(Identity(sha, p))
  {
    hide PutByte, PutBool, PutU16, PutU32, PutU64, PutString, PutOption, PutList, FlatFrom;
    var hash := new IdentityBuilder(Domain(p));
    AddBindings(hash, p.bindings);
    hash.AddByte(RoleByte(p.working.role));
    hash.AddString(p.working.name);
    assert hash.chunks == [PutString(Domain(p))] + Chunks(p);
    Rendered(p);
    r := hash.Finish(sha);
  }

  method AddEnvironmentPolicies(hash: IdentityBuilder, p: Preimage)
    requires p.EnvironmentImage? && hash.Valid() && hash.Live()
    modifies hash
    ensures hash.Valid() && hash.Live() && hash.chunks == old(hash.chunks) + EnvironmentPolicies(p)
  {
    hide PutByte, FlatFrom;
    hash.AddByte(0);
    hash.AddByte(0);
    hash.AddByte(0);
    hash.AddByte(NetworkByte(p.network));
    hash.AddByte(StdinByte(p.stdin));
    hash.AddByte(StreamByte(p.stdout));
    hash.AddByte(StreamByte(p.stderr));
  }

  method AddEnvironmentValues(hash: IdentityBuilder, p: Preimage)
    requires p.EnvironmentImage? && hash.Valid() && hash.Live()
    modifies hash
    ensures hash.Valid() && hash.Live() && hash.chunks == old(hash.chunks) + EnvironmentValues(p)
  {
    hide PutU32, PutString, PutOption, PutList, FlatFrom;
    AddStrings(hash, p.searchPath);
    hash.AddString(p.home);
    hash.AddString(p.temporary);
    hash.AddU32(p.parallelism);
    hash.AddU32(p.mask);
    hash.AddOptionalI64(p.epoch);
    AddVariables(hash, p.variables);
  }

  method IdentifyEnvironment(sha: Sha, p: Preimage) returns (r: Result<Bytes>)
    requires p.EnvironmentImage?
    ensures r == Ok(Identity(sha, p))
  {
    hide FlatFrom, EnvironmentPolicies, EnvironmentValues;
    var hash := new IdentityBuilder(Domain(p));
    AddEnvironmentPolicies(hash, p);
    AddEnvironmentValues(hash, p);
    assert hash.chunks == [PutString(Domain(p))] + Chunks(p);
    Rendered(p);
    r := hash.Finish(sha);
  }

  method IdentifyCredentials(sha: Sha, p: Preimage) returns (r: Result<Bytes>)
    requires p.CredentialImage?
    ensures r == Ok(Identity(sha, p))
  {
    hide PutByte, PutBool, PutU16, PutU32, PutU64, PutString, PutOption, PutList, FlatFrom;
    var hash := new IdentityBuilder(Domain(p));
    hash.AddU64(p.user);
    hash.AddU64(p.group);
    AddNumbers(hash, p.groups);
    hash.AddBool(p.noNewPrivileges);
    assert hash.chunks == [PutString(Domain(p))] + Chunks(p);
    Rendered(p);
    r := hash.Finish(sha);
  }

  method IdentifyLimits(sha: Sha, p: Preimage) returns (r: Result<Bytes>)
    requires p.LimitsImage?
    ensures r == Ok(Identity(sha, p))
  {
    hide PutByte, PutBool, PutU16, PutU32, PutU64, PutString, PutOption, PutList, FlatFrom;
    var hash := new IdentityBuilder(Domain(p));
    hash.AddOptionalU64(p.cpuTime);
    hash.AddOptionalU64(p.addressSpace);
    hash.AddOptionalU64(p.fileSize);
    hash.AddOptionalU64(p.openFiles);
    hash.AddOptionalU64(p.processCount);
    assert hash.chunks == [PutString(Domain(p))] + Chunks(p);
    Rendered(p);
    r := hash.Finish(sha);
  }

  method AddRequestSubject(hash: IdentityBuilder, p: Preimage)
    requires p.RequestImage? && hash.Valid() && hash.Live()
    modifies hash
    ensures hash.Valid() && hash.Live() && hash.chunks == old(hash.chunks) + RequestSubject(p)
  {
    hide PutU16, PutString, PutByte, PutOption, FlatFrom;
    hash.AddU16(REQUEST_SCHEMA_VERSION);
    hash.AddString(p.program.language);
    hash.AddString(p.program.content);
    hash.AddByte(PurposeByte(p.purpose.Kind()));
    AddOptionalString(hash, p.purpose.Action());
    hash.AddString(p.interpreter);
    hash.AddString(p.rootView);
  }

  method AddRequestParts(hash: IdentityBuilder, p: Preimage)
    requires p.RequestImage? && hash.Valid() && hash.Live()
    modifies hash
    ensures hash.Valid() && hash.Live() && hash.chunks == old(hash.chunks) + RequestParts(p)
  {
    hide PutString, PutBool, PutByte, PutOption, PutList, FlatFrom;
    hash.AddString(p.layout);
    hash.AddString(p.environment);
    hash.AddString(p.credentials);
    hash.AddString(p.limits);
    hash.AddByte(if p.cancellation.Disabled? then 0 else 1);
    assert hash.chunks == old(hash.chunks) + [PutHex(p.layout), PutHex(p.environment), PutHex(p.credentials),
                                              PutHex(p.limits), PutBool(p.cancellation.GracefulThenForced?)] by {
      ModeByte(p.cancellation);
    }
    hash.AddOptionalU64(p.cancellation.Grace());
    AddGuarantees(hash, p.required);
  }

  lemma ModeByte(c: CancellationPolicy)
    ensures PutByte(if c.Disabled? then 0 else 1) == PutBool(c.GracefulThenForced?)
  {
  }

  method IdentifyRequest(sha: Sha, p: Preimage) returns (r: Result<Bytes>)
    requires p.RequestImage?
    ensures r == Ok(Identity(sha, p))
  {
    hide FlatFrom, RequestSubject, RequestParts;
    var hash := new IdentityBuilder(Domain(p));
    AddRequestSubject(hash, p);
    AddRequestParts(hash, p);
    assert hash.chunks == [PutString(Domain(p))] + Chunks(p);
    Rendered(p);
    r := hash.Finish(sha);
  }

  method IdentifyProfile(sha: Sha, p: Preimage) returns (r: Result<Bytes>)
    requires p.ProfileImage?
    ensures r == Ok(Identity(sha, p))
  {
    hide PutByte, PutBool, PutU16, PutU32, PutU64, PutString, PutOption, PutList, FlatFrom;
    var hash := new IdentityBuilder(Domain(p));
    hash.AddString(p.backend);
    AddGuarantees(hash, p.guarantees);
    assert hash.chunks == [PutString(Domain(p))] + Chunks(p);
    Rendered(p);
    r := hash.Finish(sha);
  }

  method AddEvidenceProcess(hash: IdentityBuilder, p: Preimage)
    requires p.EvidenceImage? && hash.Valid() && hash.Live()
    modifies hash
    ensures hash.Valid() && hash.Live() && hash.chunks == old(hash.chunks) + EvidenceProcess(p)
  {
    hide PutString, PutByte, PutOption, FlatFrom;
    hash.AddByte(StatusByte(p.status));
    hash.AddByte(StartByte(p.start));
    hash.AddString(p.request);
    hash.AddString(p.profile);
    AddOptionalHex(hash, p.observed);
    AddTermination(hash, p.termination);
  }

  method AddEvidenceOutcome(hash: IdentityBuilder, p: Preimage)
    requires p.EvidenceImage? && hash.Valid() && hash.Live()
    modifies hash
    ensures hash.Valid() && hash.Live() && hash.chunks == old(hash.chunks) + EvidenceOutcome(p)
  {
    hide PutByte, PutOption, PutList, FlatFrom;
    AddCapture(hash, p.standardOutput);
    AddCapture(hash, p.standardError);
    AddGuarantees(hash, p.established);
    hash.AddByte(CleanupByte(p.cleanup));
    AddOptionalFailure(hash, p.failure);
  }

  method IdentifyResult(sha: Sha, p: Preimage) returns (r: Result<Bytes>)
    requires p.EvidenceImage?
    ensures r == Ok(Identity(sha, p))
  {
    hide FlatFrom, EvidenceProcess, EvidenceOutcome;
    var hash := new IdentityBuilder(Domain(p));
    AddEvidenceProcess(hash, p);
    AddEvidenceOutcome(hash, p);
    assert hash.chunks == [PutString(Domain(p))] + Chunks(p);
    Rendered(p);
    r := hash.Finish(sha);
  }
}
