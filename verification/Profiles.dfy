/** Backend capability profiles (src/result.cpp): sealing, and which requests they support. */
module Profiles {
  import opened Wrappers
  import opened Bytes
  import opened Model
  import opened Preimages
  import opened Builders
  import opened Requests

  datatype Profile = Profile(backend: Hex, guarantees: Vec<Guarantee>, identity: Hex)

  predicate KindSpecific(g: Guarantee) {
    g.CpuTimeLimit? || g.AddressSpaceLimit? || g.FileSizeLimit? || g.OpenFilesLimit? || g.ProcessCountLimit?
  }

  /** require_limit_guarantee_shape: the aggregate limit guarantee goes with an exact one. */
  predicate LimitShape(gs: seq<Guarantee>) {
    ResourceLimits in gs <==> exists g | g in gs :: KindSpecific(g)
  }

  function SealProfile(sha: Sha, backend: Hex, guarantees: seq<Guarantee>): Result<Profile> {
    var normal := Normalize(guarantees);
    if !LimitShape(normal) then Err(InvalidCapabilityProfile)
    else Ok(Profile(backend, normal, Identity(sha, ProfileImage(backend, normal))))
  }

  /** As it runs: normalise, check the limit shape, hash field by field. */
  method SealCapabilityProfile(sha: Sha, backend: Hex, guarantees: seq<Guarantee>) returns (r: Result<Profile>)
    ensures r == SealProfile(sha, backend, guarantees)
  {
    hide LimitShape, Identity;
    var normal := Normalize(guarantees);
    if !LimitShape(normal) {
      return Err(InvalidCapabilityProfile);
    }
    var identity := IdentifyProfile(sha, ProfileImage(backend, normal));
    return Ok(Profile(backend, normal, identity.value));
  }

  /** A sealed profile, said directly: strictly increasing guarantees of the limit shape, and their identity. */
  ghost predicate SealedProfile(sha: Sha, p: Profile) {
    && Canon(p.guarantees) && LimitShape(p.guarantees)
    && p.identity == Identity(sha, ProfileImage(p.backend, p.guarantees))
  }

  /** These are exactly the values `seal` returns, its constructor being private, and each seals to itself. */
  lemma ProfileIsSealed(sha: Sha, p: Profile)
    ensures SealProfile(sha, p.backend, p.guarantees) == Ok(p) <==> SealedProfile(sha, p)
    ensures SealedProfile(sha, p) <==> exists gs: seq<Guarantee> :: SealProfile(sha, p.backend, gs) == Ok(p)
  {
    hide Identity, LimitShape;
    NormalizeFixes(p.guarantees);
  }

  /** Sealing depends only on the set of guarantees given, and sealing what it returned changes nothing. */
  lemma ProfileIsCanonical(sha: Sha, backend: Hex, a: seq<Guarantee>, b: seq<Guarantee>)
    requires forall g :: g in a <==> g in b
    ensures SealProfile(sha, backend, a) == SealProfile(sha, backend, b)
    ensures SealProfile(sha, backend, a).Ok? <==> LimitShape(a)
    ensures SealProfile(sha, backend, a).Ok? ==> SealedProfile(sha, SealProfile(sha, backend, a).value)
  {
    CanonUnique(Normalize(a), Normalize(b));
    NormalizeFixes(Normalize(a));
  }

  predicate Supports(p: Profile, r: Request) {
    Includes(p.guarantees, r.required)
  }

  /** A profile supports a sealed request exactly when it gives every guarantee consistent with its policies. */
  lemma SupportsExactly(sha: Sha, p: Profile, r: Request)
    requires SealedRequest(sha, r)
    ensures Supports(p, r) <==> forall g :: g in r.required ==> g in p.guarantees
    ensures Supports(p, r) <==> forall g :: Consistent(g, r.body) ==> g in p.guarantees
  {
    hide Consistent, SealedRequest;
    RequiredMeans(sha, r);
  }

  /** What sealing a profile returns, in full: guarantees by enumerator value, and the hash of these bytes. */
  lemma SealedInFull(sha: Sha, backend: Hex, guarantees: seq<Guarantee>)
    requires SealProfile(sha, backend, guarantees).Ok?
    ensures var p := SealProfile(sha, backend, guarantees).value;
      && p.backend == backend && (forall g :: g in p.guarantees <==> g in guarantees)
      && (forall i, j | 0 <= i < j < |p.guarantees| :: GuaranteeByte(p.guarantees[i]) < GuaranteeByte(p.guarantees[j]))
      && p.identity == Sha256Hex(sha, PutString(Ascii("pkgexec/backend-capability-profile/v1"))
           + (PutString(backend) + PutList(p.guarantees, PutGuarantee)))
  {
    hide PutString, PutList, Ascii, Render, LimitShape, Sha256Hex;
    var p := SealProfile(sha, backend, guarantees).value;
    CanonAscends(p.guarantees);
    ProfileBytes(ProfileImage(backend, p.guarantees));
  }
}
