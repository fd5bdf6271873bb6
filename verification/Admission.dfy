/** Admission of concrete resources (src/backend.cpp): exactly the identities a request binds, each once. */
module Admission {
  import opened Wrappers
  import opened Bytes
  import opened Ordering
  import opened Model
  import opened Requests
  import opened Tables

  /** What is used of `std::filesystem::path`: whether a path is absolute, and its lexically normal form. */
  datatype Host = Host(absolute: Text -> bool, normal: Text -> Text)

  datatype Materialization = Materialization(resource: Hex, path: Text)
  datatype Resources = Resources(rootView: Hex, rootPath: Text, materials: seq<Materialization>)

  function ResourceOf(m: Materialization): Hex {
    m.resource
  }

  predicate HexLess(a: Hex, b: Hex) {
    LexLess(a, b)
  }

  /** The comparison passed to `std::sort` looks at the identity only. */
  predicate MaterialLess(a: Materialization, b: Materialization) {
    LexLess(a.resource, b.resource)
  }

  lemma MaterialsGoByResource()
    ensures ByKeyFirst(MaterialLess, ResourceOf, HexLess) && Total(HexLess)
  {
    LexTotal();
  }

  function BoundResources(bindings: seq<ResourceBinding>): (r: seq<Hex>)
    ensures forall h: Hex :: h in r <==> Bound(bindings, h)
  {
    if bindings == [] then [] else
      var last := |bindings| - 1;
      assert bindings == bindings[..last] + [bindings[last]];
      BoundResources(bindings[..last]) + [bindings[last].resource]
  }

  /** execution_resources::admit. */
  function Admit(host: Host, q: Request, rootView: Hex, rootPath: Text, materials: seq<Materialization>)
    : Result<Resources>
  {
    var sorted := Sort(materials, MaterialLess);
    :- Need(rootView == q.body.rootView, ResourceMismatch);
    :- Need(rootPath != [] && host.absolute(rootPath), InvalidPath);
    :- Need(!NeighboursRepeat(sorted, ResourceOf), DuplicateResource);
    var required := Canonical<Hex>(BoundResources(q.body.resources.bindings), HexLess);
    :- Need(|required| == |sorted|, ResourceMismatch);
    :- Need(forall i | 0 <= i < |required| :: required[i] == sorted[i].resource, ResourceMismatch);
    Ok(Resources(rootView, host.normal(rootPath), sorted))
  }

  /** As it runs, with its loops. */
  method AdmitResources(host: Host, q: Request, rootView: Hex, rootPath: Text, materials: seq<Materialization>)
    returns (r: Result<Resources>)
    ensures r == Admit(host, q, rootView, rootPath, materials)
  {
    hide Sort, Canonical, MaterialLess, HexLess;
    if rootView != q.body.rootView {
      return Err(ResourceMismatch);
    }
    if rootPath == [] || !host.absolute(rootPath) {
      return Err(InvalidPath);
    }
    var sorted := Sort(materials, MaterialLess);
    var i := 1;
    while i < |sorted|
      invariant 1 <= i
      invariant forall j | 0 < j < i && j < |sorted| :: ResourceOf(sorted[j - 1]) != ResourceOf(sorted[j])
    {
      if sorted[i - 1].resource == sorted[i].resource {
        assert ResourceOf(sorted[i - 1]) == ResourceOf(sorted[i]);
        return Err(DuplicateResource);
      }
      i := i + 1;
    }
    var bindings := q.body.resources.bindings;
    var required: seq<Hex> := [];
    for i := 0 to |bindings|
      invariant required == BoundResources(bindings[..i])
    {
      assert bindings[..i + 1][..i] == bindings[..i];
      required := required + [bindings[i].resource];
    }
    assert bindings[..|bindings|] == bindings;
    required := Canonical<Hex>(required, HexLess);
    if |required| != |sorted| {
      return Err(ResourceMismatch);
    }
    for i := 0 to |required|
      invariant forall j | 0 <= j < i :: required[j] == sorted[j].resource
    {
      if required[i] != sorted[i].resource {
        return Err(ResourceMismatch);
      }
    }
    return Ok(Resources(rootView, host.normal(rootPath), sorted));
  }

  ghost predicate Supplied(materials: seq<Materialization>, h: Hex) {
    exists m | m in materials :: m.resource == h
  }

  predicate Bound(bindings: seq<ResourceBinding>, h: Hex) {
    exists b | b in bindings :: b.resource == h
  }

  /** The identities supplied are those the request binds. */
  ghost predicate SameIdentities(materials: seq<Materialization>, bindings: seq<ResourceBinding>) {
    forall h: Hex :: Supplied(materials, h) <==> Bound(bindings, h)
  }

  /**
   Admission succeeds exactly when the root view is the request's, its path is absolute, no identity
   is supplied twice and the supplied ones are, as a set, those bound in the request; the first of
   these that fails decides the error. What is admitted is what was given, sorted by identity.
   */
  lemma AdmissionIsExact(host: Host, q: Request, rootView: Hex, rootPath: Text, materials: seq<Materialization>)
    ensures var r := Admit(host, q, rootView, rootPath, materials);
      && (r.Ok? <==> rootView == q.body.rootView && rootPath != [] && host.absolute(rootPath)
                     && !Repeats(materials, ResourceOf) && SameIdentities(materials, q.body.resources.bindings))
      && (r.Err? ==> r.code == if rootView != q.body.rootView then ResourceMismatch
                               else if rootPath == [] || !host.absolute(rootPath) then InvalidPath
                               else if Repeats(materials, ResourceOf) then DuplicateResource
                               else ResourceMismatch)
      && (r.Ok? ==> r.value.rootView == rootView && r.value.rootPath == host.normal(rootPath)
                    && multiset(r.value.materials) == multiset(materials)
                    && Keyed(r.value.materials, ResourceOf, HexLess))
  {
    hide Sort, Canonical, MaterialLess, HexLess, Repeats, NeighboursRepeat, Total, ByKeyFirst, BoundResources, Keyed;
    var sorted := Sort(materials, MaterialLess);
    var bindings := q.body.resources.bindings;
    var bound: seq<Hex> := BoundResources(bindings);
    MaterialsGoByResource();
    SortFindsRepeats(materials, MaterialLess, ResourceOf, HexLess);
    SameElements(sorted, materials);
    if !Repeats(materials, ResourceOf) {
      CanonicalIncreasing<Hex>(bound, HexLess);
      KeysMatch(sorted, Canonical<Hex>(bound, HexLess));
      SuppliedSorted(sorted, materials);
    }
  }

  /** The admitted order: by identity, digit by digit. */
  lemma AdmittedOrder(host: Host, q: Request, rootView: Hex, rootPath: Text, materials: seq<Materialization>)
    requires Admit(host, q, rootView, rootPath, materials).Ok?
    ensures var m := Admit(host, q, rootView, rootPath, materials).value.materials;
      forall i, j | 0 <= i < j < |m| :: LexLess(m[i].resource, m[j].resource)
  {
    hide Admit, LexLess;
    AdmissionIsExact(host, q, rootView, rootPath, materials);
    var m := Admit(host, q, rootView, rootPath, materials).value.materials;
    forall i, j | 0 <= i < j < |m|
      ensures LexLess(m[i].resource, m[j].resource)
    {
      assert HexLess(ResourceOf(m[i]), ResourceOf(m[j]));
    }
  }

  lemma SuppliedSorted(sorted: seq<Materialization>, materials: seq<Materialization>)
    requires forall m :: m in sorted <==> m in materials
    ensures forall h: Hex :: Supplied(sorted, h) <==> Supplied(materials, h)
  {
  }

  /** Comparing two increasing lists index by index decides whether they hold the same identities. */
  lemma KeysMatch(sorted: seq<Materialization>, required: seq<Hex>)
    requires Keyed(sorted, ResourceOf, HexLess) && Increasing<Hex>(required, HexLess)
    ensures |required| == |sorted| && (forall i | 0 <= i < |required| :: required[i] == sorted[i].resource)
       <==> forall h: Hex :: Supplied(sorted, h) <==> h in required
  {
    hide HexLess;
    MaterialsGoByResource();
    var keys: seq<Hex> := seq(|sorted|, i requires 0 <= i < |sorted| => ResourceOf(sorted[i]));
    assert Increasing<Hex>(keys, HexLess);
    KeysAreSupplied(sorted, keys);
    if forall h: Hex :: Supplied(sorted, h) <==> h in required {
      IncreasingIsUnique<Hex>(keys, required, HexLess);
    }
    if |required| == |sorted| && forall i | 0 <= i < |required| :: required[i] == sorted[i].resource {
      assert keys == required;
    }
  }

  lemma KeysAreSupplied(sorted: seq<Materialization>, keys: seq<Hex>)
    requires |keys| == |sorted| && forall i | 0 <= i < |sorted| :: keys[i] == ResourceOf(sorted[i])
    ensures forall h: Hex :: Supplied(sorted, h) <==> h in keys
  {
    forall h: Hex
      ensures Supplied(sorted, h) <==> h in keys
    {
      if h in keys {
        var i :| 0 <= i < |keys| && keys[i] == h;
        assert sorted[i] in sorted && sorted[i].resource == h;
      }
      if m :| m in sorted && m.resource == h {
        var i :| 0 <= i < |sorted| && sorted[i] == m;
        assert keys[i] == h;
      }
    }
  }

  /** execution_resources::materialization: binary search, for any identity. */
  method FindMaterialization(r: Resources, resource: Hex) returns (found: Result<Materialization>)
    requires Keyed(r.materials, ResourceOf, HexLess)
    ensures found == match Linear(r.materials, ResourceOf, resource)
                     case Some(m) => Ok(m) case None => Err(ResourceMismatch)
  {
    MaterialsGoByResource();
    var m := Lookup(r.materials, ResourceOf, HexLess, resource);
    return match m case Some(m) => Ok(m) case None => Err(ResourceMismatch);
  }

  /**
   After admission every binding of the request finds the caller's own materialization, the same one
   for slots that share an identity, and every other identity finds nothing.
   */
  lemma EveryBindingIsMaterialized(
    host: Host, q: Request, rootView: Hex, rootPath: Text, materials: seq<Materialization>, resource: Hex)
    requires Admit(host, q, rootView, rootPath, materials).Ok?
    ensures var r := Admit(host, q, rootView, rootPath, materials).value;
      && Keyed(r.materials, ResourceOf, HexLess)
      && Linear(r.materials, ResourceOf, resource) == Linear(materials, ResourceOf, resource)
      && (Linear(materials, ResourceOf, resource).Some? <==>
            Bound(q.body.resources.bindings, resource))
      && (forall m | m in materials && m.resource == resource :: Linear(materials, ResourceOf, resource) == Some(m))
  {
    hide Admit, Sort, Repeats, Linear, Keyed, MaterialLess, HexLess, Bound;
    AdmittedTable(host, q, rootView, rootPath, materials);
    AdmissionIsExact(host, q, rootView, rootPath, materials);
    assert Supplied(materials, resource) <==> Bound(q.body.resources.bindings, resource);
    LookupSurvivesSorting(materials, MaterialLess, ResourceOf, resource);
    LinearMeans(materials, ResourceOf, resource);
    forall m | m in materials && ResourceOf(m) == resource
      ensures Linear(materials, ResourceOf, resource) == Some(m)
    {
      SameKeySameEntry(materials, ResourceOf, Linear(materials, ResourceOf, resource).value, m);
    }
  }

  lemma AdmittedTable(host: Host, q: Request, rootView: Hex, rootPath: Text, materials: seq<Materialization>)
    requires Admit(host, q, rootView, rootPath, materials).Ok?
    ensures rootView == q.body.rootView && rootPath != [] && host.absolute(rootPath)
    ensures Admit(host, q, rootView, rootPath, materials).value.materials == Sort(materials, MaterialLess)
  {
    hide Sort, Canonical, NeighboursRepeat;
  }
}
