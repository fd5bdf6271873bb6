/** Resource layouts (src/model.cpp): sealing sorts and checks the bindings, lookup searches by slot. */
module Layouts {
  import opened Wrappers
  import opened Bytes
  import opened Ordering
  import opened Model
  import opened Preimages
  import opened Builders
  import opened Tables

  // ---------------------------------------------------------------- the orders

  function SlotKey(s: ResourceSlot): (int, Bytes) {
    (RoleByte(s.role), s.name)
  }

  /** `operator<` on slots: by role, then by name. */
  predicate SlotLess(a: ResourceSlot, b: ResourceSlot) {
    Then(IntLess, LexLess)(SlotKey(a), SlotKey(b))
  }

  function BindingSlot(b: ResourceBinding): ResourceSlot {
    b.slot
  }

  function BindingMount(b: ResourceBinding): Text {
    b.mountPoint
  }

  function BindingKey(b: ResourceBinding): ((int, Bytes), (Bytes, (int, Bytes))) {
    (SlotKey(b.slot), (b.resource, (AccessByte(b.access), b.mountPoint)))
  }

  /** `operator<` on bindings: by slot, resource, access and mount point. */
  predicate BindingLess(a: ResourceBinding, b: ResourceBinding) {
    Then(Then(IntLess, LexLess), Then(LexLess, Then(IntLess, LexLess)))(BindingKey(a), BindingKey(b))
  }

  lemma SlotTotal()
    ensures Total(SlotLess)
  {
    LexTotal();
    ThenTotal(IntLess, LexLess);
    KeyTotal(SlotKey, Then(IntLess, LexLess), SlotLess);
  }

  lemma BindingTotal()
    ensures Total(BindingLess)
  {
    hide Total, LexLess, Then;
    LexTotal();
    assert Total(IntLess) by {
      IntTotal();
    }
    ThenTotal(IntLess, LexLess);
    ThenTotal(LexLess, Then(IntLess, LexLess));
    ThenTotal(Then(IntLess, LexLess), Then(LexLess, Then(IntLess, LexLess)));
    BindingKeyIsInjective();
    KeyTotal(BindingKey, Then(Then(IntLess, LexLess), Then(LexLess, Then(IntLess, LexLess))), BindingLess);
  }

  lemma IntTotal()
    ensures Total(IntLess)
  {
  }

  lemma BindingKeyIsInjective()
    ensures forall a, b :: BindingKey(a) == BindingKey(b) ==> a == b
  {
  }

  lemma BindingsGoBySlot()
    ensures ByKeyFirst(BindingLess, BindingSlot, SlotLess)
  {
    hide Total, LexLess;
    SlotTotal();
    BindingTotal();
    assert Weak(BindingLess) by {
      TotalIsWeak(BindingLess);
    }
  }

  lemma TotalIsWeak<T(!new)>(less: (T, T) -> bool)
    requires Total(less)
    ensures Weak(less)
  {
  }

  // ---------------------------------------------------------------- sealing

  /** std::sort on the bindings. */
  function Arrange(bindings: Vec<ResourceBinding>): (r: Vec<ResourceBinding>)
    ensures multiset(r) == multiset(bindings) && |r| == |bindings|
  {
    SameElements(Sort(bindings, BindingLess), bindings);
    Sort(bindings, BindingLess)
  }

  ghost predicate Occurs(bindings: seq<ResourceBinding>, slot: ResourceSlot) {
    exists b | b in bindings :: b.slot == slot
  }

  /** resource_layout::seal. */
  ghost function SealLayout(sha: Sha, bindings: Vec<ResourceBinding>, working: ResourceSlot): Result<ResourceLayout> {
    var sorted := Arrange(bindings);
    :- Need(bindings != [], MissingWorkingDirectory);
    :- Need(!NeighboursRepeat(sorted, BindingSlot), DuplicateResource);
    :- Need(!Repeats(sorted, BindingMount), DuplicateMountPoint);
    :- Need(Occurs(sorted, working), MissingWorkingDirectory);
    Ok(ResourceLayout(sorted, working, Identity(sha, LayoutImage(sorted, working))))
  }

  /** As it runs: sort, compare neighbours, then one pass that fills a set of mount points. */
  method SealResourceLayout(sha: Sha, bindings: Vec<ResourceBinding>, working: ResourceSlot)
    returns (r: Result<ResourceLayout>)
    ensures r == SealLayout(sha, bindings, working)
  {
    hide Arrange, Identity;
    if bindings == [] {
      return Err(MissingWorkingDirectory);
    }
    var sorted := Arrange(bindings);
    for i := 1 to |sorted|
      invariant forall j | 0 < j < i :: BindingSlot(sorted[j - 1]) != BindingSlot(sorted[j])
    {
      if sorted[i - 1].slot == sorted[i].slot {
        assert BindingSlot(sorted[i - 1]) == BindingSlot(sorted[i]);
        return Err(DuplicateResource);
      }
    }
    :- ScanMountPoints(sorted, working);
    var identity := IdentifyLayout(sha, LayoutImage(sorted, working));
    return Ok(ResourceLayout(sorted, working, identity.value));
  }

  /** The second loop: it fills a set of mount points and looks for the working slot. */
  method ScanMountPoints(sorted: seq<ResourceBinding>, working: ResourceSlot) returns (outcome: Outcome)
    ensures outcome == if Repeats(sorted, BindingMount) then Fail(DuplicateMountPoint)
                       else Need(Occurs(sorted, working), MissingWorkingDirectory)
  {
    var mountPoints: set<Text> := {};
    var found := false;
    for i := 0 to |sorted|
      invariant forall m :: m in mountPoints <==> exists j | 0 <= j < i :: BindingMount(sorted[j]) == m
      invariant forall j, k | 0 <= j < k < i :: BindingMount(sorted[j]) != BindingMount(sorted[k])
      invariant found <==> exists j | 0 <= j < i :: BindingSlot(sorted[j]) == working
    {
      if sorted[i].mountPoint in mountPoints {
        var j :| 0 <= j < i && BindingMount(sorted[j]) == BindingMount(sorted[i]);
        return Fail(DuplicateMountPoint);
      }
      mountPoints := mountPoints + {BindingMount(sorted[i])};
      found := found || BindingSlot(sorted[i]) == working;
    }
    if !found {
      assert forall b | b in sorted :: BindingSlot(b) != working;
      return Fail(MissingWorkingDirectory);
    }
    return Pass;
  }

  /** The values `resource_layout` can take: its constructor is private to `seal`. */
  ghost predicate SealedLayout(sha: Sha, l: ResourceLayout) {
    SealLayout(sha, l.bindings, l.working) == Ok(l)
  }

  /**
   Sealing succeeds exactly when there are bindings, slots and mount points are pairwise distinct
   and the working slot occurs; otherwise the first of these that fails decides the error.
   */
  lemma SealingIsExact(sha: Sha, bindings: Vec<ResourceBinding>, working: ResourceSlot)
    ensures var r := SealLayout(sha, bindings, working);
      && (r.Ok? <==> bindings != [] && !Repeats(bindings, BindingSlot) && !Repeats(bindings, BindingMount)
                     && Occurs(bindings, working))
      && (r.Err? ==> r.code == if bindings == [] then MissingWorkingDirectory
                               else if Repeats(bindings, BindingSlot) then DuplicateResource
                               else if Repeats(bindings, BindingMount) then DuplicateMountPoint
                               else MissingWorkingDirectory)
      && (r.Ok? ==> multiset(r.value.bindings) == multiset(bindings)
                    && Keyed(r.value.bindings, BindingSlot, SlotLess) && r.value.working == working
                    && r.value.identity == Identity(sha, LayoutImage(r.value.bindings, working)))
  {
    hide Identity, Repeats, NeighboursRepeat, ByKeyFirst, Sort;
    BindingsGoBySlot();
    SortFindsRepeats(bindings, BindingLess, BindingSlot, SlotLess);
    SortRepeats(bindings, BindingLess, BindingMount);
    SameElements(Arrange(bindings), bindings);
  }

  /** The sealed order: by role in the order of the declaration, then by name, byte by byte. */
  lemma SealedOrder(sha: Sha, bindings: Vec<ResourceBinding>, working: ResourceSlot)
    requires SealLayout(sha, bindings, working).Ok?
    ensures var s := SealLayout(sha, bindings, working).value.bindings;
      forall i, j | 0 <= i < j < |s| ::
        || RoleByte(s[i].slot.role) < RoleByte(s[j].slot.role)
        || (s[i].slot.role == s[j].slot.role && LexLess(s[i].slot.name, s[j].slot.name))
  {
    hide SealLayout, LexLess;
    SealingIsExact(sha, bindings, working);
    var s := SealLayout(sha, bindings, working).value.bindings;
    forall i, j | 0 <= i < j < |s|
      ensures || RoleByte(s[i].slot.role) < RoleByte(s[j].slot.role)
              || (s[i].slot.role == s[j].slot.role && LexLess(s[i].slot.name, s[j].slot.name))
    {
      assert SlotLess(BindingSlot(s[i]), BindingSlot(s[j]));
      SlotLessMeans(s[i].slot, s[j].slot);
    }
  }

  lemma SlotLessMeans(a: ResourceSlot, b: ResourceSlot)
    ensures SlotLess(a, b) <==> RoleByte(a.role) < RoleByte(b.role) || (a.role == b.role && LexLess(a.name, b.name))
  {
    hide LexLess;
    var x, y := SlotKey(a), SlotKey(b);
    assert SlotLess(a, b) <==> IntLess(x.0, y.0) || (!IntLess(y.0, x.0) && LexLess(x.1, y.1));
    OtherOrdinals();
    assert ROLES[RoleByte(a.role)] == a.role && ROLES[RoleByte(b.role)] == b.role;
  }

  /** The identity of a sealed layout is the hash of these bytes: its sorted bindings, then the working slot. */
  lemma LayoutIdentityBytes(sha: Sha, bindings: Vec<ResourceBinding>, working: ResourceSlot)
    requires SealLayout(sha, bindings, working).Ok?
    ensures var l := SealLayout(sha, bindings, working).value;
      l.identity == Sha256Hex(sha, PutString(Ascii("pkgexec/resource-layout/v1"))
        + (PutList(l.bindings, PutBinding) + ([RoleByte(working.role)] + PutString(working.name))))
  {
    hide SealLayout, PutString, PutList, Ascii, Render;
    SealingIsExact(sha, bindings, working);
    LayoutBytes(LayoutImage(SealLayout(sha, bindings, working).value.bindings, working));
  }

  /** Any order of the bindings gives the same sealed layout, preimage and identity, or the same error. */
  lemma OrderDoesNotMatter(sha: Sha, a: Vec<ResourceBinding>, b: Vec<ResourceBinding>, working: ResourceSlot)
    requires multiset(a) == multiset(b)
    ensures SealLayout(sha, a, working) == SealLayout(sha, b, working)
  {
    hide Total, Identity, Repeats, NeighboursRepeat;
    BindingTotal();
    SortIsCanonical(a, b, BindingLess);
    SameElements(a, b);
  }

  /** What sealing returns is sealed, and sealing its own bindings again changes nothing. */
  lemma SealingIsIdempotent(sha: Sha, bindings: Vec<ResourceBinding>, working: ResourceSlot)
    requires SealLayout(sha, bindings, working).Ok?
    ensures SealedLayout(sha, SealLayout(sha, bindings, working).value)
  {
    hide SealLayout;
    SealingIsExact(sha, bindings, working);
    OrderDoesNotMatter(sha, bindings, SealLayout(sha, bindings, working).value.bindings, working);
  }

  /** resource_layout::binding: the binary search finds what a linear search would, for every slot. */
  method Binding(sha: Sha, l: ResourceLayout, slot: ResourceSlot) returns (r: Result<ResourceBinding>)
    requires SealedLayout(sha, l)
    ensures r == match Linear(l.bindings, BindingSlot, slot) case Some(b) => Ok(b) case None => Err(InvalidValue)
  {
    hide SealLayout, Total, Keyed;
    SealingIsExact(sha, l.bindings, l.working);
    SlotTotal();
    var found := Lookup(l.bindings, BindingSlot, SlotLess, slot);
    return match found case Some(b) => Ok(b) case None => Err(InvalidValue);
  }

  /** Every binding given to `seal` is found again under its slot, and nothing under any other slot. */
  lemma EveryBindingIsFound(sha: Sha, bindings: Vec<ResourceBinding>, working: ResourceSlot, slot: ResourceSlot)
    requires SealLayout(sha, bindings, working).Ok?
    ensures Linear(SealLayout(sha, bindings, working).value.bindings, BindingSlot, slot)
         == Linear(bindings, BindingSlot, slot)
    ensures forall b | b in bindings :: b.slot == slot ==> Linear(bindings, BindingSlot, slot) == Some(b)
  {
    hide Repeats, Linear, Identity, NeighboursRepeat, Occurs, Keyed, Sort, Total;
    SealingIsExact(sha, bindings, working);
    LookupSurvivesSorting(bindings, BindingLess, BindingSlot, slot);
    LinearMeans(bindings, BindingSlot, slot);
    forall b | b in bindings && BindingSlot(b) == slot
      ensures Linear(bindings, BindingSlot, slot) == Some(b)
    {
      SameKeySameEntry(bindings, BindingSlot, Linear(bindings, BindingSlot, slot).value, b);
    }
  }
}
