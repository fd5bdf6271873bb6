/** The two other sealed policies that sort a table (src/model.cpp): environments and credentials. */
module Policies {
  import opened Wrappers
  import opened Bytes
  import opened Ordering
  import opened Model
  import opened Preimages
  import opened Builders
  import opened Requests
  import opened Tables
  import opened Layouts

  // ---------------------------------------------------------------- environments

  function VariableName(v: EnvironmentVariable): Text {
    v.name
  }

  function VariableKey(v: EnvironmentVariable): (Bytes, Bytes) {
    (v.name, v.value)
  }

  /** `operator<` on variables: by name, then by value. */
  predicate VariableLess(a: EnvironmentVariable, b: EnvironmentVariable) {
    Then(LexLess, LexLess)(VariableKey(a), VariableKey(b))
  }

  function Itself(t: Text): Text {
    t
  }

  lemma VariablesGoByName()
    ensures Total(VariableLess) && ByKeyFirst(VariableLess, VariableName, NameLess)
  {
    hide LexLess;
    LexTotal();
    ThenTotal(LexLess, LexLess);
    KeyTotal(VariableKey, Then(LexLess, LexLess), VariableLess);
  }

  predicate NameLess(a: Text, b: Text) {
    LexLess(a, b)
  }

  function ArrangeVariables(variables: Vec<EnvironmentVariable>): (r: Vec<EnvironmentVariable>)
    ensures multiset(r) == multiset(variables) && |r| == |variables|
  {
    SameElements(Sort(variables, VariableLess), variables);
    Sort(variables, VariableLess)
  }

  /** The scalar checks of `hermetic`. */
  predicate PlainValues(e: Environment) {
    e.searchPath != [] && e.parallelism != 0 && e.mask <= 0x1ff && (e.epoch.Some? ==> e.epoch.value >= 0)
  }

  /** environment_policy::hermetic, for the fields of `e`; the identity in `e` is not looked at. */
  ghost function Hermetic(sha: Sha, e: Environment): Result<Environment> {
    var sorted := ArrangeVariables(e.variables);
    :- Need(PlainValues(e), InvalidPolicy);
    :- Need(!Repeats(e.searchPath, Itself), InvalidPolicy);
    :- Need(!NeighboursRepeat(sorted, VariableName), DuplicateEnvironmentVariable);
    var sealed := e.(variables := sorted);
    Ok(sealed.(identity := Identity(sha, EnvironmentPreimage(sealed))))
  }

  method SealHermetic(sha: Sha, e: Environment) returns (r: Result<Environment>)
    ensures r == Hermetic(sha, e)
  {
    hide ArrangeVariables, Identity;
    if e.searchPath == [] || e.parallelism == 0 || e.mask > 0x1ff || (e.epoch.Some? && e.epoch.value < 0) {
      return Err(InvalidPolicy);
    }
    var paths: set<Text> := {};
    for i := 0 to |e.searchPath|
      invariant forall p :: p in paths <==> exists j | 0 <= j < i :: Itself(e.searchPath[j]) == p
      invariant forall j, k | 0 <= j < k < i :: Itself(e.searchPath[j]) != Itself(e.searchPath[k])
    {
      if e.searchPath[i] in paths {
        var j :| 0 <= j < i && Itself(e.searchPath[j]) == Itself(e.searchPath[i]);
        return Err(InvalidPolicy);
      }
      paths := paths + {Itself(e.searchPath[i])};
    }
    var sorted := ArrangeVariables(e.variables);
    var i := 1;
    while i < |sorted|
      invariant 1 <= i
      invariant forall j | 0 < j < i && j < |sorted| :: VariableName(sorted[j - 1]) != VariableName(sorted[j])
    {
      if sorted[i - 1].name == sorted[i].name {
        assert VariableName(sorted[i - 1]) == VariableName(sorted[i]);
        return Err(DuplicateEnvironmentVariable);
      }
      i := i + 1;
    }
    var sealed := e.(variables := sorted);
    var identity := IdentifyEnvironment(sha, EnvironmentPreimage(sealed));
    return Ok(sealed.(identity := identity.value));
  }

  /** A search path, some parallelism, permission bits only, and no time before the epoch. */
  predicate InRange(e: Environment) {
    |e.searchPath| > 0 && 1 <= e.parallelism && 0 <= e.mask < 512 && (e.epoch.None? || 0 <= e.epoch.value)
  }

  /**
   An environment is sealed exactly when its scalars are in range, no search path entry repeats and
   no variable name does. The variables come out sorted by name; the search path keeps its order.
   */
  lemma HermeticIsExact(sha: Sha, e: Environment)
    ensures var r := Hermetic(sha, e);
      && (r.Ok? <==> InRange(e) && !Repeats(e.searchPath, Itself) && !Repeats(e.variables, VariableName))
      && (r.Err? ==> r.code == if InRange(e) && !Repeats(e.searchPath, Itself) then DuplicateEnvironmentVariable
                               else InvalidPolicy)
      && (r.Ok? ==> Keyed(r.value.variables, VariableName, NameLess)
                    && multiset(r.value.variables) == multiset(e.variables) && r.value.searchPath == e.searchPath)
      && (r.Ok? ==> r.value.home == e.home && r.value.temporary == e.temporary && r.value.parallelism == e.parallelism
                    && r.value.mask == e.mask && r.value.epoch == e.epoch && r.value.network == e.network
                    && r.value.stdin == e.stdin && r.value.stdout == e.stdout && r.value.stderr == e.stderr
                    && r.value.identity == Identity(sha, EnvironmentPreimage(r.value)))
  {
    hide Identity, Repeats, NeighboursRepeat, ByKeyFirst, Sort, Total;
    VariablesGoByName();
    SortFindsRepeats(e.variables, VariableLess, VariableName, NameLess);
  }

  /** The scalar conditions, and the sealed order of the variables: by name, byte by byte. */
  lemma HermeticInFull(sha: Sha, e: Environment)
    requires Hermetic(sha, e).Ok?
    ensures var r := Hermetic(sha, e).value;
      && r.searchPath != [] && r.parallelism > 0 && r.mask <= 511 && (r.epoch.Some? ==> 0 <= r.epoch.value)
      && (forall i, j | 0 <= i < j < |r.searchPath| :: r.searchPath[i] != r.searchPath[j])
      && (forall i, j | 0 <= i < j < |r.variables| :: LexLess(r.variables[i].name, r.variables[j].name))
      && r.identity == Sha256Hex(sha, PutString(Ascii("pkgexec/environment-policy/v1"))
           + (([0] + ([0] + ([0] + ([NetworkByte(r.network)] + ([StdinByte(r.stdin)]
               + ([StreamByte(r.stdout)] + [StreamByte(r.stderr)]))))))
           + (PutList(r.searchPath, PutString) + (PutString(r.home) + (PutString(r.temporary)
               + (PutU32(r.parallelism) + (PutU32(r.mask) + (PutOption(r.epoch, PutI64)
               + PutList(r.variables, PutVariable)))))))))
  {
    hide Hermetic, LexLess, PutString, PutList, PutOption, PutU32, Ascii, Render;
    HermeticIsExact(sha, e);
    var r := Hermetic(sha, e).value;
    EnvironmentBytes(EnvironmentPreimage(r));
    forall i, j | 0 <= i < j < |r.searchPath|
      ensures r.searchPath[i] != r.searchPath[j]
    {
      assert Itself(r.searchPath[i]) != Itself(r.searchPath[j]);
    }
    forall i, j | 0 <= i < j < |r.variables|
      ensures LexLess(r.variables[i].name, r.variables[j].name)
    {
      assert NameLess(VariableName(r.variables[i]), VariableName(r.variables[j]));
    }
  }

  /** The order the variables were given in is forgotten. */
  lemma VariableOrderDoesNotMatter(sha: Sha, e: Environment, variables: Vec<EnvironmentVariable>)
    requires multiset(variables) == multiset(e.variables)
    ensures Hermetic(sha, e.(variables := variables)) == Hermetic(sha, e)
  {
    hide Identity, Repeats, NeighboursRepeat, ByKeyFirst, Sort, Total;
    VariablesGoByName();
    SortIsCanonical(variables, e.variables, VariableLess);
    var sorted := ArrangeVariables(e.variables);
    assert e.(variables := variables).(variables := sorted) == e.(variables := sorted);
  }

  // ---------------------------------------------------------------- credentials

  predicate NumberLess(a: u64, b: u64) {
    a < b
  }

  function Number(n: u64): u64 {
    n
  }

  lemma NumbersGoByThemselves()
    ensures Total(NumberLess) && ByKeyFirst(NumberLess, Number, NumberLess)
  {
  }

  function ArrangeNumbers(groups: Vec<u64>): (r: Vec<u64>)
    ensures multiset(r) == multiset(groups) && |r| == |groups|
  {
    SameElements(Sort(groups, NumberLess), groups);
    Sort(groups, NumberLess)
  }

  /** credential_policy::fixed, for the fields of `c`; the identity in `c` is not looked at. */
  ghost function Fixed(sha: Sha, c: Credentials): Result<Credentials> {
    var sorted := ArrangeNumbers(c.groups);
    :- Need(!NeighboursRepeat(sorted, Number), InvalidPolicy);
    :- Need(c.group !in sorted, InvalidPolicy);
    var sealed := c.(groups := sorted);
    Ok(sealed.(identity := Identity(sha, CredentialPreimage(sealed))))
  }

  /** As it runs: the primary group is looked for by binary search. */
  method SealFixed(sha: Sha, c: Credentials) returns (r: Result<Credentials>)
    ensures r == Fixed(sha, c)
  {
    hide Identity, Sort, Total, Keyed, ByKeyFirst;
    var sorted := ArrangeNumbers(c.groups);
    if NeighboursRepeat(sorted, Number) {
      return Err(InvalidPolicy);
    }
    NumbersGoByThemselves();
    SortFindsRepeats(c.groups, NumberLess, Number, NumberLess);
    var primary := Lookup(sorted, Number, NumberLess, c.group);
    LinearMeans(sorted, Number, c.group);
    assert primary.Some? <==> c.group in sorted;
    if primary.Some? {
      return Err(InvalidPolicy);
    }
    var sealed := c.(groups := sorted);
    var identity := IdentifyCredentials(sha, CredentialPreimage(sealed));
    return Ok(sealed.(identity := identity.value));
  }

  /** Credentials are sealed exactly when no supplementary group repeats and none is the primary group. */
  lemma FixedIsExact(sha: Sha, c: Credentials)
    ensures var r := Fixed(sha, c);
      && (r.Ok? <==> !Repeats(c.groups, Number) && c.group !in c.groups)
      && (r.Err? ==> r.code == InvalidPolicy)
      && (r.Ok? ==> Keyed(r.value.groups, Number, NumberLess) && multiset(r.value.groups) == multiset(c.groups))
      && (r.Ok? ==> r.value.user == c.user && r.value.group == c.group && r.value.noNewPrivileges == c.noNewPrivileges
                    && r.value.identity == Identity(sha, CredentialPreimage(r.value)))
  {
    hide Identity, Repeats, NeighboursRepeat, ByKeyFirst, Sort, Total;
    NumbersGoByThemselves();
    SortFindsRepeats(c.groups, NumberLess, Number, NumberLess);
    SameElements(ArrangeNumbers(c.groups), c.groups);
  }

  /** The sealed order of the groups, and the bytes credentials are identified by. */
  lemma FixedInFull(sha: Sha, c: Credentials)
    requires Fixed(sha, c).Ok?
    ensures var r := Fixed(sha, c).value;
      && (forall i, j | 0 <= i < j < |r.groups| :: r.groups[i] < r.groups[j])
      && r.identity == Sha256Hex(sha, PutString(Ascii("pkgexec/credential-policy/v1"))
           + (PutU64(r.user) + (PutU64(r.group) + (PutList(r.groups, PutU64) + PutBool(r.noNewPrivileges)))))
  {
    hide Fixed, PutString, PutList, PutU64, PutBool, Ascii, Render;
    FixedIsExact(sha, c);
    var r := Fixed(sha, c).value;
    CredentialBytes(CredentialPreimage(r));
    forall i, j | 0 <= i < j < |r.groups|
      ensures r.groups[i] < r.groups[j]
    {
      assert NumberLess(Number(r.groups[i]), Number(r.groups[j]));
    }
  }

  /** The order the groups were given in is forgotten. */
  lemma GroupOrderDoesNotMatter(sha: Sha, c: Credentials, groups: Vec<u64>)
    requires multiset(groups) == multiset(c.groups)
    ensures Fixed(sha, c.(groups := groups)) == Fixed(sha, c)
  {
    hide Identity, Repeats, NeighboursRepeat, ByKeyFirst, Sort, Total;
    NumbersGoByThemselves();
    SortIsCanonical(groups, c.groups, NumberLess);
    var sorted := ArrangeNumbers(c.groups);
    assert c.(groups := groups).(groups := sorted) == c.(groups := sorted);
  }

  // ---------------------------------------------------------------- sealed parts of a request

  /** Sealing what was sealed changes nothing. */
  lemma SealingPoliciesIsIdempotent(sha: Sha, e: Environment, c: Credentials)
    ensures Hermetic(sha, e).Ok? ==> Hermetic(sha, Hermetic(sha, e).value) == Hermetic(sha, e)
    ensures Fixed(sha, c).Ok? ==> Fixed(sha, Fixed(sha, c).value) == Fixed(sha, c)
  {
    hide Identity, Repeats, NeighboursRepeat, Sort;
    if Hermetic(sha, e).Ok? {
      var r := Hermetic(sha, e).value;
      VariableOrderDoesNotMatter(sha, e, r.variables);
      assert e.(variables := r.variables).(variables := ArrangeVariables(r.variables), identity := r.identity)
          == r.(variables := ArrangeVariables(r.variables));
    }
    if Fixed(sha, c).Ok? {
      var r := Fixed(sha, c).value;
      GroupOrderDoesNotMatter(sha, c, r.groups);
      assert c.(groups := r.groups).(groups := ArrangeNumbers(r.groups), identity := r.identity)
          == r.(groups := ArrangeNumbers(r.groups));
    }
  }

  /** resource_limits::make: a limit that is given is positive. */
  function MakeLimits(sha: Sha, l: Limits): Result<Limits> {
    if l.cpuTime == Some(0) || l.addressSpace == Some(0) || l.fileSize == Some(0) || l.openFiles == Some(0)
       || l.processCount == Some(0)
    then Err(InvalidPolicy)
    else Ok(l.(identity := Identity(sha, LimitsPreimage(l))))
  }

  /** Limits are made exactly when each one given is positive, are carried over, and hashed in this order. */
  lemma LimitsInOrder(sha: Sha, l: Limits)
    ensures var r := MakeLimits(sha, l);
      && (r.Ok? <==> forall v | v in [l.cpuTime, l.addressSpace, l.fileSize, l.openFiles, l.processCount] ::
                       v.Some? ==> v.value > 0)
      && (r.Err? ==> r.code == InvalidPolicy)
      && (r.Ok? ==> r.value == l.(identity := r.value.identity)
                    && r.value.identity == Sha256Hex(sha, PutString(Ascii("pkgexec/resource-limits/v1"))
                         + (PutOption(l.cpuTime, PutU64) + (PutOption(l.addressSpace, PutU64)
                         + (PutOption(l.fileSize, PutU64) + (PutOption(l.openFiles, PutU64)
                         + PutOption(l.processCount, PutU64)))))))
  {
    hide PutString, PutOption, PutU64, Ascii, Render;
    LimitsBytes(LimitsPreimage(l));
    var all := [l.cpuTime, l.addressSpace, l.fileSize, l.openFiles, l.processCount];
    assert l.cpuTime == all[0] && l.addressSpace == all[1] && l.fileSize == all[2] && l.openFiles == all[3]
      && l.processCount == all[4];
  }

  /** A request body whose parts come from their own constructors has the identities its preimage relies on. */
  lemma SealedPartsCarryTheirIdentity(sha: Sha, body: RequestBody)
    requires SealedLayout(sha, body.resources) && Hermetic(sha, body.environment) == Ok(body.environment)
    requires Fixed(sha, body.credentials) == Ok(body.credentials) && MakeLimits(sha, body.limits) == Ok(body.limits)
    ensures PartsSealed(sha, body)
  {
    hide Identity, Repeats, NeighboursRepeat, Sort;
  }
}
