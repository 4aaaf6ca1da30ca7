/**
 Materialising request profiles in a document (pkg/config/request_profiles.go),
 and its stability: resolving twice is resolving once.
 */
module DocumentResolution {
  import opened Options
  import opened JsonValues
  import opened ProfileParameters
  import opened ProfileResolution
  import opened ProfileValidation

  /** The rules for parameters, and the other validations that resolution calls. */
  datatype Checks = Checks(
    deployment: (string, Option<Source>, int) -> bool,
    implementations: map<string, Implementation> -> bool,
    rules: Rules,
    selector: string -> bool,
    patch: Patch -> bool)

  // -------------------------------------------------------------------------
  // Deployments

  /** A refreshed source replaces the deployment's profiles when it belongs to the
      same recipe revision and baseline. */
  function Refreshed(d: Deployment, sources: map<string, Source>): Deployment {
    if d.name in sources && d.profileSource.Some?
       && sources[d.name].recipe == d.profileSource.value.recipe
       && sources[d.name].recipeRevision == d.profileSource.value.recipeRevision
       && sources[d.name].baseline == d.profileSource.value.revision
    then d.(profiles := sources[d.name].profiles) else d
  }

  predicate DeploymentValid(c: Checks, d: Deployment, sources: map<string, Source>) {
    c.deployment(d.name, d.profileSource, d.settings) && c.implementations(Refreshed(d, sources).profiles)
  }

  // -------------------------------------------------------------------------
  // Models

  /** The last model of each name. */
  function ByName(models: seq<Model>): map<string, Model> {
    if models == [] then map[]
    else ByName(models[..|models| - 1])[models[|models| - 1].name := models[|models| - 1]]
  }

  /** `strings.TrimPrefix(name, parent + ":")`, when that is a prefix. */
  function Suffix(name: string, parent: string): Option<string> {
    if parent + ":" <= name then Some(name[|parent| + 1..]) else None
  }

  /** The parent's aliases with the suffix, appended where missing. */
  function WithDerived(aliases: seq<string>, parentAliases: seq<string>, suffix: string): seq<string> {
    if parentAliases == [] then aliases
    else
      var before := WithDerived(aliases, parentAliases[..|parentAliases| - 1], suffix);
      var derived := parentAliases[|parentAliases| - 1] + ":" + suffix;
      if derived in before then before else before + [derived]
  }

  function Aliases(child: Model, parent: Model): seq<string> {
    match Suffix(child.name, parent.name)
    case Some(suffix) => WithDerived(child.aliases, parent.aliases, suffix)
    case None => child.aliases
  }

  function Inherited(child: Model, parent: Model): Model {
    parent.(name := child.name, profile := child.profile,
            overrides := MergeParameters(parent.overrides, child.overrides),
            aliases := Aliases(child, parent))
  }

  /** The binding itself is acceptable, whatever parameters the model carries. */
  predicate BindingValid(c: Checks, byName: map<string, Model>, name: string, b: Binding) {
    && b.parent in byName && byName[b.parent].profile.None? && name != b.parent
    && c.selector(b.selector) && c.patch(b.patch)
    && |b.deploymentPatches| <= 256
    && forall n :: n in b.deploymentPatches ==> c.patch(b.deploymentPatches[n])
  }

  predicate ModelValid(c: Checks, byName: map<string, Model>, m: Model) {
    m.profile.Some? ==> Valid(c.rules, m.overrides) && BindingValid(c, byName, m.name, m.profile.value)
  }

  function ResolvedModel(byName: map<string, Model>, m: Model): Model {
    if m.profile.Some? && m.profile.value.parent in byName then Inherited(m, byName[m.profile.value.parent]) else m
  }

  // -------------------------------------------------------------------------
  // Documents

  predicate Resolves(c: Checks, d: Document) {
    && (forall i :: 0 <= i < |d.deployments| ==> DeploymentValid(c, d.deployments[i], d.sources))
    && (forall i :: 0 <= i < |d.models| ==> ModelValid(c, ByName(d.models), d.models[i]))
  }

  function Resolved(d: Document): (r: Document)
    ensures |r.deployments| == |d.deployments| && |r.models| == |d.models|
  {
    d.(deployments := seq(|d.deployments|, i requires 0 <= i < |d.deployments| => Refreshed(d.deployments[i], d.sources)),
       models := seq(|d.models|, i requires 0 <= i < |d.models| => ResolvedModel(ByName(d.models), d.models[i])))
  }

  /** The resolver's loops, which overwrite elements of cloned slices. */
  method ResolveRequestProfiles(c: Checks, d: Document) returns (r: Option<Document>)
    ensures r == if Resolves(c, d) then Some(Resolved(d)) else None
  {
    var deployments, models := d.deployments, d.models;
    for i := 0 to |d.deployments|
      invariant |deployments| == |d.deployments|
      invariant forall k :: 0 <= k < i ==> DeploymentValid(c, d.deployments[k], d.sources)
      invariant forall k :: 0 <= k < |deployments| ==>
        deployments[k] == if k < i then Refreshed(d.deployments[k], d.sources) else d.deployments[k]
    {
      var dep := deployments[i];
      if !c.deployment(dep.name, dep.profileSource, dep.settings) { return None; }
      dep := Refreshed(dep, d.sources);
      deployments := deployments[i := dep];
      if !c.implementations(dep.profiles) { return None; }
    }
    var byName: map<string, Model> := map[];
    for i := 0 to |d.models|
      invariant byName == ByName(d.models[..i])
    {
      assert d.models[..i + 1][..i] == d.models[..i];
      byName := byName[d.models[i].name := d.models[i]];
    }
    assert d.models[..|d.models|] == d.models;
    for i := 0 to |d.models|
      invariant |models| == |d.models|
      invariant forall k :: 0 <= k < i ==> ModelValid(c, byName, d.models[k])
      invariant forall k :: 0 <= k < |models| ==>
        models[k] == if k < i then ResolvedModel(byName, d.models[k]) else d.models[k]
    {
      var child := d.models[i];
      if child.profile.Some? {
        if !ModelValid(c, byName, child) { return None; }
        var inherited := Inherit(child, byName[child.profile.value.parent]);
        models := models[i := inherited];
      }
    }
    r := Some(d.(deployments := deployments, models := models));
    assert r.value.deployments == Resolved(d).deployments && r.value.models == Resolved(d).models;
  }

  method Inherit(child: Model, parent: Model) returns (inherited: Model)
    ensures inherited == Inherited(child, parent)
  {
    var overrides := parent.overrides;
    var left := child.overrides.Keys;
    while left != {}
      invariant left <= child.overrides.Keys
      invariant overrides.Keys == parent.overrides.Keys + (child.overrides.Keys - left)
      invariant forall op :: op in overrides ==>
        overrides[op] == if op in child.overrides && op !in left
                         then Merge(At(parent.overrides, op), child.overrides[op]) else parent.overrides[op]
    {
      var op :| op in left;
      var merged := MergeProfileParameters(At(overrides, op), child.overrides[op]);
      overrides := overrides[op := merged];
      left := left - {op};
    }
    assert overrides == MergeParameters(parent.overrides, child.overrides);
    var aliases := child.aliases;
    var suffix := Suffix(child.name, parent.name);
    if suffix.Some? {
      for i := 0 to |parent.aliases|
        invariant aliases == WithDerived(child.aliases, parent.aliases[..i], suffix.value)
      {
        assert parent.aliases[..i + 1][..i] == parent.aliases[..i];
        var derived := parent.aliases[i] + ":" + suffix.value;
        if derived !in aliases { aliases := aliases + [derived]; }
      }
      assert parent.aliases[..|parent.aliases|] == parent.aliases;
    }
    inherited := parent.(name := child.name, profile := child.profile, overrides := overrides, aliases := aliases);
  }

  // -------------------------------------------------------------------------
  // Stability

  lemma MergeParametersAbsorbs(p: Parameters, c: Parameters)
    ensures MergeParameters(p, MergeParameters(p, c)) == MergeParameters(p, c)
  {
    forall op | op in p || op in c
      ensures Merge(At(p, op), MergeParameters(p, c)[op]) == MergeParameters(p, c)[op]
    {
      if op in c {
        MergeAbsorbs(At(p, op), c[op]);
      } else {
        MergeIdempotent(p[op]);
      }
    }
  }

  lemma {:induction false} DerivedContains(aliases: seq<string>, parentAliases: seq<string>, suffix: string, i: nat)
    requires i < |parentAliases|
    ensures parentAliases[i] + ":" + suffix in WithDerived(aliases, parentAliases, suffix)
  {
    if i < |parentAliases| - 1 { DerivedContains(aliases, parentAliases[..|parentAliases| - 1], suffix, i); }
  }

  lemma {:induction false} DerivedPresent(aliases: seq<string>, parentAliases: seq<string>, suffix: string)
    requires forall i :: 0 <= i < |parentAliases| ==> parentAliases[i] + ":" + suffix in aliases
    ensures WithDerived(aliases, parentAliases, suffix) == aliases
  {
    if parentAliases != [] { DerivedPresent(aliases, parentAliases[..|parentAliases| - 1], suffix); }
  }

  /** Inheriting again from the same parent changes nothing. */
  lemma InheritStable(child: Model, parent: Model)
    ensures Inherited(Inherited(child, parent), parent) == Inherited(child, parent)
  {
    MergeParametersAbsorbs(parent.overrides, child.overrides);
    var suffix := Suffix(child.name, parent.name);
    if suffix.Some? {
      var aliases := WithDerived(child.aliases, parent.aliases, suffix.value);
      forall i | 0 <= i < |parent.aliases| ensures parent.aliases[i] + ":" + suffix.value in aliases {
        DerivedContains(child.aliases, parent.aliases, suffix.value, i);
      }
      DerivedPresent(aliases, parent.aliases, suffix.value);
    }
  }

  /** Resolution keeps names and bindings, so each name still finds the model it
      found before, in its resolved form. */
  lemma {:induction false} ByNameResolved(byName: map<string, Model>, models: seq<Model>, resolved: seq<Model>)
    requires |resolved| == |models|
    requires forall i :: 0 <= i < |models| ==> resolved[i] == ResolvedModel(byName, models[i])
    ensures ByName(resolved).Keys == ByName(models).Keys
    ensures forall n :: n in ByName(models) ==> ByName(resolved)[n] == ResolvedModel(byName, ByName(models)[n])
  {
    if models != [] {
      var k := |models| - 1;
      ByNameResolved(byName, models[..k], resolved[..k]);
      assert resolved[k].name == models[k].name;
    }
  }

  lemma ResolvedByName(d: Document)
    ensures var before, after := ByName(d.models), ByName(Resolved(d).models);
      && after.Keys == before.Keys
      && forall n :: n in before ==> after[n].profile == before[n].profile && (before[n].profile.None? ==> after[n] == before[n])
  {
    ByNameResolved(ByName(d.models), d.models, Resolved(d).models);
  }

  lemma ResolvedModelStable(c: Checks, d: Document, i: nat)
    requires i < |d.models| && ModelValid(c, ByName(d.models), d.models[i])
    ensures var r := Resolved(d);
      ResolvedModel(ByName(r.models), r.models[i]) == r.models[i]
  {
    ResolvedByName(d);
    var m, byName := d.models[i], ByName(d.models);
    if m.profile.Some? { InheritStable(m, byName[m.profile.value.parent]); }
  }

  /** Resolving a resolved document returns it unchanged. */
  lemma ResolutionStable(c: Checks, d: Document)
    requires Resolves(c, d)
    ensures Resolved(Resolved(d)) == Resolved(d)
  {
    var r := Resolved(d);
    forall i | 0 <= i < |d.models| ensures Resolved(r).models[i] == r.models[i] {
      ResolvedModelStable(c, d, i);
    }
    assert Resolved(r).models == r.models;
    assert Resolved(r).deployments == r.deployments;
  }

  function ParentOf(d: Document, i: nat): Option<Model>
    requires i < |d.models|
  {
    if d.models[i].profile.Some? && d.models[i].profile.value.parent in ByName(d.models)
    then Some(ByName(d.models)[d.models[i].profile.value.parent]) else None
  }

  predicate InheritsCleanly(c: Checks, d: Document, i: nat)
    requires i < |d.models|
  {
    d.models[i].profile.Some? && ParentOf(d, i).Some? ==>
      ParentFits(c.rules, ParentOf(d, i).value.overrides, d.models[i].overrides)
  }

  /** The second resolution succeeds if and only if the parameters of every profile's
      parent, in the document as given, fit what profiles may carry. */
  lemma SecondResolution(c: Checks, d: Document)
    requires Resolves(c, d)
    ensures Resolves(c, Resolved(d)) <==>
      forall i :: 0 <= i < |d.models| ==> InheritsCleanly(c, d, i)
  {
    var r := Resolved(d);
    ResolvedByName(d);
    forall i | 0 <= i < |d.deployments| ensures DeploymentValid(c, r.deployments[i], r.sources) {
      assert DeploymentValid(c, d.deployments[i], d.sources);
    }
    forall i | 0 <= i < |d.models|
      ensures ModelValid(c, ByName(r.models), r.models[i]) <==> InheritsCleanly(c, d, i)
    {
      assert ModelValid(c, ByName(d.models), d.models[i]);
      if d.models[i].profile.Some? {
        MergedValid(c.rules, ParentOf(d, i).value.overrides, d.models[i].overrides);
      }
    }
  }

  const STORED: Parameters := map["responses" := map["store" := Bool(true)]]

  /** A model whose overrides ask for stored responses, and a profile of it. */
  const STORING := Document(
    [],
    [Model("m", [], None, STORED, 0),
     Model("m:fast", [], Some(Binding("m", "fast", false, NO_PATCH, map[], [])), map[], 0)],
    map[])

  lemma StoringByName()
    ensures ByName(STORING.models).Keys == {"m", "m:fast"} && ByName(STORING.models)["m"] == STORING.models[0]
  {
    var models := STORING.models;
    assert models[..1] == [models[0]] && models[..1][..0] == [];
    assert ByName([models[0]]) == map["m" := models[0]];
    assert "m" != "m:fast";
  }

  lemma StoreDoesNotFit(text: Text)
    requires text.lower("store") == "store"
    ensures !ParentFits(ProfileRules(text), STORED, map[])
  {
    assert !ProfileRules(text).allowed("store");
    assert "store" in STORED["responses"] && !FieldFits(ProfileRules(text), STORED["responses"], map[], "store");
    assert !OperationFits(ProfileRules(text), STORED, map[], "responses");
  }

  lemma StoringResolves(c: Checks)
    requires c.selector("fast") && c.patch(NO_PATCH)
    ensures Resolves(c, STORING)
  {
    StoringByName();
    var b := STORING.models[1].profile.value;
    assert BindingValid(c, ByName(STORING.models), "m:fast", b);
    assert Valid(c.rules, map[]);
  }

  /** It can fail: "store" is no parameter for a profile, but the parent may have it, and
      the first resolution copies it into the child without validating it there. */
  lemma SecondResolutionCanFail(c: Checks, text: Text)
    requires c.rules == ProfileRules(text) && text.lower("store") == "store"
    requires c.selector("fast") && c.patch(NO_PATCH)
    ensures Resolves(c, STORING) && !Resolves(c, Resolved(STORING))
  {
    StoringResolves(c);
    StoringByName();
    StoreDoesNotFit(text);
    SecondResolution(c, STORING);
    assert !InheritsCleanly(c, STORING, 1) by {
      assert ParentOf(STORING, 1) == Some(STORING.models[0]);
    }
  }
}
