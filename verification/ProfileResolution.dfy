/**
 Request profiles (pkg/config/request_profiles.go): the parameters a deployment
 effectively gets, and the materialisation of inherited models in a document.
 */
module ProfileResolution {
  import opened Options
  import opened JsonValues
  import opened ProfileParameters
  import opened ProfilePointers

  /** Parameter objects by API operation. */
  type Parameters = map<string, Object>

  datatype Implementation = Implementation(ingress: Parameters, upstream: Parameters, operations: seq<string>)

  datatype Patch = Patch(
    ingress: Parameters, upstream: Parameters,
    removeIngress: map<string, seq<string>>, removeUpstream: map<string, seq<string>>)

  datatype Binding = Binding(
    parent: string, selector: string, manual: bool, patch: Patch,
    deploymentPatches: map<string, Patch>, excluded: seq<string>)

  datatype Source = Source(recipe: string, recipeRevision: string, baseline: string, revision: string,
                           profiles: map<string, Implementation>)

  /** `settings` stands for the fields that resolution copies without looking at them. */
  datatype Deployment = Deployment(
    name: string, profileSource: Option<Source>, profiles: map<string, Implementation>, settings: int)

  datatype Model = Model(
    name: string, aliases: seq<string>, profile: Option<Binding>, overrides: Parameters, settings: int)

  datatype Document = Document(deployments: seq<Deployment>, models: seq<Model>, sources: map<string, Source>)

  const NO_PATCH := Patch(map[], map[], map[], map[])

  function At(parameters: Parameters, operation: string): Object {
    if operation in parameters then parameters[operation] else map[]
  }

  function Pointers(remove: map<string, seq<string>>, operation: string): seq<string> {
    if operation in remove then remove[operation] else []
  }

  // -------------------------------------------------------------------------
  // Effective parameters

  predicate Supports(impl: Implementation, operation: string) {
    if |impl.operations| > 0 then operation in impl.operations else operation in impl.ingress
  }

  function ImplementationFor(b: Binding, d: Deployment, ingress: string): Option<Implementation> {
    if b.manual then Some(Implementation(map[], map[], [ingress]))
    else if b.selector in d.profiles then Some(d.profiles[b.selector])
    else None
  }

  function DeploymentPatch(b: Binding, d: Deployment): Patch {
    if d.name in b.deploymentPatches then b.deploymentPatches[d.name] else NO_PATCH
  }

  datatype Effective = Effective(ingress: Object, upstream: Object)

  function EffectiveOf(b: Binding, overrides: Parameters, impl: Implementation, last: Patch,
                       ingress: string, upstream: string): Effective {
    Effective(
      Patched(Patched(Merge(At(impl.ingress, ingress), At(overrides, ingress)),
                      At(b.patch.ingress, ingress), Pointers(b.patch.removeIngress, ingress)),
              At(last.ingress, ingress), Pointers(last.removeIngress, ingress)),
      Patched(Patched(At(impl.upstream, upstream),
                      At(b.patch.upstream, upstream), Pointers(b.patch.removeUpstream, upstream)),
              At(last.upstream, upstream), Pointers(last.removeUpstream, upstream)))
  }

  /** The deployment serves the profile for this operation. */
  predicate Serves(m: Model, d: Deployment, ingress: string) {
    && m.profile.Some? && d.name !in m.profile.value.excluded
    && ImplementationFor(m.profile.value, d, ingress).Some?
    && Supports(ImplementationFor(m.profile.value, d, ingress).value, ingress)
  }

  method EffectiveProfileParameters(m: Model, d: Deployment, ingress: string, upstream: string)
    returns (r: Option<Effective>)
    ensures r.Some? <==> Serves(m, d, ingress)
    ensures r.Some? ==> r.value == EffectiveOf(
      m.profile.value, m.overrides, ImplementationFor(m.profile.value, d, ingress).value,
      DeploymentPatch(m.profile.value, d), ingress, upstream)
  {
    if m.profile.None? { return None; }
    var b := m.profile.value;
    if d.name in b.excluded { return None; }
    var impl := ImplementationFor(b, d, ingress);
    if impl.None? || !Supports(impl.value, ingress) { return None; }
    var in' := MergeProfileParameters(At(impl.value.ingress, ingress), At(m.overrides, ingress));
    var out := At(impl.value.upstream, upstream);
    var patches := [b.patch, DeploymentPatch(b, d)];
    var i := 0;
    ghost var in0, out0 := in', out;
    while i < 2
      invariant 0 <= i <= 2
      invariant i == 0 ==> in' == in0 && out == out0
      invariant i == 1 ==>
        && in' == Patched(in0, At(b.patch.ingress, ingress), Pointers(b.patch.removeIngress, ingress))
        && out == Patched(out0, At(b.patch.upstream, upstream), Pointers(b.patch.removeUpstream, upstream))
      invariant i == 2 ==>
        Effective(in', out) == EffectiveOf(b, m.overrides, impl.value, DeploymentPatch(b, d), ingress, upstream)
    {
      var p := patches[i];
      in' := PatchProfileParameters(in', At(p.ingress, ingress), Pointers(p.removeIngress, ingress));
      out := PatchProfileParameters(out, At(p.upstream, upstream), Pointers(p.removeUpstream, upstream));
      i := i + 1;
    }
    r := Some(Effective(in', out));
  }

  /** The precedence of ingress parameters: deployment patch, then profile patch,
      then the model's overrides, then the implementation's own values; each patch
      removes what its pointers reach. */
  lemma IngressPrecedence(b: Binding, overrides: Parameters, impl: Implementation, last: Patch,
                          ingress: string, upstream: string, q: Path, j: Json)
    requires q != [] && !j.Obj?
    ensures Lookup(EffectiveOf(b, overrides, impl, last, ingress, upstream).ingress, q) == Some(j) <==>
      && Untouched(Pointers(last.removeIngress, ingress), q)
      && (|| Lookup(At(last.ingress, ingress), q) == Some(j)
          || (&& !Masks(At(last.ingress, ingress), q)
              && Untouched(Pointers(b.patch.removeIngress, ingress), q)
              && (|| Lookup(At(b.patch.ingress, ingress), q) == Some(j)
                  || (&& !Masks(At(b.patch.ingress, ingress), q)
                      && (|| Lookup(At(overrides, ingress), q) == Some(j)
                          || (&& !Masks(At(overrides, ingress), q)
                              && Lookup(At(impl.ingress, ingress), q) == Some(j)))))))
  {
    var base := Merge(At(impl.ingress, ingress), At(overrides, ingress));
    var patched := Patched(base, At(b.patch.ingress, ingress), Pointers(b.patch.removeIngress, ingress));
    MergeLookup(At(impl.ingress, ingress), At(overrides, ingress), q, j);
    PatchContents(base, At(b.patch.ingress, ingress), Pointers(b.patch.removeIngress, ingress), q, j);
    PatchContents(patched, At(last.ingress, ingress), Pointers(last.removeIngress, ingress), q, j);
  }

  /** The precedence of upstream parameters: deployment patch, then profile patch, then
      the implementation's own values; the model's overrides play no part. */
  lemma UpstreamPrecedence(b: Binding, overrides: Parameters, impl: Implementation, last: Patch,
                           ingress: string, upstream: string, q: Path, j: Json)
    requires q != [] && !j.Obj?
    ensures Lookup(EffectiveOf(b, overrides, impl, last, ingress, upstream).upstream, q) == Some(j) <==>
      && Untouched(Pointers(last.removeUpstream, upstream), q)
      && (|| Lookup(At(last.upstream, upstream), q) == Some(j)
          || (&& !Masks(At(last.upstream, upstream), q)
              && Untouched(Pointers(b.patch.removeUpstream, upstream), q)
              && (|| Lookup(At(b.patch.upstream, upstream), q) == Some(j)
                  || (&& !Masks(At(b.patch.upstream, upstream), q)
                      && Lookup(At(impl.upstream, upstream), q) == Some(j)))))
  {
    var base := At(impl.upstream, upstream);
    var patched := Patched(base, At(b.patch.upstream, upstream), Pointers(b.patch.removeUpstream, upstream));
    PatchContents(base, At(b.patch.upstream, upstream), Pointers(b.patch.removeUpstream, upstream), q, j);
    PatchContents(patched, At(last.upstream, upstream), Pointers(last.removeUpstream, upstream), q, j);
  }

  /** No effective parameter survives at or below a pointer the deployment patch removes. */
  lemma DeploymentRemoves(b: Binding, overrides: Parameters, impl: Implementation, last: Patch,
                          ingress: string, upstream: string, i: nat, q: Path)
    ensures i < |Pointers(last.removeIngress, ingress)| && DecodePointer(Pointers(last.removeIngress, ingress)[i]) <= q ==>
      Lookup(EffectiveOf(b, overrides, impl, last, ingress, upstream).ingress, q).None?
    ensures i < |Pointers(last.removeUpstream, upstream)| && DecodePointer(Pointers(last.removeUpstream, upstream)[i]) <= q ==>
      Lookup(EffectiveOf(b, overrides, impl, last, ingress, upstream).upstream, q).None?
  {
    var base := Merge(At(impl.ingress, ingress), At(overrides, ingress));
    var in1 := Patched(base, At(b.patch.ingress, ingress), Pointers(b.patch.removeIngress, ingress));
    var out1 := Patched(At(impl.upstream, upstream), At(b.patch.upstream, upstream), Pointers(b.patch.removeUpstream, upstream));
    var removeIn, removeOut := Pointers(last.removeIngress, ingress), Pointers(last.removeUpstream, upstream);
    if i < |removeIn| && DecodePointer(removeIn[i]) <= q {
      RemoveAllRemoves(Merge(in1, At(last.ingress, ingress)), removeIn, i, q);
    }
    if i < |removeOut| && DecodePointer(removeOut[i]) <= q {
      RemoveAllRemoves(Merge(out1, At(last.upstream, upstream)), removeOut, i, q);
    }
  }
}
