/**
 Policy inheritance along the parents of a model (pkg/config/policy_profiles.go):
 the nearest assignment wins, separately for each policy.
 */
module PolicyInheritance {
  import opened Options

  /** An assignment: an absent field retains what the model has. */
  datatype Assignment = Assignment(pii: Option<string>, guardrail: Option<string>)

  /** `overridden`: the model has request overrides; `profile`: its binding's parent, if it has a binding. */
  datatype Model = Model(name: string, overridden: bool, profile: Option<string>)

  type Models = m: map<string, Model> | forall n :: n in m ==> m[n].name == n witness map[]

  function LastColon(name: string): (i: Option<nat>)
    ensures i.Some? ==> i.value < |name| && name[i.value] == ':'
  {
    if name == [] then None
    else if name[|name| - 1] == ':' then Some(|name| - 1)
    else LastColon(name[..|name| - 1])
  }

  predicate Inherits(m: Model) {
    m.overridden || m.profile.Some?
  }

  /** A binding names the parent; otherwise it is the name up to the last colon. */
  function ParentName(m: Model): Option<string> {
    if m.profile.Some? && m.profile.value != "" then m.profile
    else match LastColon(m.name)
      case Some(i) => Some(m.name[..i])
      case None => None
  }

  function Parent(models: Models, m: Model): Option<Model> {
    if Inherits(m) && ParentName(m).Some? && ParentName(m).value in models then Some(models[ParentName(m).value])
    else None
  }

  function Assigned(policies: map<string, Assignment>, name: string): Assignment {
    if name in policies then policies[name] else Assignment(None, None)
  }

  // -------------------------------------------------------------------------
  // Ancestor chains

  /** The model followed by its parent, its parent's parent, and so on, as far as it goes. */
  predicate IsChain(models: Models, m: Model, chain: seq<Model>) {
    && chain != [] && chain[0] == m
    && forall i :: 0 <= i < |chain| - 1 ==> Parent(models, chain[i]) == Some(chain[i + 1])
  }

  predicate Whole(models: Models, m: Model, chain: seq<Model>) {
    IsChain(models, m, chain) && Parent(models, chain[|chain| - 1]).None?
  }

  /** The chain comes back to a name, at a model that would go on inheriting. */
  predicate Revisits(chain: seq<Model>) {
    chain != [] && Inherits(chain[|chain| - 1])
    && exists i :: 0 <= i < |chain| - 1 && chain[i].name == chain[|chain| - 1].name
  }

  function FirstPii(policies: map<string, Assignment>, chain: seq<Model>): Option<string> {
    if chain == [] then None
    else if Assigned(policies, chain[0].name).pii.Some? then Assigned(policies, chain[0].name).pii
    else FirstPii(policies, chain[1..])
  }

  function FirstGuardrail(policies: map<string, Assignment>, chain: seq<Model>): Option<string> {
    if chain == [] then None
    else if Assigned(policies, chain[0].name).guardrail.Some? then Assigned(policies, chain[0].name).guardrail
    else FirstGuardrail(policies, chain[1..])
  }

  lemma {:induction false} FirstAppend(policies: map<string, Assignment>, chain: seq<Model>, m: Model)
    ensures var a := Assigned(policies, m.name);
      && FirstPii(policies, chain + [m]) == (if FirstPii(policies, chain).Some? then FirstPii(policies, chain) else a.pii)
      && FirstGuardrail(policies, chain + [m])
         == (if FirstGuardrail(policies, chain).Some? then FirstGuardrail(policies, chain) else a.guardrail)
  {
    if chain != [] {
      assert (chain + [m])[1..] == chain[1..] + [m];
      FirstAppend(policies, chain[1..], m);
    }
  }

  /** Each policy is decided by the first model of the chain that assigns it. */
  lemma {:induction false} FirstIsNearest(policies: map<string, Assignment>, chain: seq<Model>, i: nat)
    requires i < |chain|
    ensures (forall k :: 0 <= k < i ==> Assigned(policies, chain[k].name).pii.None?) ==>
      FirstPii(policies, chain) == if Assigned(policies, chain[i].name).pii.Some?
        then Assigned(policies, chain[i].name).pii else FirstPii(policies, chain[i + 1..])
    ensures (forall k :: 0 <= k < i ==> Assigned(policies, chain[k].name).guardrail.None?) ==>
      FirstGuardrail(policies, chain) == if Assigned(policies, chain[i].name).guardrail.Some?
        then Assigned(policies, chain[i].name).guardrail else FirstGuardrail(policies, chain[i + 1..])
  {
    if i > 0 {
      assert chain[1..][i - 1] == chain[i] && chain[1..][i..] == chain[i + 1..];
      FirstIsNearest(policies, chain[1..], i - 1);
    }
  }

  /** The names visited are those of the chain before its last model. */
  ghost predicate Visited(visited: set<string>, chain: seq<Model>) {
    && chain != []
    && (forall i :: 0 <= i < |chain| - 1 ==> chain[i].name in visited)
    && (forall n :: n in visited ==> exists i :: 0 <= i < |chain| - 1 && chain[i].name == n)
  }

  /** No model before the last is visited twice. */
  ghost predicate Fresh(chain: seq<Model>) {
    forall n :: 0 < n < |chain| ==> !Revisits(chain[..n])
  }

  lemma ExtendWalk(models: Models, model: Model, visited: set<string>, chain: seq<Model>, parent: Model)
    requires IsChain(models, model, chain) && Visited(visited, chain) && Fresh(chain)
    requires Inherits(chain[|chain| - 1]) && chain[|chain| - 1].name !in visited
    requires Parent(models, chain[|chain| - 1]) == Some(parent)
    ensures IsChain(models, model, chain + [parent]) && Fresh(chain + [parent])
    ensures Visited(visited + {chain[|chain| - 1].name}, chain + [parent])
  {
    var longer, last := chain + [parent], chain[|chain| - 1];
    assert !Revisits(chain) && chain[..|chain|] == chain;
    forall n | 0 < n < |longer| ensures !Revisits(longer[..n]) {
      assert longer[..n] == chain[..n];
    }
    forall n | n in visited + {last.name} ensures exists i :: 0 <= i < |longer| - 1 && longer[i].name == n {
      if n == last.name {
        assert longer[|chain| - 1] == last;
      } else {
        var i :| 0 <= i < |chain| - 1 && chain[i].name == n;
        assert longer[i] == chain[i];
      }
    }
  }

  /** No model of the chain that would go on inheriting comes back to an earlier name. */
  ghost predicate NeverRevisits(chain: seq<Model>) {
    forall n :: 0 < n <= |chain| ==> !Revisits(chain[..n])
  }

  /** Chains from the same model agree as far as both go. */
  lemma {:induction false} ChainsAgree(models: Models, m: Model, a: seq<Model>, b: seq<Model>, i: nat)
    requires IsChain(models, m, a) && IsChain(models, m, b) && i < |a| && i < |b|
    ensures a[i] == b[i]
  {
    if i > 0 {
      ChainsAgree(models, m, a, b, i - 1);
      assert Parent(models, a[i - 1]) == Some(a[(i - 1) + 1]) && Parent(models, b[i - 1]) == Some(b[(i - 1) + 1]);
    }
  }

  /** The verdict does not depend on the walk: a model has a whole chain without a
      revisit, or a chain that revisits, and never both. */
  lemma CycleIsDecided(models: Models, m: Model, whole: seq<Model>, other: seq<Model>)
    requires Whole(models, m, whole) && NeverRevisits(whole)
    requires IsChain(models, m, other)
    ensures !Revisits(other) && other <= whole
  {
    if |other| > |whole| {
      assert Parent(models, other[|whole| - 1]) == Some(other[(|whole| - 1) + 1]);
      ChainsAgree(models, m, whole, other, |whole| - 1);
      assert false;
    }
    forall i | 0 <= i < |other| ensures other[i] == whole[i] { ChainsAgree(models, m, whole, other, i); }
    assert whole[..|other|] == other;
  }

  /** The whole chain of the model, and the nearest assignments on it. */
  ghost predicate Decides(models: Models, policies: map<string, Assignment>, model: Model, chain: seq<Model>, a: Assignment) {
    && Whole(models, model, chain) && NeverRevisits(chain)
    && a == Assignment(FirstPii(policies, chain), FirstGuardrail(policies, chain))
  }

  /** The walk from a model towards its root.  It fails exactly when some chain comes
      back to a name, and otherwise picks each policy's first assignment on the whole chain. */
  method Walk(models: Models, policies: map<string, Assignment>, model: Model) returns (r: Option<Assignment>)
    ensures r.None? <==> exists chain :: IsChain(models, model, chain) && Revisits(chain)
    ensures r.Some? ==> exists chain :: Decides(models, policies, model, chain, r.value)
  {
    var assignment := Assigned(policies, model.name);
    var child := model;
    var visited: set<string> := {};
    ghost var chain := [model];
    assert FirstPii(policies, [model][1..]) == None && FirstGuardrail(policies, [model][1..]) == None;
    while Inherits(child)
      invariant IsChain(models, model, chain) && chain[|chain| - 1] == child
      invariant Visited(visited, chain) && Fresh(chain)
      invariant visited <= models.Keys + {model.name} && child.name in models.Keys + {model.name}
      invariant assignment == Assignment(FirstPii(policies, chain), FirstGuardrail(policies, chain))
      decreases models.Keys + {model.name} - visited
    {
      if child.name in visited { return None; }
      assert !Revisits(chain);
      var parent := Parent(models, child);
      if parent.None? { break; }
      var inherited := Assigned(policies, parent.value.name);
      assignment := Assignment(
        if assignment.pii.None? then inherited.pii else assignment.pii,
        if assignment.guardrail.None? then inherited.guardrail else assignment.guardrail);
      FirstAppend(policies, chain, parent.value);
      ExtendWalk(models, model, visited, chain, parent.value);
      chain := chain + [parent.value];
      visited := visited + {child.name};
      child := parent.value;
    }
    assert chain[..|chain|] == chain;
    forall other | IsChain(models, model, other) ensures !Revisits(other) {
      CycleIsDecided(models, model, chain, other);
    }
    assert Decides(models, policies, model, chain, assignment);
    r := Some(assignment);
  }
}
