/**
 Request-profile parameters: the deep merge in both its implementations, and the
 removal of parameters by JSON pointer (pkg/config/request_profiles.go,
 pkg/gateway/extra_body.go).
 */
module ProfileParameters {
  import opened JsonValues

  // -------------------------------------------------------------------------
  // Deep merge

  /** Objects merge field by field; anything else in the overlay replaces. */
  function MergeValue(base: Object, key: string, value: Json): Json
    decreases value, 1
  {
    if key in base && base[key].Obj? && value.Obj? then Obj(Merge(base[key].fields, value.fields)) else value
  }

  function Merge(base: Object, overlay: Object): Object
    decreases Obj(overlay), 0
  {
    map k | k in base.Keys + overlay.Keys ::
      if k in overlay then MergeValue(base, k, overlay[k]) else base[k]
  }

  /** The configuration side's merge: overlay fields are visited in any order. */
  method MergeProfileParameters(base: Object, overlay: Object) returns (result: Object)
    ensures result == Merge(base, overlay)
    decreases Obj(overlay)
  {
    result := base;
    var left := overlay.Keys;
    while left != {}
      invariant left <= overlay.Keys
      invariant result.Keys == base.Keys + (overlay.Keys - left)
      invariant forall k :: k in result ==>
        result[k] == if k in overlay && k !in left then MergeValue(base, k, overlay[k]) else base[k]
    {
      var k :| k in left;
      var v := overlay[k];
      if k in result && result[k].Obj? && v.Obj? {
        var merged := MergeProfileParameters(result[k].fields, v.fields);
        v := Obj(merged);
      }
      result := result[k := v];
      left := left - {k};
    }
  }

  /** A `null` body decodes to a nil map, to which the source then writes. */
  datatype Overridden = Overridden(body: Json) | NotAnObject | NilMapWrite

  /** The gateway side's merge into a request body. */
  method ApplyRequestOverrides(body: Json, overrides: Object) returns (result: Overridden)
    ensures body.Obj? ==> result == Overridden(Obj(Merge(body.fields, overrides)))
    ensures body.Null? ==> result == if overrides == map[] then Overridden(Null) else NilMapWrite
    ensures !body.Obj? && !body.Null? ==> result.NotAnObject?
    decreases Obj(overrides)
  {
    if body.Null? {
      if overrides != map[] { return NilMapWrite; }
      return Overridden(Null);
    }
    if !body.Obj? { return NotAnObject; }
    var envelope := body.fields;
    var left := overrides.Keys;
    while left != {}
      invariant left <= overrides.Keys
      invariant envelope.Keys == body.fields.Keys + (overrides.Keys - left)
      invariant forall k :: k in envelope ==>
        envelope[k] == if k in overrides && k !in left then MergeValue(body.fields, k, overrides[k]) else body.fields[k]
    {
      var k :| k in left;
      var value := overrides[k];
      if value.Obj? && k in envelope && envelope[k].Obj? {
        var merged := ApplyRequestOverrides(envelope[k], value.fields);
        envelope := envelope[k := merged.body];
      } else {
        envelope := envelope[k := value];
      }
      left := left - {k};
    }
    assert envelope == Merge(body.fields, overrides);
    result := Overridden(Obj(envelope));
  }

  lemma {:induction false} MergeIdempotent(a: Object)
    ensures Merge(a, a) == a
    decreases Obj(a)
  {
    forall k | k in a && a[k].Obj? { MergeIdempotent(a[k].fields); }
  }

  /** Merging over the same base twice is merging once. */
  lemma {:induction false} MergeAbsorbs(p: Object, c: Object)
    ensures Merge(p, Merge(p, c)) == Merge(p, c)
    decreases Obj(c)
  {
    var m := Merge(p, c);
    forall k | k in m && k in p && p[k].Obj? && m[k].Obj? ensures MergeValue(p, k, m[k]) == m[k] {
      if k in c && c[k].Obj? {
        MergeAbsorbs(p[k].fields, c[k].fields);
      } else {
        MergeIdempotent(p[k].fields);
      }
    }
  }

  /** Every field of x is overwritten by b. */
  predicate Covered(x: Object, b: Object)
    decreases Obj(b)
  {
    forall k :: k in x ==> k in b && (x[k].Obj? && b[k].Obj? ==> Covered(x[k].fields, b[k].fields))
  }

  lemma {:induction false} CoveredIff(x: Object, b: Object)
    ensures Covered(x, b) <==> Merge(x, b) == b
    decreases Obj(b)
  {
    forall k | k in x && k in b && x[k].Obj? && b[k].Obj?
      ensures Covered(x[k].fields, b[k].fields) <==> MergeValue(x, k, b[k]) == b[k]
    {
      CoveredIff(x[k].fields, b[k].fields);
    }
    if Merge(x, b) == b {
      forall k | k in x ensures k in b { assert k in Merge(x, b); }
      forall k | k in x && x[k].Obj? && b[k].Obj? ensures Covered(x[k].fields, b[k].fields) {
        assert Merge(x, b)[k] == MergeValue(x, k, b[k]);
      }
    }
    if Covered(x, b) {
      forall k | k in b ensures MergeValue(x, k, b[k]) == b[k] {}
    }
  }

  /** Where a replaces an object of x by something else, b covers that object. */
  predicate Compatible(x: Object, a: Object, b: Object)
    decreases Obj(b)
  {
    forall k :: k in b && k in a && k in x && x[k].Obj? && b[k].Obj? ==>
      if a[k].Obj? then Compatible(x[k].fields, a[k].fields, b[k].fields) else Covered(x[k].fields, b[k].fields)
  }

  /** What compatibility demands of one field. */
  predicate FieldCompatible(x: Object, a: Object, b: Object, k: string) {
    k in b && k in a && k in x && x[k].Obj? && b[k].Obj? ==>
      if a[k].Obj? then Compatible(x[k].fields, a[k].fields, b[k].fields) else Covered(x[k].fields, b[k].fields)
  }

  /** One field of both sides of the associativity law. */
  lemma {:induction false} SequenceField(x: Object, a: Object, b: Object, k: string)
    requires k in x || k in a || k in b
    ensures Merge(Merge(x, a), b)[k] == Merge(x, Merge(a, b))[k] <==> FieldCompatible(x, a, b, k)
    decreases Obj(b), 0
  {
    var xa, ab := Merge(x, a), Merge(a, b);
    if k in b {
      assert Merge(xa, b)[k] == MergeValue(xa, k, b[k]) && Merge(x, ab)[k] == MergeValue(x, k, ab[k]);
      if k in a && k in x && x[k].Obj? && b[k].Obj? {
        if a[k].Obj? {
          MergeSequence(x[k].fields, a[k].fields, b[k].fields);
        } else {
          CoveredIff(x[k].fields, b[k].fields);
        }
      }
    }
  }

  /** Applying a and then b is applying Merge(a, b), exactly for compatible operands. */
  lemma {:induction false} MergeSequence(x: Object, a: Object, b: Object)
    ensures Merge(Merge(x, a), b) == Merge(x, Merge(a, b)) <==> Compatible(x, a, b)
    decreases Obj(b), 1
  {
    var l, r := Merge(Merge(x, a), b), Merge(x, Merge(a, b));
    assert l.Keys == r.Keys;
    forall k | k in l ensures l[k] == r[k] <==> FieldCompatible(x, a, b, k) {
      SequenceField(x, a, b, k);
    }
    if l == r {
      forall k | k in b && k in a && k in x && x[k].Obj? && b[k].Obj?
        ensures if a[k].Obj? then Compatible(x[k].fields, a[k].fields, b[k].fields)
                else Covered(x[k].fields, b[k].fields)
      {
        assert k in l && FieldCompatible(x, a, b, k);
      }
    }
    if Compatible(x, a, b) {
      forall k | k in l ensures l[k] == r[k] { assert FieldCompatible(x, a, b, k); }
    }
  }

  /** No path is an object in x, something else in a, and an object in b. */
  predicate NoReplacedObject(x: Object, a: Object, b: Object)
    decreases Obj(b)
  {
    forall k :: k in b && k in a && k in x && x[k].Obj? && b[k].Obj? ==>
      a[k].Obj? && NoReplacedObject(x[k].fields, a[k].fields, b[k].fields)
  }

  lemma {:induction false} NoReplacedObjectCompatible(x: Object, a: Object, b: Object)
    requires NoReplacedObject(x, a, b)
    ensures Compatible(x, a, b)
    decreases Obj(b)
  {
    forall k | k in b && k in a && k in x && x[k].Obj? && b[k].Obj? {
      NoReplacedObjectCompatible(x[k].fields, a[k].fields, b[k].fields);
    }
  }

  /** An object replaced by a number and then by an object: the two sides differ. */
  lemma MergeNotAssociative()
    ensures var x, a, b: Object := map["k" := Obj(map["p" := Int(1)])], map["k" := Int(0)], map["k" := Obj(map["q" := Int(2)])];
      && Merge(Merge(x, a), b) == map["k" := Obj(map["q" := Int(2)])]
      && Merge(x, Merge(a, b)) == map["k" := Obj(map["p" := Int(1), "q" := Int(2)])]
      && Merge(Merge(x, a), b) != Merge(x, Merge(a, b))
  {
    var x, a, b: Object := map["k" := Obj(map["p" := Int(1)])], map["k" := Int(0)], map["k" := Obj(map["q" := Int(2)])];
    var inner: Object := map["p" := Int(1)];
    assert Merge(x, a) == a;
    assert Merge(a, b) == b;
    assert Merge(inner, b["k"].fields) == map["p" := Int(1), "q" := Int(2)];
    assert "p" !in Merge(Merge(x, a), b)["k"].fields;
  }
}
