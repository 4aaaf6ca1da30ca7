/**
 Which parameters a profile may carry (pkg/config/request_profiles.go,
 pkg/config/validate.go), and when a profile still may after its parent's
 parameters were merged below its own.
 */
module ProfileValidation {
  import opened JsonValues
  import opened ProfileParameters
  import opened ProfileResolution

  /** Case folding, the syntax of field names, and the sizes of values and objects as JSON text. */
  datatype Text = Text(
    lower: string -> string, validName: string -> bool, size: Json -> nat, total: Object -> nat)

  const MAX_FIELDS := 64
  const MAX_VALUE := 0x10_0000
  const MAX_TOTAL := 0x40_0000
  const MAX_DEPTH := 32

  const OPERATIONS := {
    "chat_completions", "responses", "responses_compact", "messages", "messages_count_tokens", "generate_content",
    "stream_generate_content", "count_tokens", "converse", "converse_stream", "embeddings", "embed_content",
    "batch_embed_contents"}
  const STRUCTURE := {
    "contents", "system", "system_instruction", "systemInstruction", "instructions", "history", "conversation",
    "previous_response_id"}
  const PROTECTED := {
    "extra_body", "input", "messages", "model", "prompt", "stream", "stream_options", "tool_choice", "tools"}
  const STATE := {
    "store", "background", "contents", "system", "system_instruction", "systeminstruction", "instructions",
    "history", "conversation", "previous_response_id"}

  predicate AllowedField(text: Text, name: string) {
    && name !in STRUCTURE && text.validName(name)
    && text.lower(name) !in PROTECTED && text.lower(name) !in STATE
  }

  /** Which operations and fields may be set, and how large a value and an object are. */
  datatype Rules = Rules(
    operation: string -> bool, allowed: string -> bool, size: Json -> nat, total: Object -> nat)

  function ProfileRules(text: Text): Rules {
    Rules(op => op in OPERATIONS, name => AllowedField(text, name), text.size, text.total)
  }

  /** The value at this nesting level goes no deeper than the limit. */
  predicate Bounded(value: Json, depth: nat)
    decreases value
  {
    && depth <= MAX_DEPTH
    && match value
       case Obj(fields) => forall k :: k in fields ==> Bounded(fields[k], depth + 1)
       case Arr(items) => forall i :: 0 <= i < |items| ==> Bounded(items[i], depth + 1)
       case _ => true
  }

  predicate WithinLimits(rules: Rules, params: Object) {
    && |params.Keys| <= MAX_FIELDS && rules.total(params) <= MAX_TOTAL
    && forall k :: k in params ==> rules.size(params[k]) <= MAX_VALUE
  }

  predicate ValidField(rules: Rules, params: Object, k: string)
    requires k in params
  {
    rules.allowed(k) && Bounded(params[k], 4)
  }

  predicate ValidObject(rules: Rules, params: Object) {
    params != map[] && WithinLimits(rules, params) && forall k :: k in params ==> ValidField(rules, params, k)
  }

  /** Parameters that a profile may carry. */
  predicate Valid(rules: Rules, values: Parameters) {
    forall op :: op in values ==> ValidOperation(rules, values, op)
  }

  predicate ValidOperation(rules: Rules, values: Parameters, op: string)
    requires op in values
  {
    rules.operation(op) && ValidObject(rules, values[op])
  }

  // -------------------------------------------------------------------------
  // Under a parent

  /** The parent's parameters with the child's merged over them. */
  function MergeParameters(parent: Parameters, child: Parameters): Parameters {
    map op | op in parent.Keys + child.Keys ::
      if op in child then Merge(At(parent, op), child[op]) else parent[op]
  }

  /** What is left of the parent's value below the child's is no deeper than the limit. */
  predicate RestBounded(parent: Json, child: Json, depth: nat)
    decreases child
  {
    parent.Obj? && child.Obj? ==>
      forall k :: k in parent.fields ==>
        if k in child.fields then RestBounded(parent.fields[k], child.fields[k], depth + 1)
        else Bounded(parent.fields[k], depth + 1)
  }

  /** A field of the parent is not forbidden, and nothing of it is too deep outside what the child replaces. */
  predicate FieldFits(rules: Rules, parent: Object, child: Object, k: string)
    requires k in parent
  {
    rules.allowed(k) && if k in child then RestBounded(parent[k], child[k], 4) else Bounded(parent[k], 4)
  }

  /**
   One operation of the parent may be inherited: its fields fit, it is not empty
   unless the child fills it, and the two together are within the limits.
   */
  predicate Inheritable(rules: Rules, parent: Object, child: Object) {
    && (parent != map[] || child != map[])
    && (forall k :: k in parent ==> FieldFits(rules, parent, child, k))
    && WithinLimits(rules, Merge(parent, child))
  }

  predicate OperationFits(rules: Rules, parent: Parameters, child: Parameters, op: string)
    requires op in parent
  {
    rules.operation(op) && Inheritable(rules, parent[op], At(child, op))
  }

  predicate ParentFits(rules: Rules, parent: Parameters, child: Parameters) {
    forall op :: op in parent ==> OperationFits(rules, parent, child, op)
  }

  /** Where the values of a merge come from. */
  lemma MergedField(parent: Object, child: Object, k: string)
    ensures k in Merge(parent, child) <==> k in parent || k in child
    ensures k in child && k in parent ==> Merge(parent, child)[k] == MergeValue(parent, k, child[k])
    ensures k in child && k !in parent ==> Merge(parent, child)[k] == child[k]
    ensures k in parent && k !in child ==> Merge(parent, child)[k] == parent[k]
  {}

  lemma {:induction false} MergedBounded(base: Object, key: string, child: Json, depth: nat)
    requires key in base
    ensures Bounded(MergeValue(base, key, child), depth) <==> Bounded(child, depth) && RestBounded(base[key], child, depth)
    decreases child
  {
    if base[key].Obj? && child.Obj? {
      var p, c := base[key].fields, child.fields;
      var m := Merge(p, c);
      forall k
        ensures k in m <==> k in p || k in c
        ensures k in m ==>
          (Bounded(m[k], depth + 1) <==>
           && (k in c ==> Bounded(c[k], depth + 1))
           && (k in p ==> if k in c then RestBounded(p[k], c[k], depth + 1) else Bounded(p[k], depth + 1)))
      {
        MergedField(p, c, k);
        if k in p && k in c { MergedBounded(p, k, c[k], depth + 1); }
      }
    }
  }

  lemma MergeNothing(o: Object)
    ensures Merge(o, map[]) == o && Merge(map[], o) == o
  {
    forall k ensures k in Merge(map[], o) <==> k in o { MergedField(map[], o, k); }
    forall k | k in o ensures Merge(map[], o)[k] == o[k] { MergedField(map[], o, k); }
  }

  /** One field of the merged object is valid exactly when the parent's, if there is one, fits. */
  lemma FieldInherited(rules: Rules, parent: Object, child: Object, k: string)
    requires k in child ==> ValidField(rules, child, k)
    requires k in parent || k in child
    ensures k in Merge(parent, child)
    ensures ValidField(rules, Merge(parent, child), k) <==> (k in parent ==> FieldFits(rules, parent, child, k))
  {
    MergedField(parent, child, k);
    if k in parent && k in child { MergedBounded(parent, k, child[k], 4); }
  }

  lemma MergedEmpty(parent: Object, child: Object)
    ensures Merge(parent, child) == map[] <==> parent == map[] && child == map[]
  {
    if k :| k in parent || k in child { MergedField(parent, child, k); }
  }

  /** One operation: the merged object is valid exactly when the parent's may be inherited. */
  lemma ObjectInherited(rules: Rules, parent: Object, child: Object)
    requires forall k :: k in child ==> ValidField(rules, child, k)
    ensures ValidObject(rules, Merge(parent, child)) <==> Inheritable(rules, parent, child)
  {
    var m := Merge(parent, child);
    MergedEmpty(parent, child);
    if ValidObject(rules, m) {
      forall k | k in parent ensures FieldFits(rules, parent, child, k) {
        FieldInherited(rules, parent, child, k);
      }
    }
    if Inheritable(rules, parent, child) {
      forall k | k in m ensures ValidField(rules, m, k) {
        MergedField(parent, child, k);
        FieldInherited(rules, parent, child, k);
      }
    }
  }

  /** One operation of the merged parameters. */
  lemma OperationInherited(rules: Rules, parent: Parameters, child: Parameters, op: string)
    requires op in child ==> ValidOperation(rules, child, op)
    requires op in parent || op in child
    ensures op in MergeParameters(parent, child)
    ensures ValidOperation(rules, MergeParameters(parent, child), op) <==>
      (op in parent ==> OperationFits(rules, parent, child, op))
  {
    MergeNothing(At(parent, op));
    MergeNothing(At(child, op));
    ObjectInherited(rules, At(parent, op), At(child, op));
  }

  /** A valid profile stays valid under its parent if and only if the parent's parameters fit. */
  lemma MergedValid(rules: Rules, parent: Parameters, child: Parameters)
    requires Valid(rules, child)
    ensures Valid(rules, MergeParameters(parent, child)) <==> ParentFits(rules, parent, child)
  {
    if Valid(rules, MergeParameters(parent, child)) {
      forall op | op in parent ensures OperationFits(rules, parent, child, op) {
        OperationInherited(rules, parent, child, op);
      }
    }
    if ParentFits(rules, parent, child) {
      forall op | op in MergeParameters(parent, child)
        ensures ValidOperation(rules, MergeParameters(parent, child), op)
      {
        OperationInherited(rules, parent, child, op);
      }
    }
  }
}
