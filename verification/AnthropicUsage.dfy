/** Token usage of the Anthropic Messages API (pkg/gateway/anthropic_usage.go). */
module AnthropicUsage {
  import opened Options
  import opened JsonValues
  import opened ChatChunks

  datatype Completeness = Missing | Partial | Complete

  datatype TokenUsage = TokenUsage(
    input: Option<int>, output: Option<int>, cached: Option<int>,
    cacheCreation: Option<int>, reasoning: Option<int>,
    total: Option<int>, completeness: Completeness)

  const MISSING := TokenUsage(None, None, None, None, None, None, Missing)

  function Tokens(value: Option<int>): int {
    if value.Some? then value.value else 0
  }

  /** A counter decoded through a pointer: outer `None` is a decoding error, and
      absent, `null` and negative counters are all unreported. */
  function Counter(o: Object, key: string): Option<Option<int>> {
    if !NonNull(o, key) then Some(None)
    else match o[key]
      case Int(n) =>
        if n < MIN_INT64 || n > MAX_INT64 then None
        else Some(if n < 0 then None else Some(n))
      case _ => None
  }

  predicate NilOrObject(o: Object, key: string) {
    NonNull(o, key) ==> o[key].Obj?
  }

  function Details(o: Object): Object {
    if "output_tokens_details" in o && o["output_tokens_details"].Obj?
    then o["output_tokens_details"].fields else map[]
  }

  /** The struct decodes without error. */
  predicate Decodes(o: Object) {
    && Counter(o, "input_tokens").Some?
    && Counter(o, "output_tokens").Some?
    && Counter(o, "cache_creation_input_tokens").Some?
    && Counter(o, "cache_read_input_tokens").Some?
    && NilOrObject(o, "output_tokens_details")
    && Counter(Details(o), "thinking_tokens").Some?
    && NilOrObject(o, "cache_creation")
    && NilOrObject(o, "server_tool_use")
  }

  function Completed(u: TokenUsage): TokenUsage {
    if u.input.None? || u.output.None? then u
    else
      u.(total := Some(u.input.value + u.output.value + Tokens(u.cached) + Tokens(u.cacheCreation)),
         completeness := Complete)
  }

  function Parse(o: Object): TokenUsage
    requires Decodes(o)
  {
    Completed(TokenUsage(
      Counter(o, "input_tokens").value,
      Counter(o, "output_tokens").value,
      Counter(o, "cache_read_input_tokens").value,
      Counter(o, "cache_creation_input_tokens").value,
      Counter(Details(o), "thinking_tokens").value,
      None, Partial))
  }

  /** The usage object of a payload: top level, or else inside `message`. */
  function UsageObject(envelope: Object): Option<Json> {
    if NonNull(envelope, "usage") then Some(envelope["usage"])
    else if NonNull(envelope, "message") && envelope["message"].Obj?
            && NonNull(envelope["message"].fields, "usage")
    then Some(envelope["message"].fields["usage"])
    else None
  }

  /** `extractAnthropicMessagesUsage`; `None` when it reports "not found". */
  function Extract(envelope: Object): Option<Object> {
    match UsageObject(envelope)
    case Some(Obj(o)) => if Decodes(o) then Some(o) else None
    case _ => None
  }

  function Later(current: Option<int>, next: Option<int>): Option<int> {
    if next.Some? then next else current
  }

  /** `mergeUsage`: counters the later report carries replace earlier ones. */
  function Merge(current: TokenUsage, next: TokenUsage): TokenUsage {
    Completed(TokenUsage(
      Later(current.input, next.input), Later(current.output, next.output),
      Later(current.cached, next.cached), Later(current.cacheCreation, next.cacheCreation),
      Later(current.reasoning, next.reasoning), current.total, Partial))
  }

  function ToChat(u: TokenUsage): ChatUsage {
    ChatUsage(
      Tokens(u.input) + Tokens(u.cached) + Tokens(u.cacheCreation),
      Tokens(u.output), Tokens(u.total), u.cached, u.reasoning)
  }

  // -------------------------------------------------------------------------
  // Merging reports is decoding the overlaid objects

  /** The value says something: a counter that is not negative, or any other non-null value. */
  predicate Reported(j: Json) {
    !j.Null? && (j.Int? ==> j.n >= 0)
  }

  function OverlayFields(current: Object, next: Object): Object {
    map k | k in current.Keys + next.Keys ::
      if k in next && (Reported(next[k]) || k !in current) then next[k] else current[k]
  }

  /** One usage object out of two reports of the same stream. */
  function Overlay(current: Object, next: Object): Object {
    var o := OverlayFields(current, next);
    var k := "output_tokens_details";
    if k in current && k in next && current[k].Obj? && next[k].Obj?
    then o[k := Obj(OverlayFields(current[k].fields, next[k].fields))] else o
  }

  lemma CounterOverlay(current: Object, next: Object, key: string)
    requires Counter(current, key).Some? && Counter(next, key).Some?
    ensures Counter(OverlayFields(current, next), key)
            == Some(Later(Counter(current, key).value, Counter(next, key).value))
  {}

  /** Outside the details object the overlay works field by field. */
  lemma OverlayAt(current: Object, next: Object, key: string)
    requires key != "output_tokens_details"
    requires Counter(current, key).Some? && Counter(next, key).Some?
    ensures Counter(Overlay(current, next), key)
            == Some(Later(Counter(current, key).value, Counter(next, key).value))
  {
    CounterOverlay(current, next, key);
  }

  lemma NilOrObjectOverlay(current: Object, next: Object, key: string)
    requires NilOrObject(current, key) && NilOrObject(next, key)
    ensures NilOrObject(Overlay(current, next), key)
  {}

  lemma DetailsOverlay(current: Object, next: Object)
    requires NilOrObject(current, "output_tokens_details") && NilOrObject(next, "output_tokens_details")
    requires Counter(Details(current), "thinking_tokens").Some? && Counter(Details(next), "thinking_tokens").Some?
    ensures NilOrObject(Overlay(current, next), "output_tokens_details")
    ensures Counter(Details(Overlay(current, next)), "thinking_tokens")
            == Some(Later(Counter(Details(current), "thinking_tokens").value,
                          Counter(Details(next), "thinking_tokens").value))
  {
    CounterOverlay(Details(current), Details(next), "thinking_tokens");
  }

  lemma DecodesOverlay(current: Object, next: Object)
    requires Decodes(current) && Decodes(next)
    ensures Decodes(Overlay(current, next))
  {
    OverlayAt(current, next, "input_tokens");
    OverlayAt(current, next, "output_tokens");
    OverlayAt(current, next, "cache_creation_input_tokens");
    OverlayAt(current, next, "cache_read_input_tokens");
    DetailsOverlay(current, next);
    NilOrObjectOverlay(current, next, "cache_creation");
    NilOrObjectOverlay(current, next, "server_tool_use");
  }

  /** Decoding the overlay of two reports gives the merge of the decoded reports. */
  lemma MergeIsOverlay(current: Object, next: Object)
    requires Decodes(current) && Decodes(next)
    ensures Decodes(Overlay(current, next))
    ensures Parse(Overlay(current, next)) == Merge(Parse(current), Parse(next))
  {
    DecodesOverlay(current, next);
    OverlayAt(current, next, "input_tokens");
    OverlayAt(current, next, "output_tokens");
    OverlayAt(current, next, "cache_creation_input_tokens");
    OverlayAt(current, next, "cache_read_input_tokens");
    DetailsOverlay(current, next);
  }

  /** The total is the sum of what the counters report. */
  predicate Balanced(u: TokenUsage) {
    && (u.completeness.Complete? <==> u.input.Some? && u.output.Some?)
    && (u.completeness.Complete? ==>
          u.total == Some(u.input.value + u.output.value + Tokens(u.cached) + Tokens(u.cacheCreation)))
    && (!u.completeness.Complete? ==> u.total.None?)
  }

  lemma MergeBalanced(current: TokenUsage, next: TokenUsage)
    requires Balanced(current)
    ensures Balanced(MISSING) && Balanced(Merge(current, next))
  {}

  lemma FirstReport(o: Object)
    requires Decodes(o)
    ensures Merge(MISSING, Parse(o)) == Parse(o)
  {}

  /** Every complete usage is presented with prompt plus completion equal to total. */
  lemma ChatUsageAddsUp(u: TokenUsage)
    requires Balanced(u) && u.completeness.Complete?
    ensures ToChat(u).prompt + ToChat(u).completion == ToChat(u).total
  {}
}
