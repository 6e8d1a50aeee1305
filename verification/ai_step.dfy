/** The AI step: builds the system prompt, calls the language model with
    the step's instruction and the context state, and stores the raw reply
    under `<variable>_raw` and the reply's JSON object (or the raw reply)
    under `<variable>`.

    The template tables, the model gateway and `JSON.parse` are parameters. */
module AiStep {
  import opened Optional
  import opened Values
  import opened WorkflowContext
  import opened BaseStep
  import opened PromptBuilder
  import JsonExtractor

  /** The template lookups the step makes. */
  datatype Tables = Tables(
    templateById: Value -> Option<TemplateRow>,
    templateByName: string -> Option<TemplateRow>,
    brandTemplate: (nat, nat) -> Option<BrandTemplateRow>)

  /** `AiGateway.call(instruction:, system_prompt:, context:)`: the reply
      text, or `nil`. */
  type Gateway = (Value, string, map<string, Value>) -> Option<string>

  /** `resolve_template`: by id when the step names one, else the template
      called `"default"`. */
  function ResolveTemplate(step: StepDef, tables: Tables): (r: Option<TemplateRow>)
    ensures Truthy(Field(step, "template_id")) ==> r == tables.templateById(Field(step, "template_id"))
    ensures !Truthy(Field(step, "template_id")) ==> r == tables.templateByName("default")
  {
    var id := Field(step, "template_id");
    if Truthy(id) then tables.templateById(id) else tables.templateByName("default")
  }

  /** `resolve_brand_template`: only with both a template and a customer,
      the link between the template and the customer's brand. */
  function ResolveBrandTemplate(template: Option<TemplateRow>, ctx: Context, tables: Tables): (r: Option<BrandTemplateRow>)
    ensures template.None? || ctx.customer.None? ==> r.None?
    ensures template.Some? && ctx.customer.Some? ==>
              r == tables.brandTemplate(template.value.id, ctx.customer.value.brandId)
  {
    match (template, ctx.customer)
    case (Some(t), Some(c)) => tables.brandTemplate(t.id, c.brandId)
    case _ => None
  }

  /** What the step stores under `variable`: a non-empty JSON object pulled
      from the reply, or else the reply text itself. */
  function Structured(raw: string, parse: JsonExtractor.JsonParser): (v: Value)
    ensures v.Hash? <==> JsonExtractor.Extract(raw, parse).Some? &&
                         JsonExtractor.Extract(raw, parse).value.Hash? &&
                         |JsonExtractor.Extract(raw, parse).value.fields| > 0
    ensures v.Hash? ==> v == JsonExtractor.Extract(raw, parse).value
    ensures !v.Hash? ==> v == Str(raw)
  {
    match JsonExtractor.Extract(raw, parse)
    case Some(Hash(m)) => if |m| > 0 then Hash(m) else Str(raw)
    case _ => Str(raw)
  }

  /** The system prompt the step sends. */
  function SystemPrompt(ctx: Context, step: StepDef, inspect: Inspector, tables: Tables): Outcome<string> {
    var template := ResolveTemplate(step, tables);
    Build(template, ResolveBrandTemplate(template, ctx, tables), ctx.state, inspect)
  }

  /** `call`. */
  function Call(ctx: Context, step: StepDef, inspect: Inspector, tables: Tables,
                gateway: Gateway, parse: JsonExtractor.JsonParser): (o: StepOutcome)
    // the step never replies or halts, and raises only while building the prompt
    ensures o.Done? ==> o.result == Continue
    ensures o.Raised? <==> SystemPrompt(ctx, step, inspect, tables).Raises?
    // nothing is stored when the model gives no reply
    ensures SystemPrompt(ctx, step, inspect, tables).Ok? &&
            gateway(Field(step, "instruction"), SystemPrompt(ctx, step, inspect, tables).value, ctx.state).None? ==>
              o == Done(ctx, Continue)
    // otherwise the raw reply and its structured form are stored, and nothing else changes
    ensures SystemPrompt(ctx, step, inspect, tables).Ok? &&
            gateway(Field(step, "instruction"), SystemPrompt(ctx, step, inspect, tables).value, ctx.state).Some? ==>
              var raw := gateway(Field(step, "instruction"), SystemPrompt(ctx, step, inspect, tables).value, ctx.state).value;
              var name := ToS(Field(step, "variable"), inspect);
              o.Done? &&
              Get(o.ctx, StringKey(name + "_raw")) == Str(raw) &&
              Get(o.ctx, StringKey(name)) == Structured(raw, parse) &&
              o.ctx.state.Keys == ctx.state.Keys + {name, name + "_raw"} &&
              (forall k | k in ctx.state && k != name && k != name + "_raw" :: o.ctx.state[k] == ctx.state[k]) &&
              o.ctx.cursor == ctx.cursor && o.ctx.errors == ctx.errors && o.ctx.outputs == ctx.outputs &&
              o.ctx.customer == ctx.customer
  {
    match SystemPrompt(ctx, step, inspect, tables)
    case Raises(e) => Raised(e)
    case Ok(prompt) =>
      match gateway(Field(step, "instruction"), prompt, ctx.state)
      case None => Done(ctx, Continue)
      case Some(raw) =>
        var name := ToS(Field(step, "variable"), inspect);
        var c1 := Set(ctx, StringKey(name + "_raw"), Str(raw));
        var c2 := Set(c1, StringKey(name), Structured(raw, parse));
        assert name != name + "_raw" by { assert |name + "_raw"| == |name| + 4; }
        Done(c2, Continue)
  }

  // ---------------------------------------------------------------------
  // Properties

  /** A reply that is not JSON (or parses to an empty object or to an
      array) is stored as text under both keys. */
  lemma PlainReplyStoredTwice(raw: string, parse: JsonExtractor.JsonParser)
    requires JsonExtractor.Extract(raw, parse).None? ||
             !JsonExtractor.Extract(raw, parse).value.Hash? ||
             JsonExtractor.Extract(raw, parse).value.fields == map[]
    ensures Structured(raw, parse) == Str(raw)
  {
  }

  /** A reply whose JSON object has entries is stored as that object. */
  lemma ObjectReplyStructured(raw: string, parse: JsonExtractor.JsonParser, m: map<string, Value>)
    requires JsonExtractor.Extract(raw, parse) == Some(Hash(m)) && m != map[]
    ensures Structured(raw, parse) == Hash(m)
  {
  }

  /** With no `variable` the keys are `"_raw"` and `""`. */
  lemma MissingVariableKeys(ctx: Context, step: StepDef, inspect: Inspector, tables: Tables,
                            gateway: Gateway, parse: JsonExtractor.JsonParser)
    requires "variable" !in step
    requires SystemPrompt(ctx, step, inspect, tables).Ok?
    requires gateway(Field(step, "instruction"), SystemPrompt(ctx, step, inspect, tables).value, ctx.state).Some?
    ensures "_raw" in Call(ctx, step, inspect, tables, gateway, parse).ctx.state
    ensures "" in Call(ctx, step, inspect, tables, gateway, parse).ctx.state
  {
    assert ToS(Field(step, "variable"), inspect) == "";
    assert "" + "_raw" == "_raw";
  }

  /** Without a customer no brand override is looked up, so the prompt is
      the template's own. */
  lemma NoCustomerNoOverride(ctx: Context, step: StepDef, inspect: Inspector, tables: Tables)
    requires ctx.customer.None?
    ensures SystemPrompt(ctx, step, inspect, tables) == Build(ResolveTemplate(step, tables), None, ctx.state, inspect)
  {
  }
}
