/** The system prompt for the AI step: a template's base prompt, followed by
    the brand's `system_prompt` override when it has one, with every
    placeholder then resolved against the context state. */
module PromptBuilder {
  import opened Optional
  import opened Values
  import opened Placeholders
  import Text

  /** A global prompt template, reduced to its `base_prompt` column. */
  datatype TemplateRow = TemplateRow(id: nat, basePrompt: Option<string>)

  /** A brand's link to a template, reduced to its `overrides` JSON column. */
  datatype BrandTemplateRow = BrandTemplateRow(overrides: Value)

  const DefaultPrompt: string :=
    "You are an AI assistant for a business. Always respond clearly and concisely.\n"

  /** `brand_template&.overrides&.dig("system_prompt")`, and then the
      `"\n\n" + override` concatenation: `Ok(None)` when there is nothing to
      append; `Raises` when `overrides` is not a hash (`dig` is undefined or
      wants an integer) or the override is a truthy non-string (`+` raises
      `TypeError`). */
  function Override(bt: Option<BrandTemplateRow>): (r: Outcome<Option<string>>)
    ensures bt.None? || bt.value.overrides.Null? ==> r == Ok(None)
    ensures bt.Some? && bt.value.overrides.Hash? && At(bt.value.overrides.fields, "system_prompt").Str? ==>
              r == Ok(Some(At(bt.value.overrides.fields, "system_prompt").s))
    ensures bt.Some? && bt.value.overrides.Hash? && !Truthy(At(bt.value.overrides.fields, "system_prompt")) ==>
              r == Ok(None)
  {
    match bt
    case None => Ok(None)
    case Some(row) =>
      match row.overrides
      case Null => Ok(None)
      case Hash(m) =>
        var v := At(m, "system_prompt");
        if !Truthy(v) then Ok(None)
        else if v.Str? then Ok(Some(v.s))
        else Raises("TypeError: no implicit conversion into String")
      case _ => Raises("NoMethodError: undefined method 'dig'")
  }

  /** `PromptBuilder.build`. A template whose `base_prompt` is NULL makes the
      later `+` or `gsub` raise. */
  function Build(template: Option<TemplateRow>, bt: Option<BrandTemplateRow>,
                 state: map<string, Value>, inspect: Inspector): (r: Outcome<string>)
    ensures template.None? ==> r == Ok(DefaultPrompt)
    ensures template.Some? && template.value.basePrompt.None? ==> r.Raises?
    ensures template.Some? && Override(bt).Raises? ==> r.Raises?
    ensures template.Some? && template.value.basePrompt.Some? && Override(bt) == Ok(None) ==>
              r == Ok(Render(template.value.basePrompt.value, state, inspect))
    ensures template.Some? && template.value.basePrompt.Some? && Override(bt).Ok? && Override(bt).value.Some? ==>
              r == Ok(Render(template.value.basePrompt.value + "\n\n" + Override(bt).value.value, state, inspect))
  {
    match template
    case None => Ok(DefaultPrompt)
    case Some(t) =>
      match t.basePrompt
      case None => Raises("NoMethodError: undefined method for nil")
      case Some(base) =>
        match Override(bt)
        case Raises(e) => Raises(e)
        case Ok(None) => Ok(Render(base, state, inspect))
        case Ok(Some(o)) => Ok(Render(base + "\n\n" + o, state, inspect))
  }

  // ---------------------------------------------------------------------
  // Properties

  /** Without a template the default prompt is used, whatever the brand's
      override and the context hold. */
  lemma NoTemplateDefault(bt1: Option<BrandTemplateRow>, bt2: Option<BrandTemplateRow>,
                          s1: map<string, Value>, s2: map<string, Value>, inspect: Inspector)
    ensures Build(None, bt1, s1, inspect) == Build(None, bt2, s2, inspect) == Ok(DefaultPrompt)
  {
  }

  /** The override is substituted like the base prompt, and independently
      of it: a placeholder never spans the blank line between them. */
  lemma OverrideRenderedSeparately(base: string, o: string, state: map<string, Value>, inspect: Inspector)
    ensures Render(base + "\n\n" + o, state, inspect) ==
            Render(base, state, inspect) + "\n\n" + Render(o, state, inspect)
  {
    SubstAtBlankLine(base, o, Resolver(state, inspect));
  }

  /** With an override, the prompt is the rendered base prompt, a blank
      line, and the rendered override. */
  lemma BuildWithOverride(t: TemplateRow, bt: BrandTemplateRow, state: map<string, Value>, inspect: Inspector)
    requires t.basePrompt.Some?
    requires bt.overrides.Hash? && At(bt.overrides.fields, "system_prompt").Str?
    ensures Build(Some(t), Some(bt), state, inspect) ==
            Ok(Render(t.basePrompt.value, state, inspect) + "\n\n" +
               Render(At(bt.overrides.fields, "system_prompt").s, state, inspect))
  {
    OverrideRenderedSeparately(t.basePrompt.value, At(bt.overrides.fields, "system_prompt").s, state, inspect);
  }

  /** Prompt text without placeholders is used as it is. */
  lemma BuildVerbatim(t: TemplateRow, bt: Option<BrandTemplateRow>, state: map<string, Value>, inspect: Inspector)
    requires t.basePrompt.Some? && !HasPlaceholder(t.basePrompt.value)
    requires Override(bt) == Ok(None)
    ensures Build(Some(t), bt, state, inspect) == Ok(t.basePrompt.value)
  {
    Verbatim(t.basePrompt.value, Resolver(state, inspect));
  }

  /** A placeholder in the override is resolved from the context. */
  lemma OverridePlaceholderResolved(t: TemplateRow, bt: BrandTemplateRow, key: string,
                                    state: map<string, Value>, inspect: Inspector)
    requires t.basePrompt.Some? && !HasPlaceholder(t.basePrompt.value)
    requires key != "" && '.' !in key && '}' !in key && '\n' !in key
    requires bt.overrides.Hash? && At(bt.overrides.fields, "system_prompt") == Str(Open + key + Close)
    ensures Build(Some(t), Some(bt), state, inspect) ==
            Ok(t.basePrompt.value + "\n\n" + ToS(At(state, key), inspect))
  {
    BuildWithOverride(t, bt, state, inspect);
    Verbatim(t.basePrompt.value, Resolver(state, inspect));
    SinglePlaceholder(state, inspect, key);
  }
}
