/** The ask step: records its question as the pending question and halts. */
module AskStep {
  import opened Values
  import opened WorkflowContext
  import opened BaseStep

  /** `call`: `last_question` holds `step["question"]` (nil when the step has
      none), the step halts, and nothing else in the context changes. */
  function Call(ctx: Context, step: StepDef): (o: StepOutcome)
    ensures o.Done? && o.result == Halt
    ensures Get(o.ctx, Symbol("last_question")) == Field(step, "question")
    ensures "question" !in step ==> Get(o.ctx, StringKey("last_question")) == Null
    ensures o.ctx.state.Keys == ctx.state.Keys + {"last_question"}
    ensures forall n | n in ctx.state && n != "last_question" :: o.ctx.state[n] == ctx.state[n]
    ensures o.ctx.cursor == ctx.cursor && o.ctx.errors == ctx.errors
    ensures o.ctx.outputs == ctx.outputs && o.ctx.customer == ctx.customer
  {
    Done(Set(ctx, Symbol("last_question"), Field(step, "question")), Halt)
  }
}
