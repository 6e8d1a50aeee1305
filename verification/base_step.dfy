/** The contract every step handler shares: it receives the context and
    its step definition and returns a reply string, the halt signal, or
    nothing, after applying its effects to the context. A Ruby exception
    escaping the handler is `Raised`. */
module BaseStep {
  import opened Values
  import opened WorkflowContext

  /** A step definition: the JSON object stored in the workflow's list. */
  type StepDef = map<string, Value>

  /** `step["field"]`: the field, or `nil`. */
  function Field(step: StepDef, name: string): (v: Value)
    ensures name !in step ==> v == Null
  {
    At(step, name)
  }

  /** What `call` returns: `nil`, `:halt`, or a String. */
  datatype StepResult = Continue | Halt | Reply(text: string)

  datatype StepOutcome =
    | Done(ctx: Context, result: StepResult)
    | Raised(reason: string)
}
