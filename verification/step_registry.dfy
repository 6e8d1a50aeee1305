/** The table from step-type tags to handler classes. Tags are normalised
    with `to_s` on both registration and lookup. */
module StepRegistry {
  import opened Optional
  import opened Values

  /** The handler classes the registry can hold. The five placeholder
      handlers are named but have no implementation in the repository. */
  datatype Handler =
    | AskStep
    | AiStep
    | SaveStep
    | NotifyStep
    | CalendarSyncStep
    | BranchStep
    | WaitStep
    | EventLogStep
    | ChatStep
    | ResponseStep
    | OtherHandler(name: string)

  type Registry = map<string, Handler>

  /** `register(type, klass)`: `resolve(type)` now gives `klass`, and every
      other tag resolves as before. */
  function Register(reg: Registry, tag: Key, h: Handler): (r: Registry)
    ensures Resolve(r, tag) == Some(h)
    ensures forall t: Key | KeyName(t) != KeyName(tag) :: Resolve(r, t) == Resolve(reg, t)
  {
    reg[KeyName(tag) := h]
  }

  /** `resolve(type)`: the registered handler, or `nil`. */
  function Resolve(reg: Registry, tag: Key): (r: Option<Handler>)
    ensures r.None? <==> KeyName(tag) !in reg
  {
    if KeyName(tag) in reg then Some(reg[KeyName(tag)]) else None
  }

  /** The tags registered when the class loads. */
  const BuiltinTags: set<string> :=
    {"ask", "ai", "save", "notify", "calendar_sync", "branch", "wait", "event_log"}

  /** The registrations made at load time, in source order. */
  function Builtins(): (r: Registry)
    ensures r.Keys == BuiltinTags
  {
    var r0: Registry := map[];
    var r1 := Register(r0, StringKey("ask"), AskStep);
    var r2 := Register(r1, StringKey("ai"), AiStep);
    var r3 := Register(r2, StringKey("save"), SaveStep);
    var r4 := Register(r3, StringKey("notify"), NotifyStep);
    var r5 := Register(r4, StringKey("calendar_sync"), CalendarSyncStep);
    var r6 := Register(r5, StringKey("branch"), BranchStep);
    var r7 := Register(r6, StringKey("wait"), WaitStep);
    Register(r7, StringKey("event_log"), EventLogStep)
  }

  /** At load time the three executable built-ins resolve to their classes,
      while `chat` and `response` resolve to nothing. */
  lemma BuiltinResolution()
    ensures Resolve(Builtins(), StringKey("ask")) == Some(AskStep)
    ensures Resolve(Builtins(), Symbol("ai")) == Some(AiStep)
    ensures Resolve(Builtins(), StringKey("save")) == Some(SaveStep)
    ensures Resolve(Builtins(), StringKey("event_log")) == Some(EventLogStep)
    ensures Resolve(Builtins(), StringKey("chat")).None?
    ensures Resolve(Builtins(), StringKey("response")).None?
    ensures Resolve(Builtins(), StringKey("unknown")).None?
  {
  }

  /** Registering the same tag twice keeps only the second handler. */
  lemma ReRegisterReplaces(reg: Registry, tag: Key, h1: Handler, h2: Handler)
    ensures Register(Register(reg, tag, h1), tag, h2) == Register(reg, tag, h2)
  {
  }
}
