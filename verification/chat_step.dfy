/** The chat step: loads the conversation named by `conversation_id`,
    refreshes the memory facts every few turns, builds a system prompt
    with the memory block, and asks the language model to answer the latest
    user message from the last three messages. Every path ends in a reply
    string.

    The conversation lookup, the memory extraction call and the chat model
    call are parameters. */
module ChatStep {
  import opened Optional
  import opened Values
  import opened WorkflowContext
  import opened BaseStep
  import opened Turns
  import MemoryBank
  import Text

  /** A stored conversation: its messages in creation order and its
      `workflow_context` JSON column (`Null` when the column is NULL). */
  datatype Conversation = Conversation(messages: seq<Turn>, workflowContext: Value)

  /** `Conversation.find_by(id:)`. */
  type Finder = Value -> Option<Conversation>

  /** A chat model call taking the instruction, the system prompt and the
      message history; `None` is a missing reply. */
  type ChatGateway = (string, Value, seq<Turn>) -> Option<string>

  const NoAccess: string := "I'm sorry, I couldn't access the conversation."
  const NotFound: string := "I'm sorry, I couldn't find the conversation."
  const Ready: string := "I'm ready to help! What can I do for you?"
  const Apology: string := "I'm sorry, I couldn't generate a response. Please try again."

  /** Turns between two memory extractions. */
  const RefreshEvery: int := 3
  /** Messages sent with each request. */
  const Window: nat := 3

  const DefaultPrompt: string :=
    "You are a helpful and friendly assistant for booking appointments and consultations.\n" +
    "You should:\n" +
    "- Be conversational and natural\n" +
    "- Ask clarifying questions when needed\n" +
    "- Remember information from the conversation\n" +
    "- Help users book appointments by collecting: name, preferred date/time, and reason for visit\n" +
    "- Be concise but friendly\n" +
    "- Confirm details before finalizing bookings\n" +
    "\n" +
    "Respond naturally to the user's messages. Keep responses short and conversational.\n"

  // ---------------------------------------------------------------------
  // Reading the stored blob

  /** `conversation.workflow_context || {}`. */
  function Blob(c: Conversation): (v: Value)
    ensures Truthy(v)
    ensures Truthy(c.workflowContext) ==> v == c.workflowContext
  {
    if Truthy(c.workflowContext) then c.workflowContext else Hash(map[])
  }

  /** `blob.dig("state", key)`: `nil` when a level is missing, and an
      exception when a level present on the way is not a hash. */
  function Dig(blob: Value, key: string): (r: Outcome<Value>)
    ensures r.Ok? <==> blob.Hash? && (At(blob.fields, "state").Null? || At(blob.fields, "state").Hash?)
    ensures r.Ok? && At(blob.fields, "state").Null? ==> r.value == Null
    ensures r.Ok? && At(blob.fields, "state").Hash? ==> r.value == At(At(blob.fields, "state").fields, key)
  {
    if !blob.Hash? then Raises("NoMethodError: undefined method 'dig'")
    else
      var state := At(blob.fields, "state");
      if state.Null? then Ok(Null)
      else if state.Hash? then Ok(At(state.fields, key))
      else Raises("TypeError: does not have #dig method")
  }

  /** `dig("state", "memory") || {}`, which must be a hash. */
  function StoredMemory(blob: Value): (r: Outcome<MemoryBank.Memory>)
    ensures r.Ok? <==> Dig(blob, "memory").Ok? &&
                       (!Truthy(Dig(blob, "memory").value) || Dig(blob, "memory").value.Hash?)
    ensures r.Ok? && Dig(blob, "memory").value.Hash? ==> r.value == Dig(blob, "memory").value.fields
    ensures r.Ok? && !Truthy(Dig(blob, "memory").value) ==> r.value == map[]
  {
    match Dig(blob, "memory")
    case Raises(e) => Raises(e)
    case Ok(v) =>
      if !Truthy(v) then Ok(map[])
      else if v.Hash? then Ok(v.fields)
      else Raises("NoMethodError: memory is not a hash")
  }

  /** `dig("state", "messages_since_extraction") || 0`, which must be an
      integer for the comparison with 3. */
  function StoredCounter(blob: Value): (r: Outcome<int>)
    ensures r.Ok? <==> Dig(blob, "messages_since_extraction").Ok? &&
                       (!Truthy(Dig(blob, "messages_since_extraction").value) ||
                        Dig(blob, "messages_since_extraction").value.Int?)
    ensures r.Ok? && Dig(blob, "messages_since_extraction").value.Int? ==>
              r.value == Dig(blob, "messages_since_extraction").value.i
    ensures r.Ok? && !Truthy(Dig(blob, "messages_since_extraction").value) ==> r.value == 0
  {
    match Dig(blob, "messages_since_extraction")
    case Raises(e) => Raises(e)
    case Ok(v) =>
      if !Truthy(v) then Ok(0)
      else if v.Int? then Ok(v.i)
      else Raises("ArgumentError: comparison with 3 failed")
  }

  /** Whether this turn extracts memory again. */
  predicate Refresh(memory: MemoryBank.Memory, counter: int) {
    counter >= RefreshEvery || |memory| == 0
  }

  // ---------------------------------------------------------------------
  // The prompt

  /** The step's `system_prompt` (or the default), with a blank line and
      the memory block appended when the block is present. Appending to a
      non-string prompt raises. */
  function SystemPrompt(step: StepDef, memoryText: string): (r: Outcome<Value>)
    ensures !PresentText(memoryText) && Truthy(Field(step, "system_prompt")) ==>
              r == Ok(Field(step, "system_prompt"))
    ensures !PresentText(memoryText) && !Truthy(Field(step, "system_prompt")) ==>
              r == Ok(Str(DefaultPrompt))
    ensures PresentText(memoryText) && !Truthy(Field(step, "system_prompt")) ==>
              r == Ok(Str(DefaultPrompt + "\n\n" + memoryText))
    ensures PresentText(memoryText) && Field(step, "system_prompt").Str? ==>
              r == Ok(Str(Field(step, "system_prompt").s + "\n\n" + memoryText))
    ensures r.Raises? <==> PresentText(memoryText) && Truthy(Field(step, "system_prompt")) &&
                           !Field(step, "system_prompt").Str?
  {
    var given := Field(step, "system_prompt");
    var base := if Truthy(given) then given else Str(DefaultPrompt);
    if !PresentText(memoryText) then Ok(base)
    else if base.Str? then Ok(Str(base.s + "\n\n" + memoryText))
    else Raises("TypeError: no implicit conversion of String")
  }

  /** Everything the step settles before it calls the model: the context
      with the memory bookkeeping written, the system prompt, and the
      message window. */
  datatype Plan = Plan(ctx: Context, prompt: Value, recent: seq<Turn>)

  /** The memory after this turn's optional refresh. */
  function MemoryAfter(memory: MemoryBank.Memory, counter: int, msgs: seq<Turn>,
                       llm: MemoryBank.Extractor): MemoryBank.Memory {
    if Refresh(memory, counter) then MemoryBank.Merge(memory, MemoryBank.ExtractMemory(msgs, llm))
    else memory
  }

  /** The context writes of the cadence: after a refresh, `memory` and a
      counter reset to 0; otherwise only the counter, one higher. */
  function Bookkeep(ctx: Context, memory: MemoryBank.Memory, counter: int, msgs: seq<Turn>,
                    llm: MemoryBank.Extractor): (r: Context)
    ensures Refresh(memory, counter) ==>
              Get(r, Symbol("memory")) == Hash(MemoryAfter(memory, counter, msgs, llm)) &&
              Get(r, Symbol("messages_since_extraction")) == Int(0) &&
              r.state.Keys == ctx.state.Keys + {"memory", "messages_since_extraction"}
    ensures !Refresh(memory, counter) ==>
              Get(r, Symbol("messages_since_extraction")) == Int(counter + 1) &&
              r.state.Keys == ctx.state.Keys + {"messages_since_extraction"} &&
              Get(r, Symbol("memory")) == Get(ctx, Symbol("memory"))
    ensures forall k | k in ctx.state && k != "memory" && k != "messages_since_extraction" ::
              r.state[k] == ctx.state[k]
    ensures r.cursor == ctx.cursor && r.customer == ctx.customer
    ensures r.outputs == ctx.outputs && r.errors == ctx.errors
  {
    if Refresh(memory, counter) then
      var c1 := Set(ctx, Symbol("memory"), Hash(MemoryAfter(memory, counter, msgs, llm)));
      Set(c1, Symbol("messages_since_extraction"), Int(0))
    else
      Set(ctx, Symbol("messages_since_extraction"), Int(counter + 1))
  }

  function Prepare(ctx: Context, step: StepDef, conv: Conversation, inspect: Inspector,
                   llm: MemoryBank.Extractor): (r: Outcome<Plan>)
    ensures r.Raises? <==>
              StoredMemory(Blob(conv)).Raises? || StoredCounter(Blob(conv)).Raises? ||
              SystemPrompt(step, MemoryBank.ContextPrompt(
                MemoryAfter(StoredMemory(Blob(conv)).value, StoredCounter(Blob(conv)).value, conv.messages, llm),
                inspect)).Raises?
    ensures r.Ok? ==>
              var memory := StoredMemory(Blob(conv)).value;
              var counter := StoredCounter(Blob(conv)).value;
              var after := MemoryAfter(memory, counter, conv.messages, llm);
              r.value.ctx == Bookkeep(ctx, memory, counter, conv.messages, llm) &&
              r.value.prompt == SystemPrompt(step, MemoryBank.ContextPrompt(after, inspect)).value &&
              r.value.recent == Text.Last(conv.messages, Window)
  {
    match StoredMemory(Blob(conv))
    case Raises(e) => Raises(e)
    case Ok(memory) =>
      match StoredCounter(Blob(conv))
      case Raises(e) => Raises(e)
      case Ok(counter) =>
        var after := MemoryAfter(memory, counter, conv.messages, llm);
        match SystemPrompt(step, MemoryBank.ContextPrompt(after, inspect))
        case Raises(e) => Raises(e)
        case Ok(prompt) =>
          Ok(Plan(Bookkeep(ctx, memory, counter, conv.messages, llm), prompt, Text.Last(conv.messages, Window)))
  }

  /** The latest user message among `recent`, if any. */
  function Instruction(recent: seq<Turn>): (r: Option<string>)
    ensures r.None? <==> forall i | 0 <= i < |recent| :: recent[i].role != "user"
    ensures r.Some? ==> exists i | 0 <= i < |recent| ::
              recent[i].role == "user" && recent[i].content == r.value &&
              forall j | i < j < |recent| :: recent[j].role != "user"
  {
    var users := UserTurns(recent);
    if |users| == 0 then None else Some(users[|users| - 1].content)
  }

  /** The step's reply once the plan is made; `ask` is the model call. */
  function Answer(plan: Plan, ask: ChatGateway): (o: StepOutcome)
    ensures o.Done? && o.ctx == plan.ctx && o.result.Reply?
    ensures Instruction(plan.recent).None? ==> o.result == Reply(Ready)
    ensures Instruction(plan.recent).Some? ==>
              var reply := ask(Instruction(plan.recent).value, plan.prompt, plan.recent);
              o.result == Reply(if reply.Some? then reply.value else Apology)
  {
    match Instruction(plan.recent)
    case None => Done(plan.ctx, Reply(Ready))
    case Some(instruction) =>
      match ask(instruction, plan.prompt, plan.recent)
      case None => Done(plan.ctx, Reply(Apology))
      case Some(text) => Done(plan.ctx, Reply(text))
  }

  /** `call`, with a model call that accepts the message history. */
  function Call(ctx: Context, step: StepDef, find: Finder, inspect: Inspector,
                llm: MemoryBank.Extractor, ask: ChatGateway): (o: StepOutcome)
    // the step never halts or returns nil
    ensures o.Done? ==> o.result.Reply?
    // the fixed replies when the conversation is unavailable, with no other effect
    ensures !Truthy(Get(ctx, Symbol("conversation_id"))) ==> o == Done(ctx, Reply(NoAccess))
    ensures Truthy(Get(ctx, Symbol("conversation_id"))) && find(Get(ctx, Symbol("conversation_id"))).None? ==>
              o == Done(ctx, Reply(NotFound))
    // otherwise the outcome is the prepared plan's answer
    ensures Truthy(Get(ctx, Symbol("conversation_id"))) && find(Get(ctx, Symbol("conversation_id"))).Some? ==>
              var plan := Prepare(ctx, step, find(Get(ctx, Symbol("conversation_id"))).value, inspect, llm);
              (o.Raised? <==> plan.Raises?) &&
              (plan.Ok? ==> o == Answer(plan.value, ask))
  {
    var id := Get(ctx, Symbol("conversation_id"));
    if !Truthy(id) then Done(ctx, Reply(NoAccess))
    else
      match find(id)
      case None => Done(ctx, Reply(NotFound))
      case Some(conv) =>
        match Prepare(ctx, step, conv, inspect, llm)
        case Raises(e) => Raised(e)
        case Ok(plan) => Answer(plan, ask)
  }

  const UnknownKeyword: string := "ArgumentError: unknown keyword: :message_history"

  /** `call` as written: the gateway's keyword list has no
      `message_history`, so the call itself raises before any request is
      made. */
  function CallAsWritten(ctx: Context, step: StepDef, find: Finder, inspect: Inspector,
                         llm: MemoryBank.Extractor): (o: StepOutcome)
    ensures !Truthy(Get(ctx, Symbol("conversation_id"))) ==> o == Done(ctx, Reply(NoAccess))
    ensures Truthy(Get(ctx, Symbol("conversation_id"))) && find(Get(ctx, Symbol("conversation_id"))).None? ==>
              o == Done(ctx, Reply(NotFound))
    ensures Truthy(Get(ctx, Symbol("conversation_id"))) && find(Get(ctx, Symbol("conversation_id"))).Some? ==>
              var plan := Prepare(ctx, step, find(Get(ctx, Symbol("conversation_id"))).value, inspect, llm);
              (plan.Raises? ==> o.Raised?) &&
              (plan.Ok? && Instruction(plan.value.recent).None? ==> o == Done(plan.value.ctx, Reply(Ready))) &&
              (plan.Ok? && Instruction(plan.value.recent).Some? ==> o == Raised(UnknownKeyword))
  {
    var id := Get(ctx, Symbol("conversation_id"));
    if !Truthy(id) then Done(ctx, Reply(NoAccess))
    else
      match find(id)
      case None => Done(ctx, Reply(NotFound))
      case Some(conv) =>
        match Prepare(ctx, step, conv, inspect, llm)
        case Raises(e) => Raised(e)
        case Ok(plan) =>
          if Instruction(plan.recent).None? then Done(plan.ctx, Reply(Ready))
          else Raised(UnknownKeyword)
  }

  // ---------------------------------------------------------------------
  // Properties

  /** As written, every turn whose window holds a user message raises, so
      the model is never asked; with the history accepted, the same turn
      gets a reply. */
  lemma AsWrittenNeverAnswers(ctx: Context, step: StepDef, find: Finder, inspect: Inspector,
                              llm: MemoryBank.Extractor, ask: ChatGateway)
    requires Truthy(Get(ctx, Symbol("conversation_id")))
    requires find(Get(ctx, Symbol("conversation_id"))).Some?
    requires Prepare(ctx, step, find(Get(ctx, Symbol("conversation_id"))).value, inspect, llm).Ok?
    requires Instruction(Prepare(ctx, step, find(Get(ctx, Symbol("conversation_id"))).value, inspect, llm).value.recent).Some?
    ensures CallAsWritten(ctx, step, find, inspect, llm) == Raised(UnknownKeyword)
    ensures Call(ctx, step, find, inspect, llm, ask).Done?
  {
  }

  /** A concrete turn that shows it: a fresh conversation holding one
      user message. */
  lemma FirstTurnRaises(ctx: Context, step: StepDef, find: Finder, inspect: Inspector,
                        llm: MemoryBank.Extractor, first: Turn)
    requires Get(ctx, Symbol("conversation_id")) == Int(1)
    requires find(Int(1)) == Some(Conversation([first], Null))
    requires step == map[] && first.role == "user"
    ensures CallAsWritten(ctx, step, find, inspect, llm) == Raised(UnknownKeyword)
  {
    FirstPlan(ctx, step, inspect, llm, first);
  }

  /** A new conversation has no memory and a zero counter, so its first
      turn plans a refresh, the default prompt and the one message. */
  lemma FirstPlan(ctx: Context, step: StepDef, inspect: Inspector, llm: MemoryBank.Extractor, first: Turn)
    requires step == map[] && first.role == "user"
    ensures Prepare(ctx, step, Conversation([first], Null), inspect, llm).Ok?
    ensures Instruction(Prepare(ctx, step, Conversation([first], Null), inspect, llm).value.recent) == Some(first.content)
  {
    var conv := Conversation([first], Null);
    NewConversationReads(first);
    assert !Truthy(Field(step, "system_prompt"));
    var plan := Prepare(ctx, step, conv, inspect, llm);
    assert plan.value.recent == [first] by {
      assert Text.Last([first], Window) == [first];
    }
    assert UserTurns([first]) == [first];
  }

  lemma NewConversationReads(first: Turn)
    ensures StoredMemory(Blob(Conversation([first], Null))) == Ok(map[])
    ensures StoredCounter(Blob(Conversation([first], Null))) == Ok(0)
  {
    var conv := Conversation([first], Null);
    assert Blob(conv) == Hash(map[]);
    assert Dig(Blob(conv), "memory") == Ok(Null);
    assert Dig(Blob(conv), "messages_since_extraction") == Ok(Null);
  }

  /** Before a refresh is due and with memory to use, the counter only
      counts up and the stored memory is what the prompt shows. */
  lemma CounterCountsUp(ctx: Context, memory: MemoryBank.Memory, counter: int, msgs: seq<Turn>,
                        llm: MemoryBank.Extractor)
    requires |memory| > 0 && counter < RefreshEvery
    ensures MemoryAfter(memory, counter, msgs, llm) == memory
    ensures Get(Bookkeep(ctx, memory, counter, msgs, llm), Symbol("messages_since_extraction")) == Int(counter + 1)
  {
  }

  /** A refresh never loses a stored fact. */
  lemma RefreshKeepsFacts(memory: MemoryBank.Memory, counter: int, msgs: seq<Turn>, llm: MemoryBank.Extractor)
    ensures memory.Keys <= MemoryAfter(memory, counter, msgs, llm).Keys
  {
  }

  /** With no memory block the prompt is the step's own prompt unchanged,
      and with one it ends with the block after a blank line. */
  lemma PromptEndsWithMemory(step: StepDef, memoryText: string)
    requires PresentText(memoryText) && Field(step, "system_prompt").Str?
    ensures SystemPrompt(step, memoryText).Ok?
    ensures var p := SystemPrompt(step, memoryText).value.s;
            p[|p| - |memoryText| - 2..] == "\n\n" + memoryText &&
            Text.StartsWith(p, Field(step, "system_prompt").s)
  {
    var base := Field(step, "system_prompt").s;
    var p := base + "\n\n" + memoryText;
    assert p[|p| - |memoryText| - 2..] == "\n\n" + memoryText;
    assert p[..|base|] == base;
  }

  /** Only the last three messages are sent: earlier history never changes
      the answer's inputs. */
  lemma OnlyWindowSent(older: seq<Turn>, recent: seq<Turn>)
    requires |recent| >= Window
    ensures Text.Last(older + recent, Window) == Text.Last(recent, Window)
  {
    var all := older + recent;
    assert all[|all| - Window..] == recent[|recent| - Window..];
  }

  /** A window without a user message gets the ready prompt and no model
      call, whatever the model would say. */
  lemma NoUserMessageReady(plan: Plan, ask1: ChatGateway, ask2: ChatGateway)
    requires forall i | 0 <= i < |plan.recent| :: plan.recent[i].role != "user"
    ensures Answer(plan, ask1) == Answer(plan, ask2) == Done(plan.ctx, Reply(Ready))
  {
  }
}
