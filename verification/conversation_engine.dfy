/** One conversation turn: store the user's message, rebuild the context
    from the conversation's stored blob, pick the brand's workflow, run it,
    store the context again, and store the reply as an assistant message
    when there is one.

    The workflow run is a parameter (`Engine`): its driver is not part of
    this model. The turn's effects on the store are returned as values: the
    conversation's message list and its stored blob afterwards. */
module ConversationEngine {
  import opened Optional
  import opened Values
  import opened WorkflowContext
  import Records
  import Text

  /** A conversation row with its messages in creation order. */
  datatype Conversation = Conversation(
    id: nat,
    brandId: nat,
    customer: Option<CustomerRef>,
    workflowContext: Value,
    messages: seq<Records.Message>)

  /** A workflow row. */
  datatype WorkflowRow = WorkflowRow(id: nat, brandId: nat, name: string, enabled: bool)

  /** What a workflow run gives back: the reply (or `nil`) and the context
      as the steps left it. */
  datatype EngineRun = EngineRun(reply: Option<string>, ctx: Context)

  type Engine = (WorkflowRow, Context) -> Outcome<EngineRun>

  /** Turns a context into the JSON blob stored on the conversation. */
  type Serialiser = Context -> Value

  /** The store after a turn, and what the turn returned or raised. */
  datatype TurnResult = TurnResult(messages: seq<Records.Message>, storedContext: Value,
                                   outcome: Outcome<Option<string>>)

  const ChatWorkflow: string := "Chat Workflow"
  const BookingWorkflow: string := "Booking Workflow"

  // ---------------------------------------------------------------------
  // Workflow selection

  predicate Eligible(w: WorkflowRow, brand: nat) {
    w.brandId == brand && w.enabled
  }

  /** `Workflow.where(brand:, enabled: true[, name:]).first`, over rows in
      primary-key order. */
  function FirstWhere(ws: seq<WorkflowRow>, brand: nat, name: Option<string>): (r: Option<nat>)
    ensures r.Some? ==> r.value < |ws| && Eligible(ws[r.value], brand) &&
                        (name.Some? ==> ws[r.value].name == name.value)
    ensures r.Some? ==> forall j | 0 <= j < r.value ::
                          !(Eligible(ws[j], brand) && (name.Some? ==> ws[j].name == name.value))
    ensures r.None? <==> forall j | 0 <= j < |ws| ::
                          !(Eligible(ws[j], brand) && (name.Some? ==> ws[j].name == name.value))
    decreases |ws|
  {
    if |ws| == 0 then None
    else if Eligible(ws[0], brand) && (name.Some? ==> ws[0].name == name.value) then Some(0)
    else
      match FirstWhere(ws[1..], brand, name)
      case None => None
      case Some(i) => Some(i + 1)
  }

  /** The selection: an enabled "Chat Workflow", else an enabled "Booking
      Workflow", else any enabled workflow of the brand; the index of the
      chosen row. */
  function Select(ws: seq<WorkflowRow>, brand: nat): (r: Option<nat>)
    ensures r.Some? ==> r.value < |ws| && Eligible(ws[r.value], brand)
    ensures r.None? <==> forall j | 0 <= j < |ws| :: !Eligible(ws[j], brand)
  {
    match FirstWhere(ws, brand, Some(ChatWorkflow))
    case Some(i) => Some(i)
    case None =>
      match FirstWhere(ws, brand, Some(BookingWorkflow))
      case Some(i) => Some(i)
      case None => FirstWhere(ws, brand, None)
  }

  /** An enabled chat workflow always wins, and among several the first. */
  lemma ChatWorkflowPreferred(ws: seq<WorkflowRow>, brand: nat, i: nat)
    requires i < |ws| && Eligible(ws[i], brand) && ws[i].name == ChatWorkflow
    ensures Select(ws, brand).Some?
    ensures ws[Select(ws, brand).value].name == ChatWorkflow
    ensures Select(ws, brand).value <= i
  {
    assert FirstWhere(ws, brand, Some(ChatWorkflow)).Some?;
  }

  /** Without an enabled chat workflow, an enabled booking workflow wins. */
  lemma BookingWorkflowNext(ws: seq<WorkflowRow>, brand: nat, i: nat)
    requires forall j | 0 <= j < |ws| :: !(Eligible(ws[j], brand) && ws[j].name == ChatWorkflow)
    requires i < |ws| && Eligible(ws[i], brand) && ws[i].name == BookingWorkflow
    ensures Select(ws, brand).Some?
    ensures ws[Select(ws, brand).value].name == BookingWorkflow
    ensures Select(ws, brand).value <= i
  {
    assert FirstWhere(ws, brand, Some(BookingWorkflow)).Some?;
  }

  /** With neither name enabled, the first enabled workflow of the brand. */
  lemma AnyEnabledLast(ws: seq<WorkflowRow>, brand: nat, i: nat)
    requires forall j | 0 <= j < |ws| ::
               !(Eligible(ws[j], brand) && (ws[j].name == ChatWorkflow || ws[j].name == BookingWorkflow))
    requires i < |ws| && Eligible(ws[i], brand)
    ensures Select(ws, brand).Some?
    ensures Select(ws, brand).value <= i
  {
    assert FirstWhere(ws, brand, Some(ChatWorkflow)).None?;
    assert FirstWhere(ws, brand, Some(BookingWorkflow)).None?;
  }

  /** Other brands' workflows and disabled workflows never matter. */
  lemma IneligibleIgnored(ws: seq<WorkflowRow>, brand: nat, w: WorkflowRow)
    requires !Eligible(w, brand)
    ensures Select(ws + [w], brand) == Select(ws, brand)
  {
    FirstWhereIgnoresTail(ws, w, brand, Some(ChatWorkflow));
    FirstWhereIgnoresTail(ws, w, brand, Some(BookingWorkflow));
    FirstWhereIgnoresTail(ws, w, brand, None);
  }

  lemma {:induction false} FirstWhereIgnoresTail(ws: seq<WorkflowRow>, w: WorkflowRow, brand: nat, name: Option<string>)
    requires !Eligible(w, brand)
    ensures FirstWhere(ws + [w], brand, name) == FirstWhere(ws, brand, name)
    decreases |ws|
  {
    if |ws| == 0 {
      assert FirstWhere([w][1..], brand, name) == None;
    } else {
      assert (ws + [w])[1..] == ws[1..] + [w];
      FirstWhereIgnoresTail(ws[1..], w, brand, name);
    }
  }

  // ---------------------------------------------------------------------
  // The turn

  function UserMessage(conv: Conversation, text: string): Records.Message {
    Records.Message(Some(conv.id), Some("user"), Some(text))
  }

  function AssistantMessage(conv: Conversation, text: string): Records.Message {
    Records.Message(Some(conv.id), Some("assistant"), Some(text))
  }

  /** `conversation.workflow_context || {}` made a context: the blob is the
      state, the customer is re-attached and `conversation_id` is written.
      Writing into a blob that is not a hash raises. */
  function Rehydrate(conv: Conversation): (r: Outcome<Context>)
    ensures r.Ok? <==> !Truthy(conv.workflowContext) || conv.workflowContext.Hash?
    ensures r.Ok? ==>
              r.value.cursor == 0 && r.value.outputs == [] && r.value.errors == [] &&
              r.value.customer == conv.customer &&
              Get(r.value, Symbol("conversation_id")) == Int(conv.id)
    ensures r.Ok? && conv.workflowContext.Hash? ==>
              r.value.state.Keys == conv.workflowContext.fields.Keys + {"conversation_id"} &&
              forall k | k in conv.workflowContext.fields && k != "conversation_id" ::
                r.value.state[k] == conv.workflowContext.fields[k]
    ensures r.Ok? && !Truthy(conv.workflowContext) ==> r.value.state == map["conversation_id" := Int(conv.id)]
  {
    var stored := if Truthy(conv.workflowContext) then conv.workflowContext else Hash(map[]);
    if !stored.Hash? then Raises("NoMethodError: undefined method '[]=' on the stored context")
    else
      var c := New(stored.fields).(customer := conv.customer);
      Ok(Set(c, Symbol("conversation_id"), Int(conv.id)))
  }

  function NoWorkflow(brand: nat): string {
    "No workflow found for brand " + Text.NatToString(brand)
  }

  /** The messages after the reply: one assistant message more exactly
      when the reply is present. */
  function WithReply(conv: Conversation, msgs: seq<Records.Message>, reply: Option<string>): (r: seq<Records.Message>)
    ensures reply.Some? && PresentText(reply.value) ==> r == msgs + [AssistantMessage(conv, reply.value)]
    ensures !(reply.Some? && PresentText(reply.value)) ==> r == msgs
    ensures |r| >= |msgs| && r[..|msgs|] == msgs
  {
    if reply.Some? && PresentText(reply.value) then msgs + [AssistantMessage(conv, reply.value)] else msgs
  }

  /** `process`, with the context stored through `serialise`. */
  function Process(conv: Conversation, text: string, ws: seq<WorkflowRow>,
                   engine: Engine, serialise: Serialiser): (r: TurnResult)
    // an invalid user message raises before anything is stored
    ensures Records.MessageErrors(UserMessage(conv, text)) != {} ==>
              r.outcome.Raises? && r.messages == conv.messages && r.storedContext == conv.workflowContext
    // otherwise the user message is stored first, whatever happens next
    ensures Records.MessageErrors(UserMessage(conv, text)) == {} ==>
              |r.messages| > |conv.messages| &&
              r.messages[..|conv.messages| + 1] == conv.messages + [UserMessage(conv, text)]
    // a stored blob that is truthy but not a hash raises while rehydrating;
    // only the user message is stored
    ensures Records.MessageErrors(UserMessage(conv, text)) == {} && Rehydrate(conv).Raises? ==>
              r == TurnResult(conv.messages + [UserMessage(conv, text)], conv.workflowContext,
                              Raises(Rehydrate(conv).reason))
    // a run that raises propagates; only the user message is stored
    ensures Records.MessageErrors(UserMessage(conv, text)) == {} && Rehydrate(conv).Ok? &&
            Select(ws, conv.brandId).Some? &&
            engine(ws[Select(ws, conv.brandId).value], Rehydrate(conv).value).Raises? ==>
              r == TurnResult(conv.messages + [UserMessage(conv, text)], conv.workflowContext,
                              Raises(engine(ws[Select(ws, conv.brandId).value], Rehydrate(conv).value).reason))
    // no enabled workflow: the turn raises, after the user message is stored
    ensures Records.MessageErrors(UserMessage(conv, text)) == {} && Rehydrate(conv).Ok? &&
            Select(ws, conv.brandId).None? ==>
              r == TurnResult(conv.messages + [UserMessage(conv, text)], conv.workflowContext,
                              Raises(NoWorkflow(conv.brandId)))
    // a completed run: the context is stored, the reply is returned unchanged,
    // and an assistant message follows exactly when the reply is present
    ensures Records.MessageErrors(UserMessage(conv, text)) == {} && Rehydrate(conv).Ok? &&
            Select(ws, conv.brandId).Some? &&
            engine(ws[Select(ws, conv.brandId).value], Rehydrate(conv).value).Ok? ==>
              var run := engine(ws[Select(ws, conv.brandId).value], Rehydrate(conv).value).value;
              r == TurnResult(WithReply(conv, conv.messages + [UserMessage(conv, text)], run.reply),
                              serialise(run.ctx), Ok(run.reply))
  {
    var user := UserMessage(conv, text);
    if Records.MessageErrors(user) != {} then
      TurnResult(conv.messages, conv.workflowContext, Raises("ActiveRecord::RecordInvalid"))
    else
      var msgs := conv.messages + [user];
      assert msgs[..|conv.messages| + 1] == msgs;
      match Rehydrate(conv)
      case Raises(e) => TurnResult(msgs, conv.workflowContext, Raises(e))
      case Ok(ctx) =>
        match Select(ws, conv.brandId)
        case None => TurnResult(msgs, conv.workflowContext, Raises(NoWorkflow(conv.brandId)))
        case Some(i) =>
          match engine(ws[i], ctx)
          case Raises(e) => TurnResult(msgs, conv.workflowContext, Raises(e))
          case Ok(run) => TurnResult(WithReply(conv, msgs, run.reply), serialise(run.ctx), Ok(run.reply))
  }

  const NoToH: string := "NoMethodError: undefined method 'to_h' for an instance of Workflows::WorkflowContext"

  /** `process` as written: the context class defines no `to_h`, so every
      completed run raises while storing the context, before the reply is
      stored or returned. */
  function ProcessAsWritten(conv: Conversation, text: string, ws: seq<WorkflowRow>, engine: Engine): (r: TurnResult)
    ensures r.storedContext == conv.workflowContext
    ensures r.outcome.Raises?
    ensures Records.MessageErrors(UserMessage(conv, text)) == {} ==>
              r.messages == conv.messages + [UserMessage(conv, text)]
  {
    var user := UserMessage(conv, text);
    if Records.MessageErrors(user) != {} then
      TurnResult(conv.messages, conv.workflowContext, Raises("ActiveRecord::RecordInvalid"))
    else
      var msgs := conv.messages + [user];
      match Rehydrate(conv)
      case Raises(e) => TurnResult(msgs, conv.workflowContext, Raises(e))
      case Ok(ctx) =>
        match Select(ws, conv.brandId)
        case None => TurnResult(msgs, conv.workflowContext, Raises(NoWorkflow(conv.brandId)))
        case Some(i) =>
          match engine(ws[i], ctx)
          case Raises(e) => TurnResult(msgs, conv.workflowContext, Raises(e))
          case Ok(_) => TurnResult(msgs, conv.workflowContext, Raises(NoToH))
  }

  // ---------------------------------------------------------------------
  // Properties

  /** As written, a turn that reaches a completed run never returns its
      reply and never stores it; with a serialiser the same turn returns
      the reply and stores it when present. */
  lemma AsWrittenLosesReply(conv: Conversation, text: string, ws: seq<WorkflowRow>,
                            engine: Engine, serialise: Serialiser)
    requires Records.MessageErrors(UserMessage(conv, text)) == {}
    requires Rehydrate(conv).Ok? && Select(ws, conv.brandId).Some?
    requires engine(ws[Select(ws, conv.brandId).value], Rehydrate(conv).value).Ok?
    requires engine(ws[Select(ws, conv.brandId).value], Rehydrate(conv).value).value.reply == Some("Hi")
    ensures ProcessAsWritten(conv, text, ws, engine).outcome == Raises(NoToH)
    ensures |ProcessAsWritten(conv, text, ws, engine).messages| == |conv.messages| + 1
    ensures Process(conv, text, ws, engine, serialise).outcome == Ok(Some("Hi"))
    ensures |Process(conv, text, ws, engine, serialise).messages| == |conv.messages| + 2
  {
    assert PresentText("Hi") by { assert !Text.IsSpace("Hi"[0]); }
  }

  /** A blank message is refused before anything is stored. */
  lemma BlankMessageRefused(conv: Conversation, text: string, ws: seq<WorkflowRow>,
                            engine: Engine, serialise: Serialiser)
    requires Text.Blank(text)
    ensures Process(conv, text, ws, engine, serialise).outcome.Raises?
    ensures Process(conv, text, ws, engine, serialise).messages == conv.messages
  {
    assert Records.MessageContent in Records.MessageErrors(UserMessage(conv, text));
  }

  /** A reply of `nil` or only whitespace adds no assistant message but is
      still returned as it is. */
  lemma BlankReplyNotStored(conv: Conversation, text: string, ws: seq<WorkflowRow>,
                            engine: Engine, serialise: Serialiser)
    requires Records.MessageErrors(UserMessage(conv, text)) == {}
    requires Rehydrate(conv).Ok? && Select(ws, conv.brandId).Some?
    requires engine(ws[Select(ws, conv.brandId).value], Rehydrate(conv).value).Ok?
    requires var reply := engine(ws[Select(ws, conv.brandId).value], Rehydrate(conv).value).value.reply;
             reply.None? || Text.Blank(reply.value)
    ensures Process(conv, text, ws, engine, serialise).messages == conv.messages + [UserMessage(conv, text)]
    ensures Process(conv, text, ws, engine, serialise).outcome ==
            Ok(engine(ws[Select(ws, conv.brandId).value], Rehydrate(conv).value).value.reply)
  {
  }

  /** A new conversation's context holds only its id. */
  lemma NewConversationContext(conv: Conversation)
    requires conv.workflowContext == Hash(map[])
    ensures Rehydrate(conv).Ok?
    ensures Rehydrate(conv).value.state == map["conversation_id" := Int(conv.id)]
  {
  }
}
