# Conversation pipeline model

A Dafny model of one conversation turn in a multi-tenant booking assistant (a Rails
application). The turn runs through these parts:

- The tenant resolver picks the brand from the request host.
- The conversation engine stores the user's message and rebuilds the workflow context
  from the stored blob. It then selects the brand's workflow, runs it, and stores the
  reply.
- The step handlers (ask, save, response, ai and chat) read and write the context.
  They are supported by:
  - the shared `{{context.path}}` placeholder renderer;
  - the prompt builder;
  - the memory bank, which extracts facts, merges them and renders them for the chat
    prompt;
  - the summariser's transcript;
  - the JSON extractor, which pulls a JSON value out of model output.
- The record validators of the models the steps create.

Values are a JSON-like `Values.Value`; the context state, step definitions and memory
are `map<string, Value>`. Everything outside the pipeline's own logic is a function
parameter (an oracle). That covers:

- the language-model calls;
- `JSON.parse` and `Date.parse`;
- the database lookups and row creation;
- the workflow engine's run;
- the serialisation of the context;
- Ruby's `inspect` of arrays and hashes (`Values.Inspector`).

Ruby exceptions are modelled as values:

- `Optional.Outcome.Raises(reason)` for plain functions;
- `BaseStep.StepOutcome.Raised(reason)` for step handlers.

Modules follow the source files:

| module | source |
|---|---|
| `WorkflowContext` | `app/services/workflows/workflow_context.rb` |
| `StepRegistry` | `app/services/workflows/step_registry.rb` |
| `BaseStep` | `app/services/workflows/steps/base_step.rb` |
| `AskStep`, `SaveStep`, `ResponseStep`, `AiStep`, `ChatStep` | the step files |
| `Placeholders` | the placeholder rendering all three template sites share |
| `PromptBuilder`, `MemoryBank`, `Summarizer`, `JsonExtractor` | `app/services/ai/` |
| `ConversationEngine` | `app/services/conversation_engine.rb` |
| `TenantResolver` | `app/middleware/tenant_resolver.rb` |
| `Records` | the validations in `app/models/` |
| `Text`, `Turns`, `Optional`, `Values` | shared helpers: Ruby string operations, transcript labels, option/outcome types, the value type |

Where the written code and its documentation disagree, the model follows the code.
Where that code is evidently wrong, each finding below keeps an as-written member and a
corrected one, and the rest of the model builds on the corrected one.
These places are:

- The step registry registers neither `chat` nor `response`, although both handlers
  exist. The model's registry does the same (`StepRegistry.BuiltinResolution`).
- The summariser's comment promises at most 200 characters per message, but the code
  keeps 201. `Summarizer.ClipAsWritten` keeps 201. The transcript (`Summarizer.Lines`,
  `Summarizer.Transcript`, `Summarizer.Summarize`) is built on the corrected
  `Summarizer.Clip`.
- The response step replaces each placeholder with `gsub!` on the text already
  rendered, so a value that itself looks like a placeholder is expanded again.
  `ResponseStep.CallAsWritten` does that; `ResponseStep.Call` renders in the single pass
  the save step and the prompt builder use.
- The chat step passes a `message_history:` keyword that the gateway does not accept.
- The engine calls a `to_h` that the context class does not define.

The last four are logged under "Findings", each with an as-written member and a
corrected one.

## Model

| member | source | states |
|---|---|---|
| WorkflowContext.New | app/services/workflows/workflow_context.rb:13-19 | a new context's state is exactly the map passed in; cursor 0, no customer, no outputs or errors |
| WorkflowContext.Fresh | app/services/workflows/workflow_context.rb:13-19 | with no argument the state is the empty map and everything else starts empty |
| WorkflowContext.Get | app/services/workflows/workflow_context.rb:25-27 | `get` reads the entry under the key's `to_s` name, and `nil` when there is none |
| WorkflowContext.Set | app/services/workflows/workflow_context.rb:21-23 | `set` adds exactly the normalised key, reads back the value written, and keeps every other entry, the cursor, outputs, errors and customer |
| WorkflowContext.AdvanceStep | app/services/workflows/workflow_context.rb:29-31 | the cursor grows by exactly one; nothing else changes |
| WorkflowContext.Halt | app/services/workflows/workflow_context.rb:33-35 | `halted` becomes true; every other key and field is kept |
| WorkflowContext.GetAfterSet | app/services/workflows/workflow_context.rb:21-27 | reading after a write gives the written value under any spelling of the same name, and the earlier value under other names |
| WorkflowContext.SymbolAndStringInterchangeable | app/services/workflows/workflow_context.rb:21-27 | a symbol key and the string of its name address the same entry |
| WorkflowContext.HaltIdempotent | app/services/workflows/workflow_context.rb:33-35 | halting twice equals halting once |
| WorkflowContext.SetCommutes | app/services/workflows/workflow_context.rb:21-23 | writes to two different names commute |
| StepRegistry.Register | app/services/workflows/step_registry.rb:6-8 | after `register(t, k)`, `resolve(t)` gives `k`, and every tag with another `to_s` name resolves as before |
| StepRegistry.Resolve | app/services/workflows/step_registry.rb:10-12 | `resolve` gives `nil` exactly for tags whose `to_s` name was never registered |
| StepRegistry.Builtins | app/services/workflows/step_registry.rb:15-22 | the load-time registrations are exactly the eight tags ask, ai, save, notify, calendar_sync, branch, wait, event_log |
| StepRegistry.BuiltinResolution | app/services/workflows/step_registry.rb:15-22 | ask, ai (as a symbol), save and event_log resolve to their classes; chat, response and an unknown tag resolve to nothing |
| StepRegistry.ReRegisterReplaces | app/services/workflows/step_registry.rb:6-8 | registering a tag twice keeps only the second handler |
| AskStep.Call | app/services/workflows/steps/ask_step.rb:4-7 | the step halts; `last_question` holds the step's question (nil when there is none); no other key, the cursor, errors, outputs or customer change |
| Placeholders.Path | app/services/workflows/steps/save_step.rb:52 | the dotted path's segments contain no dot |
| Placeholders.Verbatim | app/services/ai/prompt_builder.rb:39-44 | text holding no placeholder is returned unchanged by the substitution |
| Placeholders.Splice | app/services/workflows/steps/save_step.rb:51 | literal text before a placeholder is copied, the placeholder is replaced by the function of its capture, and the rest is substituted in turn |
| Placeholders.SubstTemplate | app/services/workflows/steps/save_step.rb:51 | every placeholder occurrence of a template is substituted, in order, and all literal text between them is kept |
| Placeholders.SubstAtLineBreak | app/services/workflows/steps/save_step.rb:51 | a placeholder never spans a line break, so the text on each side of one is substituted independently |
| Placeholders.WalkNull | app/services/ai/prompt_builder.rb:50-52 | once a walk reaches `nil`, every further segment keeps it at `nil` |
| Placeholders.NonHashStep | app/services/ai/prompt_builder.rb:50-52 | stepping into a value that is not a hash gives `nil`, however many segments follow |
| Placeholders.WalkUntilNilAgrees | app/services/workflows/steps/save_step.rb:53-60 | the save step's walk, which stops at the first `nil`, gives the same value as the prompt builder's walk that does not stop |
| Placeholders.LookupDotted | app/services/ai/prompt_builder.rb:47-55 | a dotted capture reads its first segment from the state and walks the others through nested hashes |
| Placeholders.MissingRendersEmpty | app/services/workflows/steps/save_step.rb:53-60 | a first segment missing from the state renders as the empty string, however long the path |
| Placeholders.SinglePlaceholder | app/services/workflows/steps/response_step.rb:28-35 | a template that is one single-segment placeholder renders as that entry's text |
| Placeholders.NestedExample | app/services/ai/prompt_builder.rb:36-55 | `{{context.motivation.reply}}` reads `reply` inside the `motivation` hash |
| Placeholders.Subst | app/services/workflows/steps/save_step.rb:50-61 | `gsub` with a block: scanning left to right, each placeholder (`{{context.`, the shortest capture reaching `}}` on the same line) is replaced by the function of its capture and scanning resumes after it; other characters are copied (partners: `Placeholders.Verbatim`, `Placeholders.Splice`, `Placeholders.SubstTemplate`) |
| Placeholders.Walk | app/services/ai/prompt_builder.rb:50-52 | a value is found through a path only when the current value is a hash holding the path's first key; each further segment steps into a hash and anything else gives `nil` |
| Placeholders.Lookup | app/services/ai/prompt_builder.rb:47-52 | a capture is split at dots, its first segment read from the state with `get`; a value is found only when that segment is an entry of the state |
| Placeholders.Resolve | app/services/ai/prompt_builder.rb:47-55 | the replacement is the found value's `to_s`: `""` for a missing value, the text itself for a string |
| Placeholders.Render | app/services/ai/prompt_builder.rb:39-44 | a template is substituted with `Resolve` against one state, as the save step, the prompt builder and the corrected response step all do |
| ResponseStep.Call | app/services/workflows/steps/response_step.rb:13-16 | the corrected renderer: a string message gives a reply rendered by the shared single-pass renderer, a falsy one renders as `""`, and the context is untouched |
| ResponseStep.CallAsWritten | app/services/workflows/steps/response_step.rb:13-39 | the same, with the scan-then-replace renderer as written; a non-string message raises |
| ResponseStep.TemplateWithoutPlaceholders | app/services/workflows/steps/response_step.rb:25-39 | a template without placeholders is returned verbatim by both renderers |
| ResponseStep.ScanSplice | app/services/workflows/steps/response_step.rb:28 | `scan` lists a placeholder's capture and then the captures of the rest |
| ResponseStep.ReplaceTwice | app/services/workflows/steps/response_step.rb:35 | two adjacent copies of a pattern are both replaced |
| ResponseStep.Scan | app/services/workflows/steps/response_step.rb:28 | `scan` lists the placeholder captures left to right, resuming after each match, repeats included (partner: `ResponseStep.ScanTemplate`) |
| ResponseStep.RenderAsWritten | app/services/workflows/steps/response_step.rb:25-39 | for each scanned capture in turn, `gsub!` replaces every occurrence of its placeholder text in the accumulated result by the resolved value (partner: `ResponseStep.AsWrittenAgrees`) |
| ResponseStep.ScanTemplate | app/services/workflows/steps/response_step.rb:28 | `scan` of a template whose every `{` opens a placeholder lists exactly its captures, in order, repeats included |
| ResponseStep.ReplacePartly | app/services/workflows/steps/response_step.rb:35 | one `gsub!` of a capture's placeholder, with a value free of `{`, replaces every occurrence of that placeholder and leaves all other text, including other placeholders and values already filled in, as it is |
| ResponseStep.AsWrittenAgrees | app/services/workflows/steps/response_step.rb:25-39 | on a template whose every `{` opens a placeholder, with captures and values free of `{`, the as-written scan-then-`gsub!` render equals the single-pass render: each placeholder replaced by its value |
| ResponseStep.ReplaceFirstOfTwo | app/services/workflows/steps/response_step.rb:35 | a literal replacement leaves a different placeholder alone |
| ResponseStep.TwoPlaceholdersAsWritten | app/services/workflows/steps/response_step.rb:25-39 | as written, a value holding the text of a later placeholder is expanded again |
| ResponseStep.TwoPlaceholdersOnePass | app/services/workflows/steps/response_step.rb:25-39 | the single-pass renderer keeps such a value as it is |
| ResponseStep.ReExpansion | app/services/workflows/steps/response_step.rb:35 | with `a` = `{{context.b}}` and `b` = `X`, the as-written render of `{{context.a}}{{context.b}}` is `XX`; the single-pass render is `{{context.b}}X` |
| Placeholders.SingleKey | app/services/workflows/steps/response_step.rb:29-31 | a capture of one segment reads that entry directly |
| SaveStep.ResolveModel | app/services/workflows/steps/save_step.rb:22-31 | the lower-cased `to_s` of the model name selects booking or lead, and any other name selects nothing (partner: `SaveStep.ModelNameCaseInsensitive`) |
| SaveStep.ModelNameCaseInsensitive | app/services/workflows/steps/save_step.rb:22-31 | a string model name selects booking or lead exactly when it spells that word in any letter case, and nothing otherwise |
| SaveStep.MissingModelUnknown | app/services/workflows/steps/save_step.rb:22-30 | a missing model name is an unknown model |
| SaveStep.Substitute | app/services/workflows/steps/save_step.rb:44-48 | non-string values pass through; strings are rendered by the shared renderer |
| SaveStep.ResolveFields | app/services/workflows/steps/save_step.rb:34-42 | the resolved fields have the same keys, each value substituted |
| SaveStep.Pairs | app/services/workflows/steps/save_step.rb:6 | an array given as fields contributes only string keys that an element's pair supplies |
| SaveStep.FieldsOf | app/services/workflows/steps/save_step.rb:6 | a falsy `fields` is `{}`, a hash is itself, and a number, a string or `true` makes `each` raise |
| SaveStep.Or | app/services/workflows/steps/save_step.rb:79-94 | Ruby `||`: a truthy value is kept, `nil` and `false` take the default |
| SaveStep.CastString | app/services/workflows/steps/save_step.rb:82 | a string column stores `nil` as nothing and keeps strings as they are |
| SaveStep.ParseDate | app/services/workflows/steps/save_step.rb:102-115 | `nil` and `""` give no date; a non-empty string gives what the date parser gives; a number or boolean makes `empty?` raise |
| SaveStep.BookingAttrs | app/services/workflows/steps/save_step.rb:76-84 | brand, customer and date are set; service_type, status and metadata take "consultation", "pending" and `{}` when falsy, and a string field is used as it is |
| SaveStep.LeadAttrs | app/services/workflows/steps/save_step.rb:90-95 | brand and customer are set; form_type and status take "contact" and "new" when falsy, and a string field is used as it is |
| SaveStep.BrandFor | app/services/workflows/steps/save_step.rb:66 | the customer's brand wins; the current tenant is used only without a customer |
| SaveStep.CreateRecord | app/services/workflows/steps/save_step.rb:64-100 | a row is attempted exactly when there is a customer; the row is exactly the lead or booking attributes built from the fields (and the parsed date), it is made exactly when those pass validation, and otherwise `create!` raises `RecordInvalid`; a date whose `empty?` raises makes the booking raise |
| SaveStep.Call | app/services/workflows/steps/save_step.rb:4-18 | the step returns nil; an unknown model appends one error, keeps the state and creates nothing; fields `each` cannot iterate raise; otherwise the outcome is the record attempt on the rendered fields (nothing, its exception, or its row); on success `last_saved_record_id` is the new id and the state is otherwise unchanged |
| SaveStep.BookingFieldsRendered | app/services/workflows/steps/save_step.rb:11-84 | for a `booking` step, whatever is created is a booking whose service type, status and notes are the string fields rendered against the context, and a non-empty rendered date is parsed |
| SaveStep.LeadFieldsRendered | app/services/workflows/steps/save_step.rb:11-97 | for a `lead` step, whatever is created is a lead whose form type and status are the string fields rendered against the context |
| SaveStep.PlaceholderThenText | app/services/workflows/steps/save_step.rb:44-61 | a field `{{context.k}}` followed by plain text becomes the entry's text followed by that text |
| SaveStep.TenantIrrelevant | app/services/workflows/steps/save_step.rb:66-74 | the current tenant never changes the outcome, because a row needs a customer anyway |
| SaveStep.LeadDefaultsValid | app/services/workflows/steps/save_step.rb:90-97 | a lead built from the defaults alone passes the lead validations and is created |
| SaveStep.BookingWithoutDateRaises | app/services/workflows/steps/save_step.rb:76-84 | a booking with no date fails validation and raises |
| SaveStep.BookingDefaults | app/services/workflows/steps/save_step.rb:76-84 | a booking given only a parseable date is created with the default service type, status and metadata |
| SaveStep.FalseTakesDefault | app/services/workflows/steps/save_step.rb:93 | `false` takes the default just as a missing field does |
| SaveStep.FieldPlaceholder | app/services/workflows/steps/save_step.rb:44-62 | a field holding one placeholder becomes the text of the entry it names |
| PromptBuilder.Override | app/services/ai/prompt_builder.rb:17-18 | no brand template or overrides means no override; a string override is used; a falsy one is ignored |
| PromptBuilder.Build | app/services/ai/prompt_builder.rb:11-25 | no template gives the default prompt; otherwise the base prompt, with "\n\n" and the override appended when there is one, is rendered with the shared renderer; a NULL base prompt raises |
| PromptBuilder.NoTemplateDefault | app/services/ai/prompt_builder.rb:12 | without a template the result is the default prompt whatever the override or context |
| PromptBuilder.OverrideRenderedSeparately | app/services/ai/prompt_builder.rb:17-22 | rendering base + "\n\n" + override equals rendering each part on its own |
| PromptBuilder.BuildWithOverride | app/services/ai/prompt_builder.rb:14-22 | with an override the prompt is the rendered base prompt, a blank line, and the rendered override |
| PromptBuilder.BuildVerbatim | app/services/ai/prompt_builder.rb:14-22 | a base prompt without placeholders and no override is used as it is |
| PromptBuilder.OverridePlaceholderResolved | app/services/ai/prompt_builder.rb:17-22 | a placeholder in the override is resolved from the context |
| AiStep.ResolveTemplate | app/services/workflows/steps/ai_step.rb:47-53 | the template named by `template_id` when one is given, else the one named "default" |
| AiStep.ResolveBrandTemplate | app/services/workflows/steps/ai_step.rb:55-63 | a brand override is looked up only when there is both a template and a customer |
| AiStep.Structured | app/services/workflows/steps/ai_step.rb:29-39 | the stored value is the extracted object exactly when it is a non-empty hash, and the raw text otherwise |
| AiStep.Call | app/services/workflows/steps/ai_step.rb:4-42 | the step returns nil; it raises iff building the prompt raises; a nil reply writes nothing; otherwise `<variable>_raw` holds the raw reply and `<variable>` the structured value, and nothing else changes (other entries, cursor, outputs, errors, customer) |
| AiStep.PlainReplyStoredTwice | app/services/workflows/steps/ai_step.rb:37-39 | a reply that is not a non-empty JSON object is stored as raw text |
| AiStep.ObjectReplyStructured | app/services/workflows/steps/ai_step.rb:35-36 | a reply holding a non-empty JSON object is stored as that object |
| AiStep.MissingVariableKeys | app/services/workflows/steps/ai_step.rb:33-38 | with no `variable`, the keys written are `_raw` and `""` |
| AiStep.NoCustomerNoOverride | app/services/workflows/steps/ai_step.rb:10-17 | without a customer the prompt is built with no brand override |
| JsonExtractor.Span | app/services/ai/json_extractor.rb:30-34 | a span exists iff an opening bracket precedes a closing one, and it runs from the first opening to the last closing bracket |
| JsonExtractor.Candidate | app/services/ai/json_extractor.rb:27-41 | an object span wins; else an array span; else the whole text, and only if it parses |
| JsonExtractor.Extract | app/services/ai/json_extractor.rb:4-23 | no candidate gives nil; otherwise the parse of the candidate, with a parse failure giving nil |
| JsonExtractor.ObjectBeforeArray | app/services/ai/json_extractor.rb:30-34 | the object span is chosen even when a `[` comes first |
| JsonExtractor.ArrayWrappedObject | app/services/ai/json_extractor.rb:30-31 | `[{}]` yields the object `{}` |
| JsonExtractor.ReversedBracesNoSpan | app/services/ai/json_extractor.rb:30 | text whose closing braces all precede its opening ones has no object span |
| JsonExtractor.ExtractIgnoresStrip | app/services/ai/json_extractor.rb:8-10 | surrounding whitespace never changes the result |
| MemoryBank.Lines | app/services/ai/memory_bank.rb:11-14 | one labelled line per message, in order |
| MemoryBank.ExtractMemory | app/services/ai/memory_bank.rb:5-58 | no messages gives `{}`; a failed extraction gives `{}`; otherwise the facts extracted |
| MemoryBank.OnlyLastTenRead | app/services/ai/memory_bank.rb:11-14 | messages older than the last ten never change the extraction |
| MemoryBank.Merge | app/services/ai/memory_bank.rb:60-70 | the keys are the old ones plus the kept new ones; a present, non-"null" new value overwrites; every other old value is kept |
| MemoryBank.MergeKeepsKeys | app/services/ai/memory_bank.rb:62-69 | no fact is ever removed |
| MemoryBank.MergeEmpty | app/services/ai/memory_bank.rb:60-70 | merging nothing changes nothing |
| MemoryBank.MergeIdempotent | app/services/ai/memory_bank.rb:60-70 | merging the same extraction twice equals merging it once |
| MemoryBank.MergeIgnoresPlaceholders | app/services/ai/memory_bank.rb:63-67 | blank values and the text "null" never overwrite a fact |
| MemoryBank.MergeExample | app/services/ai/memory_bank.rb:60-70 | a new status overwrites while an extracted "null" name is ignored |
| MemoryBank.FactLines | app/services/ai/memory_bank.rb:77-82 | one labelled line per present fact, in the order of the fact list; never more lines than facts (partners below) |
| MemoryBank.PromptLines | app/services/ai/memory_bank.rb:75-82 | the header when a name is present, then the fact lines |
| MemoryBank.ContextPrompt | app/services/ai/memory_bank.rb:72-85 | the empty memory renders as `""`; otherwise the prompt lines joined by line breaks |
| MemoryBank.PresentLineListed | app/services/ai/memory_bank.rb:77-82 | every present fact's labelled line is rendered |
| MemoryBank.ListedLineOrigin | app/services/ai/memory_bank.rb:77-82 | every rendered line is the labelled line of some present fact |
| MemoryBank.LinesInOrder | app/services/ai/memory_bank.rb:77-82 | two present facts are rendered in the order of the fact list |
| MemoryBank.ListedLinePresent | app/services/ai/memory_bank.rb:77-82 | when no two labels agree on their common length, a fact's line is rendered only if the fact is present |
| MemoryBank.FactsApart | app/services/ai/memory_bank.rb:77-82 | the six labels differ pairwise, so no two fact lines coincide |
| MemoryBank.PromptShowsPresentFacts | app/services/ai/memory_bank.rb:75-84 | a fact's `- Label: value` line is among the prompt's lines exactly when the fact is present |
| MemoryBank.PromptFactOrder | app/services/ai/memory_bank.rb:77-82 | present facts appear in the fixed order name, preferred date, preferred time, service type, status, notes |
| MemoryBank.NameAndNotes | app/services/ai/memory_bank.rb:72-85 | a name and notes render as the header, `- Name: Ana` and `- Notes: x`, one per line |
| MemoryBank.UnknownKeysIgnored | app/services/ai/memory_bank.rb:75-84 | keys outside the six known facts never change the rendering |
| MemoryBank.HeaderIffName | app/services/ai/memory_bank.rb:75-76 | the "Customer information:" header is the first line exactly when a name is present |
| MemoryBank.ContextPromptLines | app/services/ai/memory_bank.rb:75-84 | splitting the rendering at line breaks gives back the header and fact lines, in the fixed order |
| Summarizer.ClipAsWritten | app/services/ai/conversation_summarizer.rb:14 | content over 200 characters keeps its first 201 characters plus "..." |
| Summarizer.ClipAsWrittenKeepsOneMore | app/services/ai/conversation_summarizer.rb:14 | a clipped message is 204 characters, and a 201-character one loses nothing yet gains "..." |
| Summarizer.Clip | app/services/ai/conversation_summarizer.rb:14 | the corrected clip keeps at most 200 characters before "..." |
| Summarizer.ClipBounded | app/services/ai/conversation_summarizer.rb:14 | a clipped message is at most 203 characters, starts with the content's first 200, and short content is kept whole |
| Summarizer.Lines | app/services/ai/conversation_summarizer.rb:11-16 | one labelled line per message, in order, each clipped with the corrected 200-character clip |
| Summarizer.Cut | app/services/ai/conversation_summarizer.rb:19-21 | the transcript sent is at most 3000 characters and a suffix of the whole one, and equals it exactly when it is short enough |
| Summarizer.Summarize | app/services/ai/conversation_summarizer.rb:7-57 | nil or no messages gives nil, without a model call; otherwise a summary exists exactly when the model replies to the prompt built from the (corrected) transcript, and it is that reply stripped |
| Summarizer.ShortTranscriptLines | app/services/ai/conversation_summarizer.rb:11-21 | a short transcript splits back into one labelled line per message |
| Summarizer.SameTailSameSummary | app/services/ai/conversation_summarizer.rb:19-36 | conversations whose transcripts end the same get the same summary |
| Summarizer.LongTranscriptCut | app/services/ai/conversation_summarizer.rb:19-21 | a long transcript is cut to exactly its last 3000 characters |
| ChatStep.Blob | app/services/workflows/steps/chat_step.rb:28 | the blob read is the stored one, or `{}` when that is falsy |
| ChatStep.Dig | app/services/workflows/steps/chat_step.rb:29-32 | `dig("state", key)` reads a key inside the stored state; a missing state gives nil; a non-hash blob or state raises |
| ChatStep.StoredMemory | app/services/workflows/steps/chat_step.rb:29 | a stored hash is the memory and a falsy value is `{}`; any other stored value is treated as raising (see Left out) |
| ChatStep.StoredCounter | app/services/workflows/steps/chat_step.rb:32 | a stored integer is the counter and a falsy value is 0 |
| ChatStep.SystemPrompt | app/services/workflows/steps/chat_step.rb:47-52 | the step's prompt (or the default), with "\n\n" and the memory block appended only when the block is present |
| ChatStep.Bookkeep | app/services/workflows/steps/chat_step.rb:33-41 | when the counter reaches 3 or memory is empty, the merged memory is stored and the counter reset to 0; otherwise the counter is stored as one more; nothing else changes |
| ChatStep.Prepare | app/services/workflows/steps/chat_step.rb:23-57 | the step raises before the model call exactly when reading memory or the counter, or building the prompt, raises; otherwise the plan uses the last three messages |
| ChatStep.Instruction | app/services/workflows/steps/chat_step.rb:55-57 | the instruction is absent iff the window holds no user message, and is otherwise the last user message there |
| ChatStep.Answer | app/services/workflows/steps/chat_step.rb:56-69 | always a reply: the ready prompt without a user message, the model's text, or the apology when the model gives nothing |
| ChatStep.Call | app/services/workflows/steps/chat_step.rb:12-70 | the corrected step: no conversation id gives the no-access reply, an unknown conversation gives the not-found reply, and otherwise the answer of the prepared plan; never nil or halt |
| ChatStep.CallAsWritten | app/services/workflows/steps/chat_step.rb:12-70 | the step as written, with the same fallbacks, but the model call raises an unknown-keyword error |
| ChatStep.AsWrittenNeverAnswers | app/services/workflows/steps/chat_step.rb:61-66 | as written, every turn whose window holds a user message raises, while the corrected step answers |
| ChatStep.FirstTurnRaises | app/services/workflows/steps/chat_step.rb:61-66 | a new conversation's first user message already raises as written |
| ChatStep.CounterCountsUp | app/services/workflows/steps/chat_step.rb:39-41 | before a refresh is due, memory is reused and the counter goes up by one |
| ChatStep.RefreshKeepsFacts | app/services/workflows/steps/chat_step.rb:33-38 | a refresh never loses a stored fact |
| ChatStep.PromptEndsWithMemory | app/services/workflows/steps/chat_step.rb:47-52 | with a memory block, the prompt is the step's prompt, a blank line, and the block |
| ChatStep.OnlyWindowSent | app/services/workflows/steps/chat_step.rb:55 | history older than the last three messages never changes what is sent |
| ChatStep.NoUserMessageReady | app/services/workflows/steps/chat_step.rb:56-57 | without a user message in the window, the ready prompt is returned whatever the model |
| ConversationEngine.FirstWhere | app/services/conversation_engine.rb:18-20 | the first enabled workflow of the brand with the name, and nothing iff there is none |
| ConversationEngine.Select | app/services/conversation_engine.rb:18-21 | the workflow chosen is enabled and of the brand, and nothing is chosen iff none is |
| ConversationEngine.ChatWorkflowPreferred | app/services/conversation_engine.rb:18 | an enabled "Chat Workflow" always wins, the first of several |
| ConversationEngine.BookingWorkflowNext | app/services/conversation_engine.rb:19 | without one, an enabled "Booking Workflow" wins |
| ConversationEngine.AnyEnabledLast | app/services/conversation_engine.rb:20 | with neither name, the first enabled workflow of the brand is chosen |
| ConversationEngine.IneligibleIgnored | app/services/conversation_engine.rb:18-21 | disabled workflows and other brands' workflows never change the choice |
| ConversationEngine.Rehydrate | app/services/conversation_engine.rb:11-15 | the state is the stored blob (or `{}`) plus `conversation_id`, with the customer re-attached and the cursor at 0; a truthy non-hash blob raises |
| ConversationEngine.WithReply | app/services/conversation_engine.rb:31-37 | an assistant message is appended iff the reply is present |
| ConversationEngine.Process | app/services/conversation_engine.rb:2-41 | the corrected turn: an invalid user message stores nothing and raises; otherwise the message is stored first; a stored context that cannot be rehydrated, a missing workflow and a run that raises each raise with only the user message stored and the context unchanged; a completed run stores the context and returns its reply unchanged |
| ConversationEngine.ProcessAsWritten | app/services/conversation_engine.rb:2-41 | the turn as written always raises and never changes the stored context |
| ConversationEngine.AsWrittenLosesReply | app/services/conversation_engine.rb:28 | as written, a completed run's reply is neither stored nor returned, while the corrected turn stores and returns it |
| ConversationEngine.BlankMessageRefused | app/services/conversation_engine.rb:4-8 | a blank message is refused before anything is stored |
| ConversationEngine.BlankReplyNotStored | app/services/conversation_engine.rb:31-40 | a nil or blank reply adds no assistant message but is still returned |
| ConversationEngine.NewConversationContext | app/services/conversation_engine.rb:11-15 | a new conversation's state holds only its id |
| TenantResolver.WithoutPort | app/middleware/tenant_resolver.rb:34 | the host up to its first `:`; a host of only `:` raises |
| TenantResolver.ExtractSubdomain | app/middleware/tenant_resolver.rb:28-50 | whatever is found is the present first dot-label of a host with at least two labels, and under localhost only when the last label is `localhost` |
| TenantResolver.Subdomain | app/middleware/tenant_resolver.rb:10-13 | the host's subdomain wins; otherwise a present header is used |
| TenantResolver.Tenant | app/middleware/tenant_resolver.rb:10-18 | the tenant is the brand of the subdomain, and none without one |
| TenantResolver.PortIgnored | app/middleware/tenant_resolver.rb:34 | a port never matters |
| TenantResolver.BareLocalhost | app/middleware/tenant_resolver.rb:38 | bare `localhost` names no tenant |
| TenantResolver.LocalSubdomain | app/middleware/tenant_resolver.rb:40-42 | `<sub>.localhost` names `<sub>` when it is present |
| TenantResolver.LocalhostNotLast | app/middleware/tenant_resolver.rb:40-41 | a host with `localhost` anywhere but in the last label names nothing |
| TenantResolver.StandardDomain | app/middleware/tenant_resolver.rb:46-49 | a host of two or more labels names its first label when present |
| TenantResolver.SingleLabel | app/middleware/tenant_resolver.rb:46-47 | a single label names nothing |
| TenantResolver.EmptyHostRaises | app/middleware/tenant_resolver.rb:34-37 | a host made only of `:` raises |
| TenantResolver.HostBeatsHeader | app/middleware/tenant_resolver.rb:13 | the header is read only when the host names nothing |
| TenantResolver.BlankHeaderIgnored | app/middleware/tenant_resolver.rb:13 | a blank header counts as no header |
| TenantResolver.HeaderFallback | app/middleware/tenant_resolver.rb:13 | a present header names the tenant when the host does not |
| Records.CustomerErrors | app/models/customer.rb:2-15 | brand, name and email are required; a given codice fiscale must match the format |
| Records.BlankCodiceFiscaleAccepted | app/models/customer.rb:15 | a missing or blank codice fiscale is accepted |
| Records.CodiceFiscaleLength | app/models/customer.rb:15 | of ASCII letters and digits, exactly sixteen are accepted |
| Records.HyphenRejected | app/models/customer.rb:15 | a hyphen anywhere is rejected |
| Records.LowerCaseAccepted | app/models/customer.rb:15 | either letter case is accepted; fifteen or seventeen characters are not |
| Records.NewPayment | db/schema.rb:152 | an omitted currency is "eur" |
| Records.PaymentErrors | app/models/payment.rb:9-13 | brand, booking and currency are required; the amount must be above zero; the status must be one of six |
| Records.PaymentAmounts | app/models/payment.rb:11 | 0 and -1000 are rejected, 1 accepted |
| Records.DefaultCurrencyValid | app/models/payment.rb:12 | a payment that omits its currency has a valid one |
| Records.InvoiceErrors | app/models/invoice.rb:10-14 | brand, booking, payment and number are required; the number is unique per brand; the status is draft, issued or sent |
| Records.InvoiceInsertKeepsUnique | app/models/invoice.rb:13 | saving only valid invoices keeps numbers unique within a brand |
| Records.OtherBrandsDoNotClash | app/models/invoice.rb:13 | other brands' invoices never make a number taken |
| Records.MessageErrors | app/models/message.rb:2-7 | conversation, role and content are required, and the role is user, assistant or system |
| Records.RoleCaseSensitive | app/models/message.rb:7 | the role match is case-sensitive |
| Records.NewWorkflow | db/schema.rb:189 | an omitted `enabled` is false |
| Records.WorkflowErrors | app/models/workflow.rb:2-9 | brand and name are required; `enabled` must be true or false, not nil |
| Records.WorkflowEnabledDefault | app/models/workflow.rb:9 | an omitted `enabled` is valid and false, while an explicit nil is rejected |
| Records.UserErrors | app/models/user.rb:2-13 | brand, name, email and role are required, and the e-mail is unique per brand |
| Records.UserInsertKeepsUnique | app/models/user.rb:12 | saving only valid users keeps e-mails unique within a brand |
| Records.SameEmailOtherBrand | app/models/user.rb:12 | the same e-mail is free under another brand |
| Records.BookingErrors | app/models/booking.rb:2-11 | brand, customer, service type, date and status are required |
| Records.LeadErrors | app/models/lead.rb:2-13 | brand, customer, form type and status are required |
| Records.BrandTemplateErrors | app/models/brand_template.rb:2-9 | brand and template are required, and the pair is unique |
| Records.BrandTemplateInsertKeepsUnique | app/models/brand_template.rb:9 | saving only valid rows keeps at most one row per pair |
| Records.TemplateSharedAcrossBrands | app/models/brand_template.rb:9 | one template may be linked to several brands |
| Values.Truthy | app/services/conversation_engine.rb:11 | Ruby truthiness: every value except `nil` and `false` is truthy, so a stored `0`, `""` or `[]` is kept rather than replaced by the default |
| Values.Blank | app/services/ai/memory_bank.rb:76-82 | ActiveSupport's `blank?`: `nil`, `false`, a string of only whitespace, an empty array or hash; an integer is never blank |
| Values.Present | app/services/ai/memory_bank.rb:76-82 | `present?` is the negation of `blank?` |
| Values.ToS | app/services/ai/prompt_builder.rb:54 | `to_s`: `nil` gives `""` and a string gives itself; `true`/`false` and integers print as Ruby prints them |

## Left out

- The workflow engine's `execute` contains only comments, so its run is the `ConversationEngine.Engine` parameter. No resume, halt or chat-repeat algorithm is modelled.
- The context class has no `to_h` or `from_record`. The serialisation is the `ConversationEngine.Serialiser` parameter, so no round trip is stated.
- Language-model calls are parameters: the gateway, the OpenAI client in the memory bank and in the summariser, and the chat call. Their HTTP, API-key and error handling are not modelled.
- `JSON.parse` and `Date.parse` are parameters (`JsonExtractor.JsonParser`, `SaveStep.DateParser`).
- Database lookups are parameters: templates, brand templates, conversations, workflows and brands.
- Row creation returns the row built with a given new id, instead of writing to a store.
- Ruby's `inspect` of arrays and hashes is the `Values.Inspector` parameter, because hash iteration order is not part of the model.
- Rack's `call`/`ensure` plumbing, the HTTP controllers, and the clearing of the tenant after the request are left out, since they are I/O.
- acts_as_tenant query scoping and `has_secure_password` are library behaviour and are left out.
- Concurrency between turns and logging are left out.
- Payment amounts are integer cents, without decimal precision.
- Models with only presence checks (brand, event, template, answered field, conversation) are left out.
- MemoryBank.ExtractMemory: the extraction parameter yields a JSON object or nothing. A reply that parses to an array or a scalar is not modelled.
- ChatStep.StoredMemory: a stored memory that is a string or an array is treated as raising, but the source can go on with it, so the model raises for turns the source completes. For example, the string `"abc"` with the counter below 3 is not empty. `build_context_prompt` then reads nil for every fact key and returns `""`, and the reply follows. Integers and booleans raise at `empty?` in the source, as in the model.
- Summarizer.Lines: each message is clipped at 200 characters by the corrected `Summarizer.Clip`, not at the 201 that `content[0..200]` keeps (see Findings). `Summarizer.Transcript` and `Summarizer.Summarize` inherit this.
- Values.Value: JSON numbers are integers only. A fractional number (a parsed reply field `10.5`, a stored counter `2.0`) is not modelled, because floating point is outside the model.
- SaveStep.ParseDate: a non-empty array or hash given as a date is treated as no date. It is not passed to `create!` as it is.
- ResponseStep.CallAsWritten: backslash sequences in a `gsub!` replacement string are not interpreted.
- Records.CodiceFiscaleFormat: case-insensitive matching of non-ASCII letters is not modelled.
- Summarizer.Summarize: message content that is nil is not modelled.
- Hash insertion order is not modelled, because maps are unordered.

## Findings

| source | as written | input that shows it | evidently intended | confidence | as-written member | corrected member |
|---|---|---|---|---|---|---|
| app/services/workflows/steps/response_step.rb:35 | each placeholder is replaced with `gsub!` on the accumulated result, so replacement text is searched again | state `a` = `{{context.b}}`, `b` = `X`, template `{{context.a}}{{context.b}}` renders `XX` | a single pass, as the save step and prompt builder render: `{{context.b}}X` | not executed | ResponseStep.CallAsWritten (ResponseStep.ReExpansion) | ResponseStep.Call |
| app/services/ai/conversation_summarizer.rb:14 | `content[0..200]` is an inclusive range and keeps 201 characters | any 201-character message loses nothing but gains "..." | at most 200 characters kept, as the comment says | not executed | Summarizer.ClipAsWritten (Summarizer.ClipAsWrittenKeepsOneMore) | Summarizer.Clip |
| app/services/workflows/steps/chat_step.rb:61-66 | the gateway is called with `message_history:`, which app/services/ai/ai_gateway.rb:3 does not accept, so the call raises ArgumentError | a new conversation whose first message is from the user | the reply of a model call that takes the history | not executed | ChatStep.CallAsWritten (ChatStep.AsWrittenNeverAnswers, ChatStep.FirstTurnRaises) | ChatStep.Call |
| app/services/conversation_engine.rb:28 | `context.to_h` is called, but app/services/workflows/workflow_context.rb:10-36 defines no `to_h`, so the turn raises after the run | any turn whose workflow run completes with reply "Hi" | the context stored and the reply stored and returned | not executed | ConversationEngine.ProcessAsWritten (ConversationEngine.AsWrittenLosesReply) | ConversationEngine.Process |
