/** `ConversationSummarizer.summarize_messages`: a transcript of the given
    messages, each clipped to a fixed length and the whole cut to its last
    3000 characters, sent to the language model for a short summary. The
    model call is a parameter (`Llm`) that gives the reply text, or nothing
    when there is no API key, no reply, or the call fails. */
module Summarizer {
  import opened Optional
  import opened Turns
  import Text

  type Llm = string -> Option<string>

  /** The longest message content kept whole. */
  const MaxContent: nat := 200
  /** The longest transcript sent. */
  const MaxTranscript: nat := 3000

  const Ellipsis: string := "..."

  /** The clipping as written: `content[0..200] + "..."`, an inclusive range,
      so 201 characters are kept. */
  function ClipAsWritten(content: string): (r: string)
    ensures |content| <= MaxContent ==> r == content
    ensures |content| > MaxContent ==> r == content[..MaxContent + 1] + Ellipsis
  {
    if |content| > MaxContent then content[..MaxContent + 1] + Ellipsis else content
  }

  /** A 201-character message loses nothing but is still marked as cut, and
      every longer one keeps one character more than the maximum. */
  lemma ClipAsWrittenKeepsOneMore(content: string)
    requires |content| > MaxContent
    ensures |ClipAsWritten(content)| == MaxContent + 1 + |Ellipsis|
    ensures |content| == MaxContent + 1 ==> ClipAsWritten(content) == content + Ellipsis
  {
  }

  /** The clipping the comment describes: at most 200 characters kept. */
  function Clip(content: string): (r: string)
    ensures |content| <= MaxContent ==> r == content
    ensures |content| > MaxContent ==> r == content[..MaxContent] + Ellipsis
  {
    if |content| > MaxContent then content[..MaxContent] + Ellipsis else content
  }

  /** The clipped text never exceeds the maximum plus the ellipsis, starts
      with the content's own first characters, and is marked when (and only
      when) something was dropped. */
  lemma ClipBounded(content: string)
    ensures |Clip(content)| <= MaxContent + |Ellipsis|
    ensures |content| <= MaxContent ==> Clip(content) == content
    ensures |content| > MaxContent ==>
              Text.StartsWith(Clip(content), content[..MaxContent]) &&
              |Clip(content)| == MaxContent + |Ellipsis| && |Clip(content)| < |content| + |Ellipsis|
  {
  }

  /** The transcript lines: one labelled, clipped line per message. */
  function Lines(msgs: seq<Turn>): (r: seq<string>)
    ensures |r| == |msgs|
    ensures forall i | 0 <= i < |msgs| :: r[i] == Line(msgs[i].role, Clip(msgs[i].content))
    decreases |msgs|
  {
    if |msgs| == 0 then [] else [Line(msgs[0].role, Clip(msgs[0].content))] + Lines(msgs[1..])
  }

  /** The last `MaxTranscript` characters of a longer transcript. */
  function Cut(text: string): (r: string)
    ensures |r| <= MaxTranscript
    ensures |r| <= |text| && r == text[|text| - |r|..]
    ensures r == text <==> |text| <= MaxTranscript
  {
    if |text| > MaxTranscript then text[|text| - MaxTranscript..] else text
  }

  function Transcript(msgs: seq<Turn>): string {
    Cut(Text.Join(Lines(msgs), "\n"))
  }

  function SummaryPrompt(text: string): string {
    "Summarize this conversation concisely (2-3 sentences max). Focus on:\n" +
    "- Key info (names, dates, preferences)\n" +
    "- Important decisions\n" +
    "- Current status\n" +
    "\n" +
    "Conversation:\n" +
    text + "\n" +
    "\n" +
    "Summary:\n"
  }

  /** `summarize_messages`: nothing for no messages (without a model call)
      or a failed call; otherwise the model's reply, stripped. */
  function Summarize(msgs: Option<seq<Turn>>, llm: Llm): (r: Option<string>)
    ensures (msgs.None? || |msgs.value| == 0) ==> r.None?
    ensures msgs.Some? && |msgs.value| > 0 ==>
              (r.Some? <==> llm(SummaryPrompt(Transcript(msgs.value))).Some?)
    ensures r.Some? ==>
              (|r.value| == 0 || (!Text.IsStrippable(r.value[0]) && !Text.IsStrippable(r.value[|r.value| - 1])))
    // the summary is the model's reply to the prompt, stripped
    ensures r.Some? ==> msgs.Some? && llm(SummaryPrompt(Transcript(msgs.value))).Some? &&
                        r.value == Text.Strip(llm(SummaryPrompt(Transcript(msgs.value))).value)
  {
    match msgs
    case None => None
    case Some(ms) =>
      if |ms| == 0 then None
      else
        match llm(SummaryPrompt(Transcript(ms)))
        case None => None
        case Some(reply) => Some(Text.Strip(reply))
  }

  // ---------------------------------------------------------------------
  // Properties

  /** A short conversation is sent whole: split at line breaks, the
      transcript gives back one labelled line per message, in order. */
  lemma {:induction false} ShortTranscriptLines(msgs: seq<Turn>)
    requires |msgs| > 0
    requires forall i | 0 <= i < |msgs| :: '\n' !in msgs[i].content
    requires |Text.Join(Lines(msgs), "\n")| <= MaxTranscript
    ensures Text.Fields(Transcript(msgs), '\n') == Lines(msgs)
  {
    var ls := Lines(msgs);
    forall i | 0 <= i < |ls|
      ensures '\n' !in ls[i]
    {
      LineNoBreak(msgs[i]);
    }
    assert [('\n')] == "\n";
    Text.FieldsJoin(ls, '\n');
  }

  /** A message without a line break gives a transcript line without one. */
  lemma LineNoBreak(t: Turn)
    requires '\n' !in t.content
    ensures '\n' !in Line(t.role, Clip(t.content))
  {
    var c := Clip(t.content);
    assert '\n' !in c by {
      if |t.content| > MaxContent {
        assert c == t.content[..MaxContent] + Ellipsis;
      }
    }
    var l := Label(t.role);
    assert '\n' !in l + ": " by {
      assert l == "User" || l == "Assistant";
    }
    assert Line(t.role, c) == l + ": " + c;
  }

  /** The summary depends only on the transcript tail it is sent: two
      conversations whose transcripts end with the same 3000 characters
      get the same summary. */
  lemma SameTailSameSummary(a: seq<Turn>, b: seq<Turn>, llm: Llm)
    requires |a| > 0 && |b| > 0
    requires Transcript(a) == Transcript(b)
    ensures Summarize(Some(a), llm) == Summarize(Some(b), llm)
  {
  }

  /** A cut transcript is a suffix of exactly the maximum length. */
  lemma LongTranscriptCut(text: string)
    requires |text| > MaxTranscript
    ensures |Cut(text)| == MaxTranscript
    ensures text == text[..|text| - MaxTranscript] + Cut(text)
  {
  }
}
