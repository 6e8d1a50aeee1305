/** The chat step's compact memory: facts extracted from the recent
    conversation by the language model, merged into the stored facts, and
    rendered as lines for the system prompt. The model call is a parameter
    (`Extractor`), returning the parsed JSON object or nothing on any
    failure. */
module MemoryBank {
  import opened Optional
  import opened Values
  import opened Turns
  import Text

  type Memory = map<string, Value>

  /** The extraction call: the parsed object, or `None` when there is no API
      key, no reply, or the reply does not parse. */
  type Extractor = string -> Option<Memory>

  /** How many of the latest messages the extraction reads. */
  const ExtractionWindow: nat := 10

  const ExtractionHeader: string :=
    "Extract ONLY key information from this conversation as JSON:\n" +
    "{\n" +
    "  \"customer_name\": \"name if mentioned\",\n" +
    "  \"preferred_date\": \"date if mentioned\",\n" +
    "  \"preferred_time\": \"time if mentioned\",\n" +
    "  \"service_type\": \"service/consultation type if mentioned\",\n" +
    "  \"status\": \"current booking status (e.g., 'collecting_info', 'confirmed', etc.)\",\n" +
    "  \"notes\": \"any important notes or preferences\"\n" +
    "}\n" +
    "\n" +
    "Only include fields that were actually mentioned. Return JSON only, no other text.\n" +
    "\n" +
    "Conversation:\n"

  /** One transcript line per message. */
  function Lines(ts: seq<Turn>): (r: seq<string>)
    ensures |r| == |ts|
    ensures forall i | 0 <= i < |ts| :: r[i] == Line(ts[i].role, ts[i].content)
    decreases |ts|
  {
    if |ts| == 0 then [] else [Line(ts[0].role, ts[0].content)] + Lines(ts[1..])
  }

  /** The transcript of the last ten messages, one line each. */
  function Transcript(msgs: seq<Turn>): string {
    Text.Join(Lines(Text.Last(msgs, ExtractionWindow)), "\n")
  }

  function ExtractionPrompt(msgs: seq<Turn>): string {
    ExtractionHeader + Transcript(msgs) + "\n"
  }

  /** `extract_memory`: `{}` for no messages (without calling the model) or
      a failed call; otherwise the extracted facts. */
  function ExtractMemory(msgs: seq<Turn>, llm: Extractor): (r: Memory)
    ensures |msgs| == 0 ==> r == map[]
    ensures |msgs| > 0 && llm(ExtractionPrompt(msgs)).None? ==> r == map[]
    ensures |msgs| > 0 && llm(ExtractionPrompt(msgs)).Some? ==> r == llm(ExtractionPrompt(msgs)).value
  {
    if |msgs| == 0 then map[]
    else llm(ExtractionPrompt(msgs)).GetOr(map[])
  }

  /** Messages older than the last ten never reach the model. */
  lemma OnlyLastTenRead(older: seq<Turn>, recent: seq<Turn>, llm: Extractor)
    requires |recent| >= ExtractionWindow
    ensures ExtractMemory(older + recent, llm) == ExtractMemory(recent, llm)
  {
    var all := older + recent;
    assert all[|all| - ExtractionWindow..] == recent[|recent| - ExtractionWindow..];
  }

  // ---------------------------------------------------------------------
  // Merging

  /** A new value worth keeping: present, and not the text `"null"`. */
  predicate Keeps(v: Value) {
    Present(v) && v != Str("null") && v != Str("")
  }

  /** The keys a merge takes from the new extraction. */
  function KeptKeys(extracted: Memory): set<string> {
    set k | k in extracted && Keeps(extracted[k])
  }

  /** `merge_memory`: every kept new value overwrites; every other old
      entry stays. The old map itself is a value and is not changed. */
  function Merge(stored: Memory, extracted: Memory): (r: Memory)
    ensures r.Keys == stored.Keys + KeptKeys(extracted)
    ensures forall k | k in extracted && Keeps(extracted[k]) :: r[k] == extracted[k]
    ensures forall k | k in stored && k !in KeptKeys(extracted) :: r[k] == stored[k]
  {
    map k | k in stored.Keys + KeptKeys(extracted) :: if k in KeptKeys(extracted) then extracted[k] else stored[k]
  }

  /** No fact is ever removed. */
  lemma MergeKeepsKeys(stored: Memory, extracted: Memory)
    ensures stored.Keys <= Merge(stored, extracted).Keys
  {
  }

  /** Merging nothing changes nothing. */
  lemma MergeEmpty(m: Memory)
    ensures Merge(m, map[]) == m
  {
  }

  /** Merging the same extraction twice is the same as merging it once. */
  lemma MergeIdempotent(a: Memory, b: Memory)
    ensures Merge(Merge(a, b), b) == Merge(a, b)
  {
  }

  /** Blank values and the text `"null"` never overwrite a fact. */
  lemma MergeIgnoresPlaceholders(stored: Memory, k: string, v: Value)
    requires k in stored && (Blank(v) || v == Str("null"))
    ensures Merge(stored, map[k := v])[k] == stored[k]
  {
  }

  /** A new fact overwrites and an extracted `"null"` is ignored:
      `{name: "Ana", status: "new"}` merged with
      `{status: "confirmed", name: "null"}` gives
      `{name: "Ana", status: "confirmed"}`. */
  lemma MergeExample(ana: Value, confirmed: Value, nul: Value)
    requires ana == Str("Ana") && confirmed == Str("confirmed") && nul == Str("null")
    ensures Merge(map["customer_name" := ana, "status" := Str("new")],
                  map["status" := confirmed, "customer_name" := nul]) ==
            map["customer_name" := ana, "status" := confirmed]
  {
    assert !Text.IsSpace("confirmed"[0]);
    assert Keeps(confirmed) && !Keeps(nul);
  }

  // ---------------------------------------------------------------------
  // Rendering

  const Header: string := "Customer information:"

  /** The rendered facts, in their fixed order, with their labels. */
  const Facts: seq<(string, string)> := [
    ("customer_name", "- Name: "),
    ("preferred_date", "- Preferred date: "),
    ("preferred_time", "- Preferred time: "),
    ("service_type", "- Service type: "),
    ("status", "- Status: "),
    ("notes", "- Notes: ")]

  function FactLines(m: Memory, facts: seq<(string, string)>, inspect: Inspector): (r: seq<string>)
    ensures |r| <= |facts|
    decreases |facts|
  {
    if |facts| == 0 then []
    else
      var v := At(m, facts[0].0);
      (if Present(v) then [facts[0].1 + ToS(v, inspect)] else []) + FactLines(m, facts[1..], inspect)
  }

  /** The lines `build_context_prompt` joins: the header when a name is
      present, then one line per present fact. */
  function PromptLines(m: Memory, inspect: Inspector): seq<string> {
    (if Present(At(m, "customer_name")) then [Header] else []) + FactLines(m, Facts, inspect)
  }

  /** `build_context_prompt`. */
  function ContextPrompt(m: Memory, inspect: Inspector): (r: string)
    ensures |m| == 0 ==> r == ""
  {
    if |m| == 0 then "" else Text.Join(PromptLines(m, inspect), "\n")
  }

  /** The known fact keys. */
  predicate Known(k: string) {
    exists i | 0 <= i < |Facts| :: Facts[i].0 == k
  }

  lemma {:induction false} FactLinesUseOnly(m1: Memory, m2: Memory, facts: seq<(string, string)>, inspect: Inspector)
    requires forall i | 0 <= i < |facts| :: At(m1, facts[i].0) == At(m2, facts[i].0)
    ensures FactLines(m1, facts, inspect) == FactLines(m2, facts, inspect)
    decreases |facts|
  {
    if |facts| > 0 {
      FactLinesUseOnly(m1, m2, facts[1..], inspect);
    }
  }

  /** Keys outside the six known facts contribute nothing: adding them
      never changes the rendering (not even from the empty memory). */
  lemma UnknownKeysIgnored(m: Memory, extra: Memory, inspect: Inspector)
    requires forall k | k in extra :: !Known(k)
    ensures ContextPrompt(m + extra, inspect) == ContextPrompt(m, inspect)
  {
    forall i | 0 <= i < |Facts|
      ensures At(m + extra, Facts[i].0) == At(m, Facts[i].0)
    {
      assert Known(Facts[i].0);
    }
    assert Known("customer_name") by { assert Facts[0].0 == "customer_name"; }
    FactLinesUseOnly(m + extra, m, Facts, inspect);
    if |m| == 0 {
      FactLinesUseOnly(m, map[], Facts, inspect);
      assert FactLines(map[], Facts, inspect) == [] by { FactLinesOfEmpty(Facts, inspect); }
    }
  }

  lemma {:induction false} FactLinesOfEmpty(facts: seq<(string, string)>, inspect: Inspector)
    ensures FactLines(map[], facts, inspect) == []
    decreases |facts|
  {
    if |facts| > 0 {
      FactLinesOfEmpty(facts[1..], inspect);
    }
  }

  /** The header is there exactly when a name is present. */
  lemma HeaderIffName(m: Memory, inspect: Inspector)
    ensures |PromptLines(m, inspect)| > 0 && PromptLines(m, inspect)[0] == Header <==>
            Present(At(m, "customer_name"))
  {
    var fl := FactLines(m, Facts, inspect);
    if !Present(At(m, "customer_name")) && |fl| > 0 {
      FactLineShape(m, Facts, inspect);
      assert fl[0][0] == '-';
    }
  }

  /** Every fact line begins with `-`. */
  lemma {:induction false} FactLineShape(m: Memory, facts: seq<(string, string)>, inspect: Inspector)
    requires forall i | 0 <= i < |facts| :: |facts[i].1| > 0 && facts[i].1[0] == '-'
    ensures forall i | 0 <= i < |FactLines(m, facts, inspect)| :: |FactLines(m, facts, inspect)[i]| > 0 &&
              FactLines(m, facts, inspect)[i][0] == '-'
    decreases |facts|
  {
    if |facts| > 0 {
      FactLineShape(m, facts[1..], inspect);
    }
  }

  /** The rendering can be read back: when no fact's text contains a line
      break, splitting the prompt at line breaks gives the lines, in their
      fixed order. */
  lemma ContextPromptLines(m: Memory, inspect: Inspector)
    requires |m| > 0 && |PromptLines(m, inspect)| > 0
    requires forall i | 0 <= i < |Facts| :: '\n' !in ToS(At(m, Facts[i].0), inspect)
    ensures Text.Fields(ContextPrompt(m, inspect), '\n') == PromptLines(m, inspect)
  {
    PromptLinesNoBreak(m, inspect);
    assert ['\n'] == "\n";
    Text.FieldsJoin(PromptLines(m, inspect), '\n');
  }

  lemma PromptLinesNoBreak(m: Memory, inspect: Inspector)
    requires forall i | 0 <= i < |Facts| :: '\n' !in ToS(At(m, Facts[i].0), inspect)
    ensures forall i | 0 <= i < |PromptLines(m, inspect)| :: '\n' !in PromptLines(m, inspect)[i]
  {
    LabelsNoBreak();
    FactLinesNoBreak(m, Facts, inspect);
    assert '\n' !in Header;
  }

  lemma LabelsNoBreak()
    ensures forall i | 0 <= i < |Facts| :: '\n' !in Facts[i].1
  {
    forall i | 0 <= i < |Facts|
      ensures '\n' !in Facts[i].1
    {
      var l := Facts[i].1;
      assert forall j | 0 <= j < |l| :: l[j] != '\n';
    }
  }

  lemma {:induction false} FactLinesNoBreak(m: Memory, facts: seq<(string, string)>, inspect: Inspector)
    requires forall i | 0 <= i < |facts| :: '\n' !in facts[i].1 && '\n' !in ToS(At(m, facts[i].0), inspect)
    ensures forall i | 0 <= i < |FactLines(m, facts, inspect)| :: '\n' !in FactLines(m, facts, inspect)[i]
    decreases |facts|
  {
    if |facts| > 0 {
      FactLinesNoBreak(m, facts[1..], inspect);
    }
  }

  // ---------------------------------------------------------------------
  // Which facts are rendered, and in what order

  /** The line a fact renders as: its label, then the value's `to_s`. */
  function FactLine(m: Memory, fact: (string, string), inspect: Inspector): string {
    fact.1 + ToS(At(m, fact.0), inspect)
  }

  /** A present fact's line is among the rendered lines. */
  lemma {:induction false} PresentLineListed(m: Memory, facts: seq<(string, string)>, inspect: Inspector, i: nat)
    requires i < |facts| && Present(At(m, facts[i].0))
    ensures FactLine(m, facts[i], inspect) in FactLines(m, facts, inspect)
    decreases |facts|
  {
    if i > 0 {
      PresentLineListed(m, facts[1..], inspect, i - 1);
      assert facts[1..][i - 1] == facts[i];
    }
  }

  /** Every rendered line is the line of some present fact. */
  lemma {:induction false} ListedLineOrigin(m: Memory, facts: seq<(string, string)>, inspect: Inspector, k: nat)
    requires k < |FactLines(m, facts, inspect)|
    ensures exists j | 0 <= j < |facts| ::
              Present(At(m, facts[j].0)) && FactLines(m, facts, inspect)[k] == FactLine(m, facts[j], inspect)
    decreases |facts|
  {
    var here := Present(At(m, facts[0].0));
    var tail := FactLines(m, facts[1..], inspect);
    if here && k == 0 {
      assert FactLines(m, facts, inspect)[0] == FactLine(m, facts[0], inspect);
    } else {
      var k' := if here then k - 1 else k;
      assert FactLines(m, facts, inspect)[k] == tail[k'];
      ListedLineOrigin(m, facts[1..], inspect, k');
      var j :| 0 <= j < |facts[1..]| && Present(At(m, facts[1..][j].0)) && tail[k'] == FactLine(m, facts[1..][j], inspect);
      assert facts[1..][j] == facts[j + 1];
    }
  }

  /** Two present facts are rendered in the order of the fact list. */
  lemma {:induction false} LinesInOrder(m: Memory, facts: seq<(string, string)>, inspect: Inspector, i: nat, j: nat)
    requires i < j < |facts| && Present(At(m, facts[i].0)) && Present(At(m, facts[j].0))
    ensures exists p, q | 0 <= p < q < |FactLines(m, facts, inspect)| ::
              FactLines(m, facts, inspect)[p] == FactLine(m, facts[i], inspect) &&
              FactLines(m, facts, inspect)[q] == FactLine(m, facts[j], inspect)
    decreases |facts|
  {
    var r := FactLines(m, facts, inspect);
    var tail := FactLines(m, facts[1..], inspect);
    var lead := if Present(At(m, facts[0].0)) then 1 else 0;
    assert r == (if lead == 1 then [FactLine(m, facts[0], inspect)] else []) + tail;
    assert facts[1..][j - 1] == facts[j];
    if i == 0 {
      PresentLineListed(m, facts[1..], inspect, j - 1);
      var q :| 0 <= q < |tail| && tail[q] == FactLine(m, facts[j], inspect);
      assert r[0] == FactLine(m, facts[0], inspect) && r[q + 1] == tail[q];
    } else {
      LinesInOrder(m, facts[1..], inspect, i - 1, j - 1);
      assert facts[1..][i - 1] == facts[i];
      var p, q :| 0 <= p < q < |tail| && tail[p] == FactLine(m, facts[i], inspect) &&
                  tail[q] == FactLine(m, facts[j], inspect);
      assert r[p + lead] == tail[p] && r[q + lead] == tail[q];
    }
  }

  /** Two labels differ at a position both have, so no two lines built from
      them can be equal. */
  predicate Apart(x: string, y: string) {
    exists d | 0 <= d < |x| && d < |y| :: x[d] != y[d]
  }

  predicate LabelsApart(facts: seq<(string, string)>) {
    forall a, b | 0 <= a < |facts| && 0 <= b < |facts| && a != b :: Apart(facts[a].1, facts[b].1)
  }

  lemma ApartLines(x: string, y: string, u: string, w: string)
    requires Apart(x, y)
    ensures x + u != y + w
  {
    var d :| 0 <= d < |x| && d < |y| && x[d] != y[d];
    assert (x + u)[d] == x[d] && (y + w)[d] == y[d];
  }

  /** With labels apart, only a present fact's line is ever rendered. */
  lemma ListedLinePresent(m: Memory, facts: seq<(string, string)>, inspect: Inspector, i: nat)
    requires LabelsApart(facts) && i < |facts|
    requires FactLine(m, facts[i], inspect) in FactLines(m, facts, inspect)
    ensures Present(At(m, facts[i].0))
  {
    var r := FactLines(m, facts, inspect);
    var k :| 0 <= k < |r| && r[k] == FactLine(m, facts[i], inspect);
    ListedLineOrigin(m, facts, inspect, k);
    var j :| 0 <= j < |facts| && Present(At(m, facts[j].0)) && r[k] == FactLine(m, facts[j], inspect);
    if j != i {
      ApartLines(facts[j].1, facts[i].1, ToS(At(m, facts[j].0), inspect), ToS(At(m, facts[i].0), inspect));
    }
  }

  /** The six labels differ pairwise within their common length. */
  lemma FactsApart()
    ensures LabelsApart(Facts)
  {
    var n, d, t, s, st, no := Facts[0].1, Facts[1].1, Facts[2].1, Facts[3].1, Facts[4].1, Facts[5].1;
    assert n[2] == 'N' && n[3] == 'a';
    assert d[2] == 'P' && d[12] == 'd';
    assert t[2] == 'P' && t[12] == 't';
    assert s[2] == 'S' && s[3] == 'e';
    assert st[2] == 'S' && st[3] == 't';
    assert no[2] == 'N' && no[3] == 'o';
    forall a, b | 0 <= a < |Facts| && 0 <= b < |Facts| && a != b
      ensures Apart(Facts[a].1, Facts[b].1)
    {
      var x, y := Facts[a].1, Facts[b].1;
      if x[2] != y[2] {
        assert Apart(x, y);
      } else if x[3] != y[3] {
        assert Apart(x, y);
      } else {
        assert x[12] != y[12];
      }
    }
  }

  /** Every fact line begins with `-`, so none is the header. */
  lemma FactLineNotHeader(m: Memory, inspect: Inspector, i: nat)
    requires i < |Facts|
    ensures FactLine(m, Facts[i], inspect) != Header
  {
    assert Facts[i].1[0] == '-';
    assert FactLine(m, Facts[i], inspect)[0] == '-';
    assert Header[0] == 'C';
  }

  /** `build_context_prompt` lists a fact exactly when it is present: its
      labelled line is among the prompt's lines iff the value is present. */
  lemma PromptShowsPresentFacts(m: Memory, inspect: Inspector, i: nat)
    requires i < |Facts|
    ensures Present(At(m, Facts[i].0)) <==> FactLine(m, Facts[i], inspect) in PromptLines(m, inspect)
  {
    var line := FactLine(m, Facts[i], inspect);
    FactLineNotHeader(m, inspect, i);
    if Present(At(m, Facts[i].0)) {
      PresentLineListed(m, Facts, inspect, i);
    } else if line in FactLines(m, Facts, inspect) {
      FactsApart();
      ListedLinePresent(m, Facts, inspect, i);
    }
  }

  /** The present facts appear in the fixed order name, date, time,
      service, status, notes. */
  lemma PromptFactOrder(m: Memory, inspect: Inspector, i: nat, j: nat)
    requires i < j < |Facts| && Present(At(m, Facts[i].0)) && Present(At(m, Facts[j].0))
    ensures exists p, q | 0 <= p < q < |PromptLines(m, inspect)| ::
              PromptLines(m, inspect)[p] == FactLine(m, Facts[i], inspect) &&
              PromptLines(m, inspect)[q] == FactLine(m, Facts[j], inspect)
  {
    var r := FactLines(m, Facts, inspect);
    var h := if Present(At(m, "customer_name")) then [Header] else [];
    LinesInOrder(m, Facts, inspect, i, j);
    OrderAfterPrefix(h, r, FactLine(m, Facts[i], inspect), FactLine(m, Facts[j], inspect));
    assert PromptLines(m, inspect) == h + r;
  }

  /** Putting lines in front keeps the order of the lines after them. */
  lemma OrderAfterPrefix(h: seq<string>, r: seq<string>, a: string, b: string)
    requires exists p, q | 0 <= p < q < |r| :: r[p] == a && r[q] == b
    ensures exists p, q | 0 <= p < q < |h + r| :: (h + r)[p] == a && (h + r)[q] == b
  {
    var p, q :| 0 <= p < q < |r| && r[p] == a && r[q] == b;
    assert (h + r)[p + |h|] == a && (h + r)[q + |h|] == b;
  }

  /** A name and notes: the header, the name line and the notes line. */
  lemma NameAndNotes(inspect: Inspector)
    ensures ContextPrompt(map["customer_name" := Str("Ana"), "notes" := Str("x")], inspect) ==
            "Customer information:" + "\n" + "- Name: Ana" + "\n" + "- Notes: x"
  {
    var m := map["customer_name" := Str("Ana"), "notes" := Str("x")];
    NameAndNotesLines(m, inspect);
    assert "customer_name" in m;
    JoinThree(Header, "- Name: Ana", "- Notes: x", "\n");
  }

  lemma JoinThree(a: string, b: string, c: string, sep: string)
    ensures Text.Join([a, b, c], sep) == a + sep + b + sep + c
  {
    assert [a, b, c][1..] == [b, c];
    assert [b, c][1..] == [c];
    assert Text.Join([b, c], sep) == b + sep + c;
    assert a + sep + (b + sep + c) == a + sep + b + sep + c;
  }

  lemma NameAndNotesLines(m: Memory, inspect: Inspector)
    requires m == map["customer_name" := Str("Ana"), "notes" := Str("x")]
    ensures PromptLines(m, inspect) == [Header, "- Name: Ana", "- Notes: x"]
  {
    AnaAndNotesValues(m, inspect);
    assert FactLines(m, Facts[5..], inspect) == ["- Notes: x"] by {
      assert Facts[5..] == [("notes", "- Notes: ")];
      assert Facts[5..][1..] == [];
      assert FactLines(m, Facts[5..][1..], inspect) == [];
      assert "- Notes: " + "x" == "- Notes: x";
    }
    assert FactLines(m, Facts[1..], inspect) == ["- Notes: x"] by {
      assert FactLines(m, Facts[4..], inspect) == ["- Notes: x"] by { assert Facts[4..][1..] == Facts[5..]; }
      assert FactLines(m, Facts[3..], inspect) == ["- Notes: x"] by { assert Facts[3..][1..] == Facts[4..]; }
      assert FactLines(m, Facts[2..], inspect) == ["- Notes: x"] by { assert Facts[2..][1..] == Facts[3..]; }
      assert Facts[1..][1..] == Facts[2..];
    }
    assert "- Name: " + "Ana" == "- Name: Ana";
    assert FactLines(m, Facts, inspect) == ["- Name: Ana", "- Notes: x"];
  }

  lemma AnaAndNotesValues(m: Memory, inspect: Inspector)
    requires m == map["customer_name" := Str("Ana"), "notes" := Str("x")]
    ensures At(m, "customer_name") == Str("Ana") && At(m, "notes") == Str("x")
    ensures !Present(At(m, "preferred_date")) && !Present(At(m, "preferred_time"))
    ensures !Present(At(m, "service_type")) && !Present(At(m, "status"))
    ensures Present(Str("Ana")) && Present(Str("x"))
    ensures ToS(Str("Ana"), inspect) == "Ana" && ToS(Str("x"), inspect) == "x"
  {
    assert "x"[0] == 'x' && "Ana"[0] == 'A';
    assert "preferred_date" != "customer_name" && "preferred_date" != "notes" by { assert "preferred_date"[0] == 'p'; }
    assert "preferred_time" != "customer_name" && "preferred_time" != "notes" by { assert "preferred_time"[0] == 'p'; }
    assert "service_type" != "customer_name" && "service_type" != "notes" by { assert "service_type"[0] == 's'; }
    assert "status" != "customer_name" && "status" != "notes" by { assert "status"[0] == 's'; }
  }
}
