/** Pulls a JSON value out of free-form model output: the text is stripped,
    a candidate span is chosen, and the candidate is parsed. `JSON.parse`
    itself is a parameter (`None` where it raises `JSON::ParserError`). */
module JsonExtractor {
  import opened Optional
  import opened Values
  import Text

  type JsonParser = string -> Option<Value>

  /** The last position of `c` in `s`. */
  function LastIndexOf(s: string, c: char): (r: Option<nat>)
    ensures r.Some? ==> r.value < |s| && s[r.value] == c
    ensures r.Some? ==> forall k | r.value < k < |s| :: s[k] != c
    ensures r.None? <==> c !in s
    decreases |s|
  {
    if |s| == 0 then None
    else if s[|s| - 1] == c then Some(|s| - 1)
    else LastIndexOf(s[..|s| - 1], c)
  }

  /** Some `open` comes before some `close`: what `/\{[\s\S]*\}/` (or the
      bracket version) needs in order to match at all. */
  predicate HasSpan(t: string, open: char, close: char) {
    exists i, j | 0 <= i < j < |t| :: t[i] == open && t[j] == close
  }

  /** The text `/\{[\s\S]*\}/` (or its bracket version) matches: from the
      first `open` to the last `close`, because the leftmost match is taken
      and `[\s\S]*` is greedy. */
  function Span(t: string, open: char, close: char): (r: Option<string>)
    ensures r.Some? <==> HasSpan(t, open, close)
    ensures r.Some? ==> exists i, j | 0 <= i < j < |t| ::
              r.value == t[i..j + 1] && t[i] == open && t[j] == close &&
              open !in t[..i] && (forall k | j < k < |t| :: t[k] != close)
  {
    match (Text.IndexOf(t, open), LastIndexOf(t, close))
    case (Some(i), Some(j)) =>
      if i < j then Some(t[i..j + 1])
      else
        assert !HasSpan(t, open, close) by {
          forall i', j' | 0 <= i' < j' < |t| && t[i'] == open
            ensures t[j'] != close
          {
            if i' < i {
              assert false;
            }
          }
        }
        None
    case _ => None
  }

  /** `find_json_in_text` on stripped text: an object span, else an array
      span, else the whole text when it parses. */
  function Candidate(t: string, parse: JsonParser): (r: Option<string>)
    ensures HasSpan(t, '{', '}') ==> r == Span(t, '{', '}')
    ensures !HasSpan(t, '{', '}') && HasSpan(t, '[', ']') ==> r == Span(t, '[', ']')
    ensures !HasSpan(t, '{', '}') && !HasSpan(t, '[', ']') ==> (r == Some(t) <==> parse(t).Some?)
    ensures !HasSpan(t, '{', '}') && !HasSpan(t, '[', ']') ==> (r.Some? ==> r == Some(t))
  {
    match Span(t, '{', '}')
    case Some(o) => Some(o)
    case None =>
      match Span(t, '[', ']')
      case Some(a) => Some(a)
      case None => if parse(t).Some? then Some(t) else None
  }

  /** `JsonExtractor.extract(text)`: the parsed candidate, or `nil`. A parse
      failure is reported as `None`; nothing is raised. */
  function Extract(text: string, parse: JsonParser): (r: Option<Value>)
    ensures Candidate(Text.Strip(text), parse).None? ==> r.None?
    ensures Candidate(Text.Strip(text), parse).Some? ==> r == parse(Candidate(Text.Strip(text), parse).value)
  {
    match Candidate(Text.Strip(text), parse)
    case None => None
    case Some(c) => parse(c)
  }

  // ---------------------------------------------------------------------
  // Properties

  /** An object span is chosen even when a `[` comes before it. */
  lemma ObjectBeforeArray(a: string, o: string, b: string, parse: JsonParser)
    requires '{' !in a && '}' !in b
    requires |o| >= 2 && o[0] == '{' && o[|o| - 1] == '}'
    ensures Candidate(a + o + b, parse) == Some(o)
  {
    var t := a + o + b;
    var i := |a|;
    var j := |a| + |o| - 1;
    assert t[..i] == a;
    assert forall k | j < k < |t| :: t[k] == b[k - j - 1];
    SpanBetween(t, i, j, '{', '}');
    assert t[i..j + 1] == o;
  }

  /** The span runs from the first `open` to the last `close` when the
      first comes before the last. */
  lemma SpanBetween(t: string, i: nat, j: nat, open: char, close: char)
    requires i < j < |t| && t[i] == open && t[j] == close
    requires open !in t[..i] && forall k | j < k < |t| :: t[k] != close
    ensures Span(t, open, close) == Some(t[i..j + 1])
  {
    var fi := Text.IndexOf(t, open);
    assert fi == Some(i) by {
      assert t[i] == open;
    }
    var lj := LastIndexOf(t, close);
    assert lj == Some(j) by {
      assert t[j] == close;
    }
  }

  /** The concrete case: `[{}]` yields the object `{}`. */
  lemma ArrayWrappedObject(parse: JsonParser)
    ensures Candidate("[{}]", parse) == Some("{}")
  {
    var a, o, b := "[", "{}", "]";
    assert |a| == 1 && a[0] == '[' && |b| == 1 && b[0] == ']';
    assert |o| == 2 && o[0] == '{' && o[1] == '}';
    assert a + o + b == "[{}]";
    ObjectBeforeArray(a, o, b, parse);
  }

  /** Text with a closing bracket only before an opening one has no span. */
  lemma ReversedBracesNoSpan(t: string)
    requires forall i, j | 0 <= i < j < |t| :: !(t[i] == '{' && t[j] == '}')
    ensures Span(t, '{', '}').None?
  {
  }

  /** Stripped text is its own strip. */
  lemma StripFixed(s: string)
    requires |s| > 0 ==> !Text.IsStrippable(s[0]) && !Text.IsStrippable(s[|s| - 1])
    ensures Text.Strip(s) == s
  {
    assert Text.StripLeft(s) == s;
    assert Text.StripRight(s) == s;
  }

  /** Surrounding whitespace never matters: extracting from the stripped
      text gives the same result. */
  lemma ExtractIgnoresStrip(text: string, parse: JsonParser)
    ensures Extract(Text.Strip(text), parse) == Extract(text, parse)
  {
    StripFixed(Text.Strip(text));
  }
}
