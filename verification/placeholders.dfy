/** `{{context.path}}` placeholders, shared by the save step's field values,
    the prompt builder and the response step.

    A placeholder is what the regular expression `\{\{context\.(.*?)\}\}`
    matches: the text `{{context.`, then the shortest capture that reaches a
    `}}` without crossing a line break (`.` does not match `\n`). The
    capture is a dotted path: its first segment is read from the context
    state, every later segment steps into a nested hash, and anything that
    is not a hash along the way gives `nil`, which prints as `""`. */
module Placeholders {
  import opened Optional
  import opened Values
  import Text

  const Open: string := "{{context."
  const Close: string := "}}"

  /** Where the lazy capture that began at `j` ends: the first `}}` at or
      after `j`, provided no line break comes before it. */
  function CloseFrom(t: string, j: nat): (r: Option<nat>)
    ensures r.Some? ==> j <= r.value && r.value + 2 <= |t|
    ensures r.Some? ==> t[r.value] == '}' && t[r.value + 1] == '}'
    ensures r.Some? ==> forall k | j <= k < r.value :: t[k] != '\n'
    decreases |t| - j
  {
    if j + 1 < |t| && t[j] == '}' && t[j + 1] == '}' then Some(j)
    else if j >= |t| || t[j] == '\n' then None
    else CloseFrom(t, j + 1)
  }

  /** The end of a placeholder starting at the head of `t` (the index of its
      closing `}}`), if one starts there. */
  function MatchHere(t: string): (r: Option<nat>)
    ensures r.Some? ==> Text.StartsWith(t, Open) && |Open| <= r.value && r.value + 2 <= |t|
  {
    if Text.StartsWith(t, Open) then CloseFrom(t, |Open|) else None
  }

  /** Some placeholder starts somewhere in `t`. */
  predicate HasPlaceholder(t: string) {
    exists i | 0 <= i < |t| :: MatchHere(t[i..]).Some?
  }

  /** Ruby's `t.gsub(/\{\{context\.(.*?)\}\}/) { f(capture) }`: every
      placeholder, scanning left to right and resuming after each match,
      is replaced by `f` of its capture; all other text is copied. */
  function Subst(t: string, f: string -> string): string
    decreases |t|
  {
    if |t| == 0 then ""
    else match MatchHere(t)
      case Some(k) => f(t[|Open|..k]) + Subst(t[k + 2..], f)
      case None => [t[0]] + Subst(t[1..], f)
  }

  /** Ruby's `capture.split(".")`. */
  function Path(capture: string): (r: seq<string>)
    ensures forall i | 0 <= i < |r| :: '.' !in r[i]
  {
    Text.Split(capture, '.')
  }

  /** One step into a nested hash per key; a step from anything but a hash
      gives `nil`. */
  function Walk(v: Value, keys: seq<string>): (r: Value)
    // a value is found only through a hash holding the first key
    ensures |keys| > 0 && !r.Null? ==> v.Hash? && keys[0] in v.fields
    decreases |keys|
  {
    if |keys| == 0 then v
    else Walk(if v.Hash? then At(v.fields, keys[0]) else Null, keys[1..])
  }

  /** The value a placeholder's capture denotes. The first segment is read
      with the context's `get`; an empty path makes `shift` return `nil`,
      whose `to_s` is the key `""`. */
  function Lookup(state: map<string, Value>, capture: string): (r: Value)
    // a value is found only when the first segment is an entry of the state
    ensures !r.Null? && |Path(capture)| > 0 ==> Path(capture)[0] in state
  {
    var path := Path(capture);
    if |path| == 0 then At(state, "") else Walk(At(state, path[0]), path[1..])
  }

  /** The replacement text for one capture. */
  function Resolve(state: map<string, Value>, inspect: Inspector, capture: string): (r: string)
    ensures Lookup(state, capture).Null? ==> r == ""
    ensures Lookup(state, capture).Str? ==> r == Lookup(state, capture).s
  {
    ToS(Lookup(state, capture), inspect)
  }

  /** `Resolve` against one state, as the function the substitution applies. */
  function Resolver(state: map<string, Value>, inspect: Inspector): string -> string {
    c => Resolve(state, inspect, c)
  }

  /** The one renderer all three template sites use. */
  function Render(t: string, state: map<string, Value>, inspect: Inspector): string {
    Subst(t, Resolver(state, inspect))
  }

  // ---------------------------------------------------------------------
  // Properties of the substitution

  /** Text without any placeholder is returned unchanged. */
  lemma {:induction false} Verbatim(t: string, f: string -> string)
    requires !HasPlaceholder(t)
    ensures Subst(t, f) == t
    decreases |t|
  {
    if |t| > 0 {
      assert t[0..] == t;
      assert MatchHere(t[0..]).None?;
      forall i | 0 <= i < |t[1..]|
        ensures MatchHere(t[1..][i..]).None?
      {
        assert t[1..][i..] == t[i + 1..];
      }
      Verbatim(t[1..], f);
    }
  }

  /** A text with no `{` holds no placeholder. */
  lemma NoBraceNoPlaceholder(t: string)
    requires '{' !in t
    ensures !HasPlaceholder(t)
  {
    forall i | 0 <= i < |t|
      ensures MatchHere(t[i..]).None?
    {
      assert t[i..][0] == t[i];
    }
  }

  /** The `}}` after a capture free of `}` and line breaks is found from
      every position inside the capture. */
  lemma {:induction false} CloseAfterCapture(t: string, j: nat, e: nat)
    requires j <= e && e + 2 <= |t|
    requires t[e] == '}' && t[e + 1] == '}'
    requires forall k | j <= k < e :: t[k] != '}' && t[k] != '\n'
    ensures CloseFrom(t, j) == Some(e)
    decreases e - j
  {
    if j < e {
      CloseAfterCapture(t, j + 1, e);
    }
  }

  /** Where a placeholder written at the head of a text ends, and what its
      capture and the text after it are. */
  lemma PlaceholderShape(p: string, b: string)
    requires '}' !in p && '\n' !in p
    ensures MatchHere(Open + p + Close + b) == Some(|Open| + |p|)
    ensures (Open + p + Close + b)[|Open|..|Open| + |p|] == p
    ensures (Open + p + Close + b)[|Open| + |p| + 2..] == b
  {
    var t := Open + p + Close + b;
    var e := |Open| + |p|;
    assert Text.StartsWith(t, Open) by {
      assert t[..|Open|] == Open;
    }
    assert t[e] == '}' && t[e + 1] == '}';
    forall k | |Open| <= k < e
      ensures t[k] != '}' && t[k] != '\n'
    {
      assert t[k] == p[k - |Open|];
    }
    CloseAfterCapture(t, |Open|, e);
    assert t[|Open|..e] == p;
    assert t[e + 2..] == b;
  }

  /** A placeholder at the head of the text is replaced, and the rest is
      substituted in turn. */
  lemma SubstHead(p: string, b: string, f: string -> string)
    requires '}' !in p && '\n' !in p
    ensures Subst(Open + p + Close + b, f) == f(p) + Subst(b, f)
  {
    PlaceholderShape(p, b);
  }

  /** A character that cannot open a placeholder is copied. */
  lemma SubstCopies(t: string, f: string -> string)
    requires |t| > 0 && t[0] != '{'
    ensures Subst(t, f) == [t[0]] + Subst(t[1..], f)
  {
    assert !Text.StartsWith(t, Open);
  }

  /** Literal text (without `{`), then one placeholder whose capture has no
      `}` or line break: the text is copied and the placeholder replaced. */
  lemma {:induction false} Splice(a: string, p: string, b: string, f: string -> string)
    requires '{' !in a
    requires '}' !in p && '\n' !in p
    ensures Subst(a + Open + p + Close + b, f) == a + f(p) + Subst(b, f)
    decreases |a|
  {
    var tail := Open + p + Close + b;
    Regroup(a, Open, p, Close, b);
    if |a| == 0 {
      assert a + tail == tail;
      SubstHead(p, b, f);
    } else {
      Uncons(a, tail);
      SubstCopies(a + tail, f);
      Regroup(a[1..], Open, p, Close, b);
      Splice(a[1..], p, b, f);
      Uncons(a, f(p) + Subst(b, f));
      Regroup3(a, f(p), Subst(b, f));
    }
  }

  lemma Regroup(a: string, w: string, x: string, y: string, z: string)
    ensures a + w + x + y + z == a + (w + x + y + z)
  {
  }

  lemma Regroup3(a: string, x: string, y: string)
    ensures a + x + y == a + (x + y)
  {
  }

  lemma Uncons(a: string, rest: string)
    requires |a| > 0
    ensures (a + rest)[0] == a[0] && (a + rest)[1..] == a[1..] + rest
    ensures [a[0]] + (a[1..] + rest) == a + rest
  {
  }

  /** `chunks[0]`, placeholder of `caps[0]`, `chunks[1]`, … `chunks[n]`. */
  function Template(chunks: seq<string>, caps: seq<string>): string
    requires |chunks| == |caps| + 1
    decreases |caps|
  {
    if |caps| == 0 then chunks[0]
    else chunks[0] + Open + caps[0] + Close + Template(chunks[1..], caps[1..])
  }

  /** The same text with each placeholder replaced by `f` of its capture. */
  function Filled(chunks: seq<string>, caps: seq<string>, f: string -> string): string
    requires |chunks| == |caps| + 1
    decreases |caps|
  {
    if |caps| == 0 then chunks[0]
    else chunks[0] + f(caps[0]) + Filled(chunks[1..], caps[1..], f)
  }

  /** Every placeholder occurrence is substituted, in order, and the text
      between them is preserved: for literal chunks free of `{` and captures
      free of `}` and line breaks. */
  lemma {:induction false} SubstTemplate(chunks: seq<string>, caps: seq<string>, f: string -> string)
    requires |chunks| == |caps| + 1
    requires forall i | 0 <= i < |chunks| :: '{' !in chunks[i]
    requires forall i | 0 <= i < |caps| :: '}' !in caps[i] && '\n' !in caps[i]
    ensures Subst(Template(chunks, caps), f) == Filled(chunks, caps, f)
    decreases |caps|
  {
    if |caps| == 0 {
      NoBraceNoPlaceholder(chunks[0]);
      Verbatim(chunks[0], f);
    } else {
      var rest := Template(chunks[1..], caps[1..]);
      Splice(chunks[0], caps[0], rest, f);
      SubstTemplate(chunks[1..], caps[1..], f);
    }
  }

  /** A match cannot run across a line break: the close search from inside
      `a` sees the same text whether or not `a` is followed by a line. */
  lemma {:induction false} CloseFromBeforeLineBreak(a: string, b: string, j: nat)
    requires j <= |a|
    ensures CloseFrom(a + "\n" + b, j) == CloseFrom(a, j)
    decreases |a| - j
  {
    var t := a + "\n" + b;
    assert t[|a|] == '\n';
    if j < |a| {
      assert t[j] == a[j];
      if j + 1 < |a| {
        assert t[j + 1] == a[j + 1];
      }
      CloseFromBeforeLineBreak(a, b, j + 1);
    }
  }

  lemma MatchHereBeforeLineBreak(a: string, b: string)
    requires |a| > 0
    ensures MatchHere(a + "\n" + b) == MatchHere(a)
  {
    var t := a + "\n" + b;
    if |a| >= |Open| {
      assert t[..|Open|] == a[..|Open|];
    } else {
      assert t[|a|] == '\n' && Open[|a|] != '\n';
      assert !Text.StartsWith(t, Open);
    }
    if Text.StartsWith(a, Open) {
      CloseFromBeforeLineBreak(a, b, |Open|);
    }
  }

  /** The text on either side of a blank line is substituted
      independently. */
  lemma SubstAtBlankLine(a: string, b: string, f: string -> string)
    ensures Subst(a + "\n\n" + b, f) == Subst(a, f) + "\n\n" + Subst(b, f)
  {
    LeadingBreak(b, f);
    SubstAtLineBreak(a, "\n" + b, f);
    BlankLine(a, b);
    BlankLine(Subst(a, f), Subst(b, f));
  }

  lemma BlankLine(x: string, y: string)
    ensures x + "\n\n" + y == x + "\n" + ("\n" + y)
  {
  }

  /** A line break at the head is copied. */
  lemma LeadingBreak(b: string, f: string -> string)
    ensures Subst("\n" + b, f) == "\n" + Subst(b, f)
  {
    var t := "\n" + b;
    assert t[0] == '\n' && Open[0] == '{';
    assert !Text.StartsWith(t, Open);
    assert t[1..] == b;
  }

  /** One step of the substitution of `a` followed by a line break: the
      same head is produced, and the same rest of `a` remains. */
  lemma SubstHeadStep(a: string, b: string, f: string -> string) returns (head: string, rest: string)
    requires |a| > 0
    ensures |rest| < |a|
    ensures Subst(a, f) == head + Subst(rest, f)
    ensures Subst(a + "\n" + b, f) == head + Subst(rest + "\n" + b, f)
  {
    var t := a + "\n" + b;
    MatchHereBeforeLineBreak(a, b);
    match MatchHere(a)
    case Some(k) =>
      rest := a[k + 2..];
      head := f(a[|Open|..k]);
      assert t[|Open|..k] == a[|Open|..k];
      assert t[k + 2..] == rest + "\n" + b;
    case None =>
      rest := a[1..];
      head := [a[0]];
      assert t[0] == a[0];
      assert t[1..] == rest + "\n" + b;
  }

  /** The text on either side of a line break is substituted
      independently. */
  lemma {:induction false} SubstAtLineBreak(a: string, b: string, f: string -> string)
    ensures Subst(a + "\n" + b, f) == Subst(a, f) + "\n" + Subst(b, f)
    decreases |a|
  {
    var t := a + "\n" + b;
    if |a| == 0 {
      assert t == "\n" + b;
      LeadingBreak(b, f);
    } else {
      var z := Subst(b, f);
      var head, rest := SubstHeadStep(a, b, f);
      SubstAtLineBreak(rest, b, f);
      var y := Subst(rest, f);
      assert head + (y + "\n" + z) == (head + y) + "\n" + z;
    }
  }

  // ---------------------------------------------------------------------
  // Properties of the path lookup

  /** Once the walk leaves the hashes, it stays at `nil`. */
  lemma {:induction false} WalkNull(keys: seq<string>)
    ensures Walk(Null, keys) == Null
    decreases |keys|
  {
    if |keys| > 0 {
      WalkNull(keys[1..]);
    }
  }

  /** A step into a non-hash value gives `nil` however long the rest of the
      path is. */
  lemma NonHashStep(v: Value, keys: seq<string>)
    requires !v.Hash? && |keys| > 0
    ensures Walk(v, keys) == Null
  {
    WalkNull(keys[1..]);
  }

  /** The save step's walk, which stops at the first `nil`. */
  function WalkUntilNil(v: Value, keys: seq<string>): Value
    decreases |keys|
  {
    if |keys| == 0 then v
    else
      var d := if v.Hash? then At(v.fields, keys[0]) else Null;
      if d.Null? then Null else WalkUntilNil(d, keys[1..])
  }

  /** Stopping at the first `nil` gives the same value as walking on: the
      three renderers' loops all compute `Walk`. */
  lemma {:induction false} WalkUntilNilAgrees(v: Value, keys: seq<string>)
    ensures WalkUntilNil(v, keys) == Walk(v, keys)
    decreases |keys|
  {
    if |keys| > 0 {
      var d := if v.Hash? then At(v.fields, keys[0]) else Null;
      if d.Null? {
        WalkNull(keys[1..]);
      } else {
        WalkUntilNilAgrees(d, keys[1..]);
      }
    }
  }

  /** A capture written as dotted keys (none containing a dot, the last not
      empty) denotes the state entry of the first key walked through the
      rest. */
  lemma LookupDotted(state: map<string, Value>, keys: seq<string>)
    requires |keys| >= 1 && keys[|keys| - 1] != ""
    requires forall i | 0 <= i < |keys| :: '.' !in keys[i]
    ensures Lookup(state, Text.Join(keys, ".")) == Walk(At(state, keys[0]), keys[1..])
  {
    Text.FieldsJoin(keys, '.');
    assert Path(Text.Join(keys, ".")) == keys;
  }

  /** A first segment missing from the state renders as the empty string. */
  lemma MissingRendersEmpty(state: map<string, Value>, keys: seq<string>, inspect: Inspector)
    requires |keys| >= 1 && keys[|keys| - 1] != "" && keys[0] !in state
    requires forall i | 0 <= i < |keys| :: '.' !in keys[i]
    ensures Resolve(state, inspect, Text.Join(keys, ".")) == ""
  {
    LookupDotted(state, keys);
    WalkNull(keys[1..]);
  }

  /** A text that is exactly one single-segment placeholder renders as the
      state entry it names. */
  lemma SinglePlaceholder(state: map<string, Value>, inspect: Inspector, key: string)
    requires key != "" && '.' !in key && '}' !in key && '\n' !in key
    ensures Render(Open + key + Close, state, inspect) == ToS(At(state, key), inspect)
  {
    var f := Resolver(state, inspect);
    SubstHead(key, "", f);
    assert Open + key + Close + "" == Open + key + Close;
    assert Subst("", f) == "";
    SingleKey(state, key);
    assert f(key) == Resolve(state, inspect, key);
  }

  /** A one-segment capture names a state entry directly. */
  lemma SingleKey(state: map<string, Value>, k: string)
    requires k != "" && '.' !in k
    ensures Lookup(state, k) == At(state, k)
  {
    assert Text.Join([k], ".") == k;
    LookupDotted(state, [k]);
  }

  /** The nested example: with `motivation` holding `{reply: "curious"}`
      (and whatever else in the state),
      `"Why: {{context.motivation.reply}}"` renders as `"Why: curious"`. */
  lemma NestedExample(t: string, state: map<string, Value>, inspect: Inspector)
    requires t == "Why: {{context.motivation.reply}}"
    requires At(state, "motivation") == Hash(map["reply" := Str("curious")])
    ensures Render(t, state, inspect) == "Why: curious"
  {
    ExampleSplice(t, state, inspect);
    ExampleLookup(state);
    ExampleResult(Render(t, state, inspect), Resolve(state, inspect, "motivation.reply"));
  }

  lemma ExampleResult(rendered: string, reply: string)
    requires rendered == "Why: " + reply && reply == "curious"
    ensures rendered == "Why: curious"
  {
  }

  lemma ExampleSplice(t: string, state: map<string, Value>, inspect: Inspector)
    requires t == "Why: {{context.motivation.reply}}"
    ensures Render(t, state, inspect) == "Why: " + Resolve(state, inspect, "motivation.reply")
  {
    var f := Resolver(state, inspect);
    ExampleShape();
    Splice("Why: ", "motivation.reply", "", f);
  }

  lemma ExampleLookup(state: map<string, Value>)
    requires At(state, "motivation") == Hash(map["reply" := Str("curious")])
    ensures Lookup(state, "motivation.reply") == Str("curious")
  {
    ExamplePath();
    LookupDotted(state, ["motivation", "reply"]);
  }

  lemma ExampleShape()
    ensures "Why: {{context.motivation.reply}}" == "Why: " + Open + "motivation.reply" + Close + ""
    ensures '{' !in "Why: " && '}' !in "motivation.reply" && '\n' !in "motivation.reply"
  {
    ExampleText();
    ExampleFree();
  }

  lemma ExampleText()
    ensures "Why: {{context.motivation.reply}}" == "Why: " + Open + "motivation.reply" + Close + ""
  {
    assert Open == "{{context." && Close == "}}";
  }

  lemma ExampleFree()
    ensures '{' !in "Why: " && '}' !in "motivation.reply" && '\n' !in "motivation.reply"
  {
    var w, k := "Why: ", "motivation.reply";
    assert forall i | 0 <= i < |w| :: w[i] != '{';
    assert forall i | 0 <= i < |k| :: k[i] != '}' && k[i] != '\n';
  }

  lemma ExamplePath()
    ensures Text.Join(["motivation", "reply"], ".") == "motivation.reply"
    ensures '.' !in "motivation" && '.' !in "reply"
  {
  }
}
