/** The response step: renders its message template against the context
    and returns it as the turn's reply.

    As written, the step first collects every capture with `scan`, then for
    each one replaces the literal placeholder text throughout the text
    rendered so far (`gsub!` with a string pattern). Unlike a single
    left-to-right substitution, that pass also rewrites placeholder text
    which an earlier substituted value brought in. `RenderAsWritten` models
    that; `Call` uses the shared single-pass renderer instead. */
module ResponseStep {
  import opened Values
  import opened WorkflowContext
  import opened BaseStep
  import opened Placeholders
  import Text

  /** Ruby's `t.scan(/\{\{context\.(.*?)\}\}/)`: the captures, in order,
      found by the same left-to-right matching as the substitution. */
  function Scan(t: string): seq<string>
    decreases |t|
  {
    if |t| == 0 then []
    else match MatchHere(t)
      case Some(k) => [t[|Open|..k]] + Scan(t[k + 2..])
      case None => Scan(t[1..])
  }

  /** Ruby's `s.gsub(pat, rep)` with a string pattern: every non-overlapping
      occurrence, leftmost first, is replaced. */
  function ReplaceAll(s: string, pat: string, rep: string): string
    requires |pat| > 0
    decreases |s|
  {
    if |s| == 0 then ""
    else if Text.StartsWith(s, pat) then rep + ReplaceAll(s[|pat|..], pat, rep)
    else [s[0]] + ReplaceAll(s[1..], pat, rep)
  }

  /** One `gsub!` per scanned capture, each applied to the result so far. */
  function ReplaceEach(r: string, caps: seq<string>, state: map<string, Value>, inspect: Inspector): string
    decreases |caps|
  {
    if |caps| == 0 then r
    else ReplaceEach(ReplaceAll(r, Open + caps[0] + Close, Resolve(state, inspect, caps[0])),
                     caps[1..], state, inspect)
  }

  /** `render_with_context` as the source writes it. */
  function RenderAsWritten(t: string, state: map<string, Value>, inspect: Inspector): string {
    ReplaceEach(t, Scan(t), state, inspect)
  }

  /** `step["message"] || ""`; a message that is not a string makes `scan`
      raise. */
  function Message(step: StepDef): Value {
    var m := Field(step, "message");
    if Truthy(m) then m else Str("")
  }

  /** `call`, with the single-pass renderer: the reply is the message
      rendered against the context (`""` when there is none); the context is
      untouched and the step never halts or continues silently. */
  function Call(ctx: Context, step: StepDef, inspect: Inspector): (o: StepOutcome)
    ensures o.Done? <==> Message(step).Str?
    ensures o.Done? ==> o.ctx == ctx && o.result == Reply(Render(Message(step).s, ctx.state, inspect))
    ensures !Truthy(Field(step, "message")) ==> o == Done(ctx, Reply(""))
  {
    match Message(step)
    case Str(t) => Done(ctx, Reply(Render(t, ctx.state, inspect)))
    case _ => Raised("NoMethodError: undefined method 'scan'")
  }

  /** `call` as the source writes it. */
  function CallAsWritten(ctx: Context, step: StepDef, inspect: Inspector): (o: StepOutcome)
    ensures o.Done? <==> Message(step).Str?
    ensures o.Done? ==> o.ctx == ctx && o.result == Reply(RenderAsWritten(Message(step).s, ctx.state, inspect))
    ensures !Truthy(Field(step, "message")) ==> o == Done(ctx, Reply(""))
  {
    match Message(step)
    case Str(t) => Done(ctx, Reply(RenderAsWritten(t, ctx.state, inspect)))
    case _ => Raised("NoMethodError: undefined method 'scan'")
  }

  // ---------------------------------------------------------------------
  // Both renderers agree where there is nothing to substitute

  lemma {:induction false} ScanEmpty(t: string)
    requires !HasPlaceholder(t)
    ensures Scan(t) == []
    decreases |t|
  {
    if |t| > 0 {
      assert t[0..] == t;
      forall i | 0 <= i < |t[1..]|
        ensures MatchHere(t[1..][i..]).None?
      {
        assert t[1..][i..] == t[i + 1..];
      }
      ScanEmpty(t[1..]);
    }
  }

  /** A template without placeholders is returned verbatim, by both the
      single-pass renderer and the as-written one. */
  lemma TemplateWithoutPlaceholders(t: string, state: map<string, Value>, inspect: Inspector)
    requires !HasPlaceholder(t)
    ensures Render(t, state, inspect) == t
    ensures RenderAsWritten(t, state, inspect) == t
  {
    Verbatim(t, Resolver(state, inspect));
    ScanEmpty(t);
  }

  // ---------------------------------------------------------------------
  // The as-written pass re-expands substituted placeholder text

  lemma {:induction false} ScanSplice(a: string, p: string, b: string)
    requires '{' !in a
    requires '}' !in p && '\n' !in p
    ensures Scan(a + Open + p + Close + b) == [p] + Scan(b)
    decreases |a|
  {
    var tail := Open + p + Close + b;
    Regroup(a, Open, p, Close, b);
    if |a| == 0 {
      assert a + tail == tail;
      ScanHead(p, b);
    } else {
      Uncons(a, tail);
      ScanSkips(a + tail);
      Regroup(a[1..], Open, p, Close, b);
      ScanSplice(a[1..], p, b);
    }
  }

  /** A character that cannot open a placeholder is skipped. */
  lemma ScanSkips(t: string)
    requires |t| > 0 && t[0] != '{'
    ensures Scan(t) == Scan(t[1..])
  {
    assert !Text.StartsWith(t, Open);
  }

  lemma {:induction false} ReplaceAbsent(s: string, pat: string, rep: string)
    requires |pat| > 0
    requires forall i | 0 <= i < |s| :: !Text.StartsWith(s[i..], pat)
    ensures ReplaceAll(s, pat, rep) == s
    decreases |s|
  {
    if |s| > 0 {
      assert s[0..] == s;
      forall i | 0 <= i < |s[1..]|
        ensures !Text.StartsWith(s[1..][i..], pat)
      {
        assert s[1..][i..] == s[i + 1..];
      }
      ReplaceAbsent(s[1..], pat, rep);
    }
  }

  /** A text that starts with the pattern: the occurrence is replaced and
      the rest is processed. */
  lemma ReplaceHead(pat: string, s: string, rep: string)
    requires |pat| > 0
    ensures ReplaceAll(pat + s, pat, rep) == rep + ReplaceAll(s, pat, rep)
  {
    assert Text.StartsWith(pat + s, pat);
    assert (pat + s)[|pat|..] == s;
  }

  /** `p` followed by a different text of the same length: only `p` is
      replaced. */
  lemma ReplaceFirstOfTwo(p: string, q: string, rep: string)
    requires |p| == |q| && p != q && |p| > 0
    ensures ReplaceAll(p + q, p, rep) == rep + q
  {
    ReplaceHead(p, q, rep);
    forall i | 0 <= i < |q|
      ensures !Text.StartsWith(q[i..], p)
    {
      if i == 0 {
        assert q[0..] == q;
      }
    }
    ReplaceAbsent(q, p, rep);
  }

  /** `p` twice: both copies are replaced. */
  lemma ReplaceTwice(p: string, rep: string)
    requires |p| > 0
    ensures ReplaceAll(p + p, p, rep) == rep + rep
  {
    ReplaceHead(p, p, rep);
    ReplaceHead(p, "", rep);
    assert p + "" == p;
  }

  /** Placeholders of different captures differ. */
  lemma PlaceholdersDiffer(x: string, y: string)
    requires x != y && |x| == |y|
    ensures Open + x + Close != Open + y + Close
  {
    assert (Open + x + Close)[|Open|..|Open| + |x|] == x;
    assert (Open + y + Close)[|Open|..|Open| + |y|] == y;
  }

  /** A placeholder at the head of the text is the first capture. */
  lemma ScanHead(p: string, b: string)
    requires '}' !in p && '\n' !in p
    ensures Scan(Open + p + Close + b) == [p] + Scan(b)
  {
    PlaceholderShape(p, b);
  }

  lemma ScanTwo(x: string, y: string)
    requires '}' !in x && '\n' !in x && '}' !in y && '\n' !in y
    ensures Scan(Open + x + Close + Open + y + Close) == [x, y]
  {
    var px := Open + x + Close;
    var py := Open + y + Close;
    var t := Open + x + Close + Open + y + Close;
    assert t == Open + x + Close + py;
    ScanHead(x, py);
    assert Scan(t) == [x] + Scan(py);
    ScanHead(y, "");
    assert py + "" == py;
    assert Scan(py) == [y] + Scan("");
  }

  /** Two adjacent placeholders, the first of which resolves to the text
      of the second: as written the second capture's value appears twice. */
  lemma TwoPlaceholdersAsWritten(x: string, y: string, v: string, state: map<string, Value>, inspect: Inspector)
    requires |x| == |y| && x != y && |x| > 0
    requires '}' !in x && '\n' !in x && '}' !in y && '\n' !in y
    requires Resolve(state, inspect, x) == Open + y + Close
    requires Resolve(state, inspect, y) == v
    ensures RenderAsWritten(Open + x + Close + Open + y + Close, state, inspect) == v + v
  {
    var px := Open + x + Close;
    var py := Open + y + Close;
    var t := Open + x + Close + Open + y + Close;
    assert t == px + py;
    ScanTwo(x, y);
    PlaceholdersDiffer(x, y);
    ReplaceFirstOfTwo(px, py, py);
    ReplaceTwice(py, v);
    var r1 := ReplaceAll(t, px, py);
    assert r1 == py + py;
    assert ReplaceEach(t, [x, y], state, inspect) == ReplaceEach(r1, [y], state, inspect);
    assert ReplaceEach(r1, [y], state, inspect) == ReplaceEach(v + v, [], state, inspect);
  }

  lemma SubstTwo(x: string, y: string, f: string -> string)
    requires '}' !in x && '\n' !in x && '}' !in y && '\n' !in y
    ensures Subst(Open + x + Close + Open + y + Close, f) == f(x) + f(y)
  {
    var py := Open + y + Close;
    var t := Open + x + Close + Open + y + Close;
    assert t == Open + x + Close + py;
    SubstHead(x, py, f);
    assert Subst(t, f) == f(x) + Subst(py, f);
    SubstHead(y, "", f);
    assert py + "" == py;
    assert Subst(py, f) == f(y) + Subst("", f);
  }

  /** The same template in one pass: the first placeholder's value is kept
      as it is. */
  lemma TwoPlaceholdersOnePass(x: string, y: string, v: string, state: map<string, Value>, inspect: Inspector)
    requires '}' !in x && '\n' !in x && '}' !in y && '\n' !in y
    requires Resolve(state, inspect, x) == Open + y + Close
    requires Resolve(state, inspect, y) == v
    ensures Render(Open + x + Close + Open + y + Close, state, inspect) == Open + y + Close + v
  {
    SubstTwo(x, y, Resolver(state, inspect));
  }

  /** With `a` holding the text `{{context.b}}` and `b` holding `X`, the
      template `{{context.a}}{{context.b}}` renders as `XX` as written:
      the value of `a` is itself expanded. The single-pass renderer gives
      `{{context.b}}X`. */
  lemma ReExpansion(state: map<string, Value>, inspect: Inspector)
    requires At(state, "a") == Str(Open + "b" + Close)
    requires At(state, "b") == Str("X")
    ensures RenderAsWritten(Open + "a" + Close + Open + "b" + Close, state, inspect) == "XX"
    ensures Render(Open + "a" + Close + Open + "b" + Close, state, inspect) == Open + "b" + Close + "X"
  {
    SingleKey(state, "a");
    SingleKey(state, "b");
    TwoPlaceholdersAsWritten("a", "b", "X", state, inspect);
    TwoPlaceholdersOnePass("a", "b", "X", state, inspect);
  }

  // ---------------------------------------------------------------------
  // Both renderers agree on ordinary templates

  /** The template with the placeholders of the captures in `done` already
      replaced by `f` of their capture, and the others still written out. */
  function PartlyFilled(chunks: seq<string>, caps: seq<string>, done: set<string>, f: string -> string): string
    requires |chunks| == |caps| + 1
    decreases |caps|
  {
    if |caps| == 0 then chunks[0]
    else chunks[0] + ((if caps[0] in done then f(caps[0]) else Open + caps[0] + Close) +
                      PartlyFilled(chunks[1..], caps[1..], done, f))
  }

  /** Literal chunks hold no `{`, captures hold no `{`, `}` or line break:
      every `{` of the template opens one of its placeholders. */
  predicate Ordinary(chunks: seq<string>, caps: seq<string>) {
    (forall i | 0 <= i < |chunks| :: '{' !in chunks[i]) &&
    (forall i | 0 <= i < |caps| :: '{' !in caps[i] && '}' !in caps[i] && '\n' !in caps[i])
  }

  /** `scan` finds exactly the template's captures, in order. */
  lemma {:induction false} ScanTemplate(chunks: seq<string>, caps: seq<string>)
    requires |chunks| == |caps| + 1 && Ordinary(chunks, caps)
    ensures Scan(Template(chunks, caps)) == caps
    decreases |caps|
  {
    if |caps| == 0 {
      NoBraceNoPlaceholder(chunks[0]);
      ScanEmpty(chunks[0]);
    } else {
      var rest := Template(chunks[1..], caps[1..]);
      ScanSplice(chunks[0], caps[0], rest);
      ScanTemplate(chunks[1..], caps[1..]);
    }
  }

  /** A prefix at none of whose positions the pattern starts is copied. */
  lemma {:induction false} ReplaceSkip(x: string, rest: string, pat: string, rep: string)
    requires |pat| > 0
    requires forall i | 0 <= i < |x| :: !Text.StartsWith((x + rest)[i..], pat)
    ensures ReplaceAll(x + rest, pat, rep) == x + ReplaceAll(rest, pat, rep)
    decreases |x|
  {
    if |x| == 0 {
      assert x + rest == rest;
    } else {
      assert (x + rest)[0..] == x + rest;
      Uncons(x, rest);
      forall i | 0 <= i < |x[1..]|
        ensures !Text.StartsWith((x[1..] + rest)[i..], pat)
      {
        assert (x[1..] + rest)[i..] == (x + rest)[i + 1..];
      }
      ReplaceSkip(x[1..], rest, pat, rep);
    }
  }

  /** Text without `{` is copied by a replacement whose pattern opens with `{`. */
  lemma ReplaceLiteral(s: string, rest: string, pat: string, rep: string)
    requires |pat| > 0 && pat[0] == '{' && '{' !in s
    ensures ReplaceAll(s + rest, pat, rep) == s + ReplaceAll(rest, pat, rep)
  {
    forall i | 0 <= i < |s|
      ensures !Text.StartsWith((s + rest)[i..], pat)
    {
      assert (s + rest)[i..][0] == s[i];
    }
    ReplaceSkip(s, rest, pat, rep);
  }

  /** A placeholder of another capture is copied by the replacement of
      one capture's placeholder. */
  lemma ReplaceOther(c: string, rest: string, k: string, rep: string)
    requires c != k
    requires '{' !in c && '}' !in c && '{' !in k && '}' !in k
    ensures ReplaceAll(Open + c + Close + rest, Open + k + Close, rep) ==
            Open + c + Close + ReplaceAll(rest, Open + k + Close, rep)
  {
    var x := Open + c + Close;
    var pat := Open + k + Close;
    var t := x + rest;
    assert t == Open + c + Close + rest;
    forall i | 0 <= i < |x|
      ensures !Text.StartsWith(t[i..], pat)
    {
      if i == 0 {
        NotOtherPlaceholder(c, k, rest);
        assert t[0..] == t;
      } else if i == 1 {
        assert t[i..][1] == t[2] == 'c';
      } else {
        assert t[i..][0] == x[i];
        if i < |Open| {
          assert x[i] == Open[i];
        } else if i < |Open| + |c| {
          assert x[i] == c[i - |Open|];
        } else {
          assert x[i] == '}';
        }
      }
    }
    ReplaceSkip(x, rest, pat, rep);
  }

  /** The placeholder of `k` is not written at the head of another
      capture's placeholder. */
  lemma NotOtherPlaceholder(c: string, k: string, rest: string)
    requires c != k && '}' !in c && '}' !in k
    ensures !Text.StartsWith(Open + c + Close + rest, Open + k + Close)
  {
    var t := Open + c + Close + rest;
    var pat := Open + k + Close;
    var m: nat;
    if |c| < |k| {
      m := |Open| + |c|;
      assert t[m] == '}' && pat[m] == k[|c|];
    } else if |c| > |k| {
      m := |Open| + |k|;
      assert pat[m] == '}' && t[m] == c[|k|];
    } else {
      assert exists j | 0 <= j < |c| :: c[j] != k[j];
      var j :| 0 <= j < |c| && c[j] != k[j];
      m := |Open| + j;
      assert t[m] == c[j] && pat[m] == k[j];
    }
    assert m < |pat| && m < |t| && t[m] != pat[m];
    if |pat| <= |t| {
      assert t[..|pat|][m] != pat[m];
    }
  }

  /** One `gsub!` of a capture's placeholder, with a value free of `{`,
      fills in every placeholder of that capture and nothing else. */
  lemma {:induction false} ReplacePartly(chunks: seq<string>, caps: seq<string>, done: set<string>,
                                         f: string -> string, k: string)
    requires |chunks| == |caps| + 1 && Ordinary(chunks, caps)
    requires '{' !in k && '}' !in k && '{' !in f(k)
    requires forall i | 0 <= i < |caps| && caps[i] in done :: '{' !in f(caps[i])
    ensures ReplaceAll(PartlyFilled(chunks, caps, done, f), Open + k + Close, f(k)) ==
            PartlyFilled(chunks, caps, done + {k}, f)
    decreases |caps|
  {
    var pat := Open + k + Close;
    assert pat[0] == '{';
    if |caps| == 0 {
      ReplaceLiteral(chunks[0], "", pat, f(k));
      assert chunks[0] + "" == chunks[0];
    } else {
      var c := caps[0];
      var rest := PartlyFilled(chunks[1..], caps[1..], done, f);
      var rest' := PartlyFilled(chunks[1..], caps[1..], done + {k}, f);
      ReplacePartly(chunks[1..], caps[1..], done, f, k);
      var mid := if c in done then f(c) else Open + c + Close;
      ReplaceLiteral(chunks[0], mid + rest, pat, f(k));
      if c in done {
        ReplaceLiteral(f(c), rest, pat, f(k));
      } else if c == k {
        assert Open + c + Close + rest == pat + rest;
        ReplaceHead(pat, rest, f(k));
      } else {
        assert Open + c + Close + rest == Open + c + Close + rest;
        ReplaceOther(c, rest, k, f(k));
      }
    }
  }

  /** The captures of a list, as a set. */
  function Captured(ks: seq<string>): (r: set<string>)
    ensures forall i | 0 <= i < |ks| :: ks[i] in r
    decreases |ks|
  {
    if |ks| == 0 then {} else {ks[0]} + Captured(ks[1..])
  }

  /** The `gsub!` pass over a list of captures fills in all of them. */
  lemma {:induction false} ReplaceEachPartly(chunks: seq<string>, caps: seq<string>, done: set<string>,
                                             ks: seq<string>, state: map<string, Value>, inspect: Inspector)
    requires |chunks| == |caps| + 1 && Ordinary(chunks, caps)
    requires forall i | 0 <= i < |ks| :: '{' !in ks[i] && '}' !in ks[i] && '{' !in Resolve(state, inspect, ks[i])
    requires forall i | 0 <= i < |caps| && caps[i] in done :: '{' !in Resolve(state, inspect, caps[i])
    ensures ReplaceEach(PartlyFilled(chunks, caps, done, Resolver(state, inspect)), ks, state, inspect) ==
            PartlyFilled(chunks, caps, done + Captured(ks), Resolver(state, inspect))
    decreases |ks|
  {
    var f := Resolver(state, inspect);
    if |ks| == 0 {
      assert done + Captured(ks) == done;
    } else {
      var k := ks[0];
      ReplaceStep(chunks, caps, done, k, state, inspect);
      forall i | 0 <= i < |ks[1..]|
        ensures '{' !in ks[1..][i] && '}' !in ks[1..][i] && '{' !in Resolve(state, inspect, ks[1..][i])
      {
        assert ks[1..][i] == ks[i + 1];
      }
      ReplaceEachPartly(chunks, caps, done + {k}, ks[1..], state, inspect);
      assert done + {k} + Captured(ks[1..]) == done + Captured(ks);
    }
  }

  /** The first `gsub!` of the pass, with the context's values. */
  lemma ReplaceStep(chunks: seq<string>, caps: seq<string>, done: set<string>, k: string,
                    state: map<string, Value>, inspect: Inspector)
    requires |chunks| == |caps| + 1 && Ordinary(chunks, caps)
    requires '{' !in k && '}' !in k && '{' !in Resolve(state, inspect, k)
    requires forall i | 0 <= i < |caps| && caps[i] in done :: '{' !in Resolve(state, inspect, caps[i])
    ensures ReplaceAll(PartlyFilled(chunks, caps, done, Resolver(state, inspect)), Open + k + Close, Resolve(state, inspect, k)) ==
            PartlyFilled(chunks, caps, done + {k}, Resolver(state, inspect))
    ensures forall i | 0 <= i < |caps| && caps[i] in done + {k} :: '{' !in Resolve(state, inspect, caps[i])
  {
    var f := Resolver(state, inspect);
    assert f(k) == Resolve(state, inspect, k);
    forall i | 0 <= i < |caps| && caps[i] in done
      ensures '{' !in f(caps[i])
    {
    }
    ReplacePartly(chunks, caps, done, f, k);
  }

  /** Nothing filled in: the template itself. */
  lemma {:induction false} NoneFilled(chunks: seq<string>, caps: seq<string>, f: string -> string)
    requires |chunks| == |caps| + 1
    ensures PartlyFilled(chunks, caps, {}, f) == Template(chunks, caps)
    decreases |caps|
  {
    if |caps| > 0 {
      NoneFilled(chunks[1..], caps[1..], f);
      Regroup(chunks[0], Open, caps[0], Close, Template(chunks[1..], caps[1..]));
    }
  }

  /** Every capture filled in: the substituted text. */
  lemma {:induction false} AllFilled(chunks: seq<string>, caps: seq<string>, done: set<string>, f: string -> string)
    requires |chunks| == |caps| + 1
    requires forall i | 0 <= i < |caps| :: caps[i] in done
    ensures PartlyFilled(chunks, caps, done, f) == Filled(chunks, caps, f)
    decreases |caps|
  {
    if |caps| > 0 {
      AllFilled(chunks[1..], caps[1..], done, f);
      Regroup3(chunks[0], f(caps[0]), Filled(chunks[1..], caps[1..], f));
    }
  }

  /** On an ordinary template whose values hold no `{`, the as-written
      scan-then-replace pass and the single left-to-right pass give the
      same text: each placeholder replaced by its value. */
  lemma AsWrittenAgrees(chunks: seq<string>, caps: seq<string>, state: map<string, Value>, inspect: Inspector)
    requires |chunks| == |caps| + 1 && Ordinary(chunks, caps)
    requires forall i | 0 <= i < |caps| :: '{' !in Resolve(state, inspect, caps[i])
    ensures RenderAsWritten(Template(chunks, caps), state, inspect) == Render(Template(chunks, caps), state, inspect)
    ensures Render(Template(chunks, caps), state, inspect) == Filled(chunks, caps, Resolver(state, inspect))
  {
    var f := Resolver(state, inspect);
    var t := Template(chunks, caps);
    ScanTemplate(chunks, caps);
    NoneFilled(chunks, caps, f);
    ReplaceEachPartly(chunks, caps, {}, caps, state, inspect);
    AllFilled(chunks, caps, {} + Captured(caps), f);
    SubstTemplate(chunks, caps, f);
  }
}
