/** The Ruby String behaviour the pipeline relies on, written out over
    `seq<char>`: splitting at a separator, joining, substring search,
    `strip`, `blank?`, `last(n)`, integer printing and the lower-casing
    used for the save step's model-name match. */
module Text {
  import opened Optional

  predicate StartsWith(s: string, p: string) {
    |p| <= |s| && s[..|p|] == p
  }

  /** `s.include?(p)`. */
  predicate Contains(s: string, p: string) {
    exists i | 0 <= i <= |s| :: StartsWith(s[i..], p)
  }

  /** The first position of `c` in `s`. */
  function IndexOf(s: string, c: char): (r: Option<nat>)
    ensures r.Some? ==> r.value < |s| && s[r.value] == c && c !in s[..r.value]
    ensures r.None? <==> c !in s
  {
    if |s| == 0 then None
    else if s[0] == c then Some(0)
    else match IndexOf(s[1..], c)
      case None => None
      case Some(i) => Some(i + 1)
  }

  /** Every field between occurrences of `sep`, empty ones included. */
  function Fields(s: string, sep: char): (r: seq<string>)
    ensures |r| >= 1
    ensures forall i | 0 <= i < |r| :: sep !in r[i]
    decreases |s|
  {
    match IndexOf(s, sep)
    case None => [s]
    case Some(i) => [s[..i]] + Fields(s[i + 1..], sep)
  }

  /** `parts.join(sep)`. */
  function Join(parts: seq<string>, sep: string): string {
    if |parts| == 0 then ""
    else if |parts| == 1 then parts[0]
    else parts[0] + sep + Join(parts[1..], sep)
  }

  /** Splitting and re-joining at the same separator gives the input back. */
  lemma {:induction false} JoinFields(s: string, sep: char)
    ensures Join(Fields(s, sep), [sep]) == s
    decreases |s|
  {
    match IndexOf(s, sep)
    case None =>
    case Some(i) =>
      var rest := s[i + 1..];
      var f := Fields(rest, sep);
      JoinFields(rest, sep);
      assert Fields(s, sep) == [s[..i]] + f;
      assert ([s[..i]] + f)[1..] == f;
      assert Join([s[..i]] + f, [sep]) == s[..i] + [sep] + Join(f, [sep]);
      assert s == s[..i] + [sep] + rest;
  }

  /** Joining separator-free parts and splitting again gives the parts back. */
  lemma {:induction false} FieldsJoin(parts: seq<string>, sep: char)
    requires |parts| >= 1
    requires forall i | 0 <= i < |parts| :: sep !in parts[i]
    ensures Fields(Join(parts, [sep]), sep) == parts
    decreases |parts|
  {
    if |parts| == 1 {
      assert IndexOf(parts[0], sep).None?;
    } else {
      var tail := parts[1..];
      var s := Join(parts, [sep]);
      assert s == parts[0] + ([sep] + Join(tail, [sep]));
      IndexOfAfterFree(parts[0], sep, Join(tail, [sep]));
      assert s[|parts[0]| + 1..] == Join(tail, [sep]);
      FieldsJoin(tail, sep);
    }
  }

  lemma IndexOfAfterFree(a: string, sep: char, b: string)
    requires sep !in a
    ensures IndexOf(a + [sep] + b, sep) == Some(|a|)
    ensures (a + [sep] + b)[..|a|] == a
  {
    var s := a + [sep] + b;
    assert s[|a|] == sep;
    assert s[..|a|] == a;
  }

  /** Drops the trailing empty strings, as Ruby's `split` does. */
  function DropTrailingEmpty(xs: seq<string>): (r: seq<string>)
    ensures r <= xs
    ensures |r| > 0 ==> r[|r| - 1] != ""
    ensures forall i | |r| <= i < |xs| :: xs[i] == ""
  {
    if |xs| == 0 then []
    else if xs[|xs| - 1] == "" then DropTrailingEmpty(xs[..|xs| - 1])
    else xs
  }

  /** Ruby's `s.split(sep)` for a one-character string separator: the fields
      with trailing empty ones removed (so `"".split(".")` is `[]`). */
  function Split(s: string, sep: char): (r: seq<string>)
    ensures r <= Fields(s, sep)
    ensures forall i | 0 <= i < |r| :: sep !in r[i]
  {
    DropTrailingEmpty(Fields(s, sep))
  }

  /** Ruby's `xs.last(n)`: the final `n` elements, or all of them. */
  function Last<T>(xs: seq<T>, n: nat): (r: seq<T>)
    ensures |r| == if |xs| < n then |xs| else n
    ensures xs == xs[..|xs| - |r|] + r
  {
    if |xs| <= n then xs else xs[|xs| - n..]
  }

  /** A character matched by Ruby's `[[:space:]]`, the class ActiveSupport's
      `blank?` uses. */
  predicate IsSpace(c: char) {
    || c == ' ' || c == '\t' || c == '\n' || c == '\U{000B}' || c == '\U{000C}' || c == '\r'
    || c == '\U{0085}' || c == '\U{00A0}' || c == '\U{1680}'
    || ('\U{2000}' <= c <= '\U{200A}')
    || c == '\U{2028}' || c == '\U{2029}' || c == '\U{202F}' || c == '\U{205F}' || c == '\U{3000}'
  }

  /** ActiveSupport's `String#blank?`: empty or whitespace only. */
  predicate Blank(s: string) {
    forall i | 0 <= i < |s| :: IsSpace(s[i])
  }

  /** A character removed by Ruby's `strip`: NUL or ASCII whitespace. */
  predicate IsStrippable(c: char) {
    c == '\0' || c == ' ' || c == '\t' || c == '\n' || c == '\U{000B}' || c == '\U{000C}' || c == '\r'
  }

  function StripLeft(s: string): (r: string)
    ensures |r| <= |s| && r == s[|s| - |r|..]
    ensures |r| > 0 ==> !IsStrippable(r[0])
    ensures forall i | 0 <= i < |s| - |r| :: IsStrippable(s[i])
  {
    if |s| > 0 && IsStrippable(s[0]) then StripLeft(s[1..]) else s
  }

  function StripRight(s: string): (r: string)
    ensures |r| <= |s| && r == s[..|r|]
    ensures |r| > 0 ==> !IsStrippable(r[|r| - 1])
    ensures forall i | |r| <= i < |s| :: IsStrippable(s[i])
  {
    if |s| > 0 && IsStrippable(s[|s| - 1]) then StripRight(s[..|s| - 1]) else s
  }

  /** Ruby's `strip`: `r` is the slice of `s` that starts after the leading
      strippable run, with no strippable character at either end, and
      everything cut away was strippable. */
  function Strip(s: string): (r: string)
    ensures |s| - |StripLeft(s)| + |r| <= |s|
    ensures r == s[|s| - |StripLeft(s)|..][..|r|]
    ensures forall k | |s| - |StripLeft(s)| + |r| <= k < |s| :: IsStrippable(s[k])
    ensures |r| > 0 ==> !IsStrippable(r[0]) && !IsStrippable(r[|r| - 1])
  {
    var l := StripLeft(s);
    var r := StripRight(l);
    TrailingCut(s, l, r);
    r
  }

  lemma TrailingCut(s: string, l: string, r: string)
    requires |l| <= |s| && l == s[|s| - |l|..] && |r| <= |l| && r == l[..|r|]
    requires forall i | |r| <= i < |l| :: IsStrippable(l[i])
    ensures forall k | |s| - |l| + |r| <= k < |s| :: IsStrippable(s[k])
  {
    forall k | |s| - |l| + |r| <= k < |s|
      ensures IsStrippable(s[k])
    {
      assert s[k] == l[k - (|s| - |l|)];
    }
  }

  /** Ruby's `downcase` as far as matching against an ASCII word goes: ASCII
      capitals, and the Kelvin sign (whose lower case is the ASCII `k`).
      Every other character either is unchanged or lower-cases to non-ASCII
      text, so no other character can make a match succeed. */
  function LowerChar(c: char): char {
    if 'A' <= c <= 'Z' then (c as int + 32) as char
    else if c == '\U{212A}' then 'k'
    else c
  }

  function Lower(s: string): (r: string)
    ensures |r| == |s|
    ensures forall i | 0 <= i < |s| :: r[i] == LowerChar(s[i])
  {
    if |s| == 0 then "" else [LowerChar(s[0])] + Lower(s[1..])
  }

  function Digit(d: nat): char
    requires d < 10
  {
    "0123456789"[d]
  }

  function NatToString(n: nat): (r: string)
    ensures |r| > 0
    ensures forall i | 0 <= i < |r| :: '0' <= r[i] <= '9'
  {
    if n < 10 then [Digit(n)] else NatToString(n / 10) + [Digit(n % 10)]
  }

  /** Ruby's `Integer#to_s`. */
  function IntToString(n: int): (r: string)
    ensures |r| > 0
    ensures n >= 0 <==> r[0] != '-'
  {
    if n < 0 then "-" + NatToString(-n) else NatToString(n)
  }
}
