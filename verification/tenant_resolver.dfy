/** The tenant resolver's host parsing: the subdomain named by a request's
    host (`shop.example.com`, `shop.localhost:3000`), with the
    `X-Subdomain` header as a fallback. The brand lookup is a parameter. */
module TenantResolver {
  import opened Optional
  import opened Values
  import Text

  const Localhost: string := "localhost"

  /** ActiveSupport's `presence` on a string. */
  function Presence(s: string): (r: Option<string>)
    ensures r.Some? <==> PresentText(s)
    ensures r.Some? ==> r.value == s
  {
    if PresentText(s) then Some(s) else None
  }

  /** `host.split(":").first`; a host with no characters other than `:`
      splits into nothing, and the following `include?` on `nil` raises. */
  function WithoutPort(host: string): (r: Outcome<string>)
    ensures r.Raises? <==> Text.Split(host, ':') == []
    ensures r.Ok? ==> r.value == Text.Split(host, ':')[0] && ':' !in r.value
  {
    var parts := Text.Split(host, ':');
    if |parts| == 0 then Raises("NoMethodError: undefined method 'include?' for nil")
    else Ok(parts[0])
  }

  /** `extract_subdomain`. */
  function ExtractSubdomain(host: string): (r: Outcome<Option<string>>)
    ensures r.Raises? <==> WithoutPort(host).Raises?
    // whatever is found is a present first label, free of `.` and `:`
    ensures r.Ok? && r.value.Some? ==>
              PresentText(r.value.value) && '.' !in r.value.value && ':' !in r.value.value &&
              |Text.Split(WithoutPort(host).value, '.')| >= 2 &&
              r.value.value == Text.Split(WithoutPort(host).value, '.')[0]
    // a localhost host yields a subdomain only when its last label is `localhost`
    ensures r.Ok? && r.value.Some? && Text.Contains(WithoutPort(host).value, Localhost) ==>
              var parts := Text.Split(WithoutPort(host).value, '.');
              parts[|parts| - 1] == Localhost
  {
    match WithoutPort(host)
    case Raises(e) => Raises(e)
    case Ok(name) =>
      var parts := Text.Split(name, '.');
      if Text.Contains(name, Localhost) then
        if name == Localhost then Ok(None)
        else if |parts| < 2 || parts[|parts| - 1] != Localhost then Ok(None)
        else Ok(Presence(parts[0]))
      else if |parts| < 2 then Ok(None)
      else Ok(Presence(parts[0]))
  }

  /** The subdomain the request resolves to: the host's, else a present
      `X-Subdomain` header. */
  function Subdomain(host: string, header: Option<string>): (r: Outcome<Option<string>>)
    ensures r.Raises? <==> ExtractSubdomain(host).Raises?
    ensures r.Ok? ==> ExtractSubdomain(host).value.Some? ==> r.value == ExtractSubdomain(host).value
    ensures r.Ok? && r.value.Some? ==> PresentText(r.value.value)
  {
    match ExtractSubdomain(host)
    case Raises(e) => Raises(e)
    case Ok(Some(s)) => Ok(Some(s))
    case Ok(None) => if header.Some? then Ok(Presence(header.value)) else Ok(None)
  }

  /** The brand that becomes the current tenant, if any. */
  function Tenant(host: string, header: Option<string>, brands: string -> Option<nat>): (r: Outcome<Option<nat>>)
    ensures r.Raises? <==> Subdomain(host, header).Raises?
    ensures r.Ok? && Subdomain(host, header).value.None? ==> r.value.None?
    ensures r.Ok? && Subdomain(host, header).value.Some? ==> r.value == brands(Subdomain(host, header).value.value)
  {
    match Subdomain(host, header)
    case Raises(e) => Raises(e)
    case Ok(None) => Ok(None)
    case Ok(Some(s)) => Ok(brands(s))
  }

  // ---------------------------------------------------------------------
  // Splitting helpers

  /** A non-empty text without the separator splits into itself. */
  lemma SplitWhole(a: string, sep: char)
    requires a != "" && sep !in a
    ensures Text.Split(a, sep) == [a]
  {
    assert Text.IndexOf(a, sep).None?;
    assert Text.Fields(a, sep) == [a];
  }

  /** The first field of `a + sep + b` is `a`, and survives the dropping of
      trailing empty fields when it is not empty. */
  lemma SplitFirst(a: string, sep: char, b: string)
    requires a != "" && sep !in a
    ensures |Text.Split(a + [sep] + b, sep)| > 0 && Text.Split(a + [sep] + b, sep)[0] == a
  {
    var s := a + [sep] + b;
    Text.IndexOfAfterFree(a, sep, b);
    var f := Text.Fields(s, sep);
    assert f[0] == a;
  }

  /** Separator-free labels joined with the separator split back into the
      labels when the last is not empty. */
  lemma SplitJoined(ls: seq<string>, sep: char)
    requires |ls| >= 1 && ls[|ls| - 1] != ""
    requires forall i | 0 <= i < |ls| :: sep !in ls[i]
    ensures Text.Split(Text.Join(ls, [sep]), sep) == ls
  {
    Text.FieldsJoin(ls, sep);
  }

  // ---------------------------------------------------------------------
  // Properties

  /** A port never matters. */
  lemma PortIgnored(host: string, port: string)
    requires host != "" && ':' !in host
    ensures ExtractSubdomain(host + ":" + port) == ExtractSubdomain(host)
  {
    SplitFirst(host, ':', port);
    SplitWhole(host, ':');
    assert host + ":" + port == host + [':'] + port;
  }

  /** Bare `localhost` names no tenant. */
  lemma BareLocalhost(l: string)
    requires l == Localhost
    ensures ExtractSubdomain(l) == Ok(None)
  {
    assert ':' !in l by {
      forall i | 0 <= i < |l| ensures l[i] != ':' { }
    }
    SplitWhole(l, ':');
    assert l[0..] == l;
    assert Text.Contains(l, Localhost) by { assert Text.StartsWith(l[0..], Localhost); }
  }

  /** `<sub>.localhost` names `<sub>` when it is present. */
  lemma LocalSubdomain(sub: string, l: string)
    requires l == Localhost
    requires '.' !in sub && ':' !in sub
    ensures ExtractSubdomain(sub + "." + l) == Ok(Presence(sub))
  {
    var host := sub + "." + l;
    assert host == Text.Join([sub, l], ['.']);
    SplitJoined([sub, l], '.');
    assert ':' !in host;
    SplitWhole(host, ':');
    assert host[|sub| + 1..] == l;
    assert Text.StartsWith(host[|sub| + 1..], Localhost);
  }

  /** A host with `localhost` inside a label that is not the last one
      names no tenant. */
  lemma LocalhostNotLast(host: string)
    requires host != "" && ':' !in host && Text.Contains(host, Localhost)
    requires var parts := Text.Split(host, '.'); |parts| >= 1 && parts[|parts| - 1] != Localhost
    ensures ExtractSubdomain(host) == Ok(None)
  {
    SplitWhole(host, ':');
  }

  /** Any other host with at least two labels names its first label, when
      that label is present; a single label names nothing. */
  lemma StandardDomain(ls: seq<string>)
    requires |ls| >= 2 && ls[|ls| - 1] != ""
    requires forall i | 0 <= i < |ls| :: '.' !in ls[i]
    requires ':' !in Text.Join(ls, ".") && !Text.Contains(Text.Join(ls, "."), Localhost)
    ensures ExtractSubdomain(Text.Join(ls, ".")) == Ok(Presence(ls[0]))
  {
    var host := Text.Join(ls, ".");
    assert ['.'] == ".";
    SplitJoined(ls, '.');
    SplitWhole(host, ':');
  }

  lemma SingleLabel(host: string)
    requires host != "" && '.' !in host && ':' !in host && !Text.Contains(host, Localhost)
    ensures ExtractSubdomain(host) == Ok(None)
  {
    SplitWhole(host, ':');
    SplitWhole(host, '.');
  }

  /** A host made only of port separators raises. */
  lemma EmptyHostRaises(host: string)
    requires forall i | 0 <= i < |host| :: host[i] == ':'
    ensures ExtractSubdomain(host).Raises?
  {
    OnlySeparators(host, ':');
  }

  lemma {:induction false} OnlySeparators(s: string, sep: char)
    requires forall i | 0 <= i < |s| :: s[i] == sep
    ensures forall i | 0 <= i < |Text.Fields(s, sep)| :: Text.Fields(s, sep)[i] == ""
    ensures Text.Split(s, sep) == []
    decreases |s|
  {
    if |s| > 0 {
      assert Text.IndexOf(s, sep) == Some(0);
      OnlySeparators(s[1..], sep);
      assert Text.Fields(s, sep) == [""] + Text.Fields(s[1..], sep);
    }
  }

  /** The header is read only when the host names nothing. */
  lemma HostBeatsHeader(host: string, header: Option<string>, sub: string)
    requires ExtractSubdomain(host) == Ok(Some(sub))
    ensures Subdomain(host, header) == Ok(Some(sub))
  {
  }

  /** A blank header counts as no header. */
  lemma BlankHeaderIgnored(host: string, header: string)
    requires Text.Blank(header)
    ensures Subdomain(host, Some(header)) == Subdomain(host, None)
  {
  }

  /** A present header names the tenant when the host does not. */
  lemma HeaderFallback(host: string, header: string)
    requires ExtractSubdomain(host) == Ok(None) && PresentText(header)
    ensures Subdomain(host, Some(header)) == Ok(Some(header))
  {
  }
}
