/** An endpoint URL as the configuration's endpoint class reads it: the
    pattern match that splits it into scheme, host, port and path, the
    dotted-quad and port checks that follow, and the normalised URL rebuilt
    from the parts (config.py:451-529). */
module Endpoint {
  import opened Wrappers
  import opened Text

  // ---------------------------------------------------------------------
  // The pattern, as a language
  // ---------------------------------------------------------------------

  /** Capture group 1: one of the four schemes, `://` included. */
  predicate IsScheme(s: string) {
    s == "http://" || s == "https://" || s == "grpc://" || s == "grpcs://"
  }

  predicate IsHostChar(c: char) { IsAlnum(c) || c == '-' || c == '.' }

  /** Two neighbouring characters neither of which is a letter or digit. */
  predicate NonAlnumPair(h: string, i: int)
    requires 0 <= i < |h| - 1
  {
    !IsAlnum(h[i]) && !IsAlnum(h[i + 1])
  }

  /** Capture group 2: labels separated by single dots, each label runs of
      letters and digits joined by single hyphens. Said character by
      character: only host characters, a letter or digit at both ends, and
      never a `-` or `.` next to another `-` or `.`. Every string the
      dotted-quad branch of the group accepts is of this shape too, so the
      group is exactly this language. */
  predicate IsHost(h: string) {
    && |h| > 0
    && IsAlnum(h[0])
    && IsAlnum(h[|h| - 1])
    && (forall i :: 0 <= i < |h| ==> IsHostChar(h[i]))
    && (forall i :: 0 <= i < |h| - 1 ==> !NonAlnumPair(h, i))
  }

  /** Capture group 3: one to five digits. */
  predicate IsPortText(p: string) { 1 <= |p| <= 5 && AllDigits(p) }

  /** Capture group 4 (or the empty string when it is absent): a slash and
      anything up to the end, where `.` does not match a newline. */
  predicate IsPath(p: string) { p == [] || (p[0] == '/' && '\n' !in p) }

  /** One way of reading a string as the pattern's four groups. */
  datatype Groups = Groups(scheme: string, host: string, port: Option<string>, path: string)
  {
    predicate Valid() {
      && IsScheme(scheme)
      && IsHost(host)
      && (port.Some? ==> IsPortText(port.value))
      && IsPath(path)
    }

    /** The text the four groups span. */
    function Joined(): string {
      scheme + host + PortSuffix(port) + path
    }
  }

  function PortSuffix(port: Option<string>): string {
    match port
    case None => ""
    case Some(d) => ":" + d
  }

  /** The pattern matches `s` with groups `g`: the groups span all of `s`,
      or all of it but a final newline (where `$` also matches). */
  predicate MatchesAs(s: string, g: Groups) {
    g.Valid() && (s == g.Joined() || s == g.Joined() + "\n")
  }

  // ---------------------------------------------------------------------
  // The pattern, as a recogniser
  // ---------------------------------------------------------------------

  /** Length of the longest prefix of `s` whose characters all satisfy `p`. */
  function Run(s: string, p: char -> bool): (n: nat)
    ensures n <= |s|
    ensures forall i :: 0 <= i < n ==> p(s[i])
    ensures n < |s| ==> !p(s[n])
    decreases |s|
  {
    if |s| > 0 && p(s[0]) then 1 + Run(s[1..], p) else 0
  }

  /** A run ends exactly where `p` first fails. */
  lemma {:induction false} RunStopsAt(s: string, p: char -> bool, k: nat)
    requires k <= |s|
    requires forall i :: 0 <= i < k ==> p(s[i])
    requires k < |s| ==> !p(s[k])
    ensures Run(s, p) == k
    decreases k
  {
    if k > 0 {
      assert p(s[0]);
      assert forall i :: 0 <= i < k - 1 ==> s[1..][i] == s[i + 1];
      RunStopsAt(s[1..], p, k - 1);
    }
  }

  lemma RunOfConcat(a: string, b: string, p: char -> bool)
    requires forall i :: 0 <= i < |a| ==> p(a[i])
    requires |b| == 0 || !p(b[0])
    ensures Run(a + b, p) == |a|
  {
    assert forall i :: 0 <= i < |a| ==> (a + b)[i] == a[i];
    if |b| > 0 {
      assert (a + b)[|a|] == b[0];
    }
    RunStopsAt(a + b, p, |a|);
  }

  /** The scheme `t` starts with, if any. */
  function SchemeOf(t: string): (r: Option<string>)
    ensures r.Some? ==> IsScheme(r.value) && StartsWith(t, r.value)
    ensures r.None? ==> forall sc :: IsScheme(sc) ==> !StartsWith(t, sc)
  {
    if StartsWith(t, "http://") then Some("http://")
    else if StartsWith(t, "https://") then Some("https://")
    else if StartsWith(t, "grpc://") then Some("grpc://")
    else if StartsWith(t, "grpcs://") then Some("grpcs://")
    else None
  }

  /** No scheme is a proper prefix of another, so at most one fits. */
  lemma SchemeUnique(t: string, a: string, b: string)
    requires IsScheme(a) && IsScheme(b)
    requires StartsWith(t, a) && StartsWith(t, b)
    ensures a == b
  {
    assert t[..|a|] == a && t[..|b|] == b;
    var k := if |a| <= |b| then |a| - 3 else |b| - 3;
    assert a[k] == t[k] == b[k];
  }

  /** `s` without one final newline. */
  function DropFinalNewline(s: string): (t: string)
    ensures t == s || t + "\n" == s
    ensures |s| > 0 && s[|s| - 1] == '\n' ==> t + "\n" == s
    ensures |s| == 0 || s[|s| - 1] != '\n' ==> t == s
  {
    if |s| > 0 && s[|s| - 1] == '\n' then s[..|s| - 1] else s
  }

  /** What follows the host: an optional colon and one to five digits, then
      a path. The digits end where the first non-digit is. */
  function TailParts(tail: string): (r: Option<(Option<string>, string)>)
    ensures r.Some? ==> (r.value.0.Some? ==> IsPortText(r.value.0.value)) && IsPath(r.value.1)
    ensures r.Some? ==> tail == PortSuffix(r.value.0) + r.value.1
  {
    if |tail| > 0 && tail[0] == ':' then
      var m := Run(tail[1..], IsDigit);
      var digits, path := tail[1..][..m], tail[1..][m..];
      assert tail == ":" + digits + path;
      if 1 <= m <= 5 && IsPath(path) then Some((Some(digits), path)) else None
    else if IsPath(tail) then Some((None, tail))
    else None
  }

  /** After the scheme: the longest run of host characters is the host, and
      the rest must be a port and path. */
  function HostParts(rest: string): (r: Option<(string, Option<string>, string)>)
    ensures r.Some? ==> IsHost(r.value.0) && (r.value.1.Some? ==> IsPortText(r.value.1.value)) && IsPath(r.value.2)
    ensures r.Some? ==> rest == r.value.0 + PortSuffix(r.value.1) + r.value.2
  {
    var n := Run(rest, IsHostChar);
    var host, tail := rest[..n], rest[n..];
    assert rest == host + tail;
    if !IsHost(host) then None
    else
      match TailParts(tail)
      case None => None
      case Some(pp) => Some((host, pp.0, pp.1))
  }

  /** The groups `pattern.match` reports for `s`, or `None` when it does not
      match: the scheme, then the host, port and path, read left to right. */
  function Match(s: string): (r: Option<Groups>)
    ensures r.Some? ==> MatchesAs(s, r.value)
  {
    var t := DropFinalNewline(s);
    match SchemeOf(t)
    case None => None
    case Some(sc) =>
      match HostParts(t[|sc|..])
      case None => None
      case Some(hp) =>
        var g := Groups(sc, hp.0, hp.1, hp.2);
        GroupsSpan(s, t, g);
        Some(g)
  }

  /** Groups read off after the scheme span the whole string. */
  lemma GroupsSpan(s: string, t: string, g: Groups)
    requires t == s || t + "\n" == s
    requires g.Valid() && StartsWith(t, g.scheme)
    requires t[|g.scheme|..] == g.host + PortSuffix(g.port) + g.path
    ensures MatchesAs(s, g)
  {
    assert t == g.scheme + t[|g.scheme|..];
  }

  /** The groups' text never ends in a newline. */
  lemma JoinedEndsClean(g: Groups)
    requires g.Valid()
    ensures |g.Joined()| > 0 && g.Joined()[|g.Joined()| - 1] != '\n'
  {
    var j := g.Joined();
    if g.path != [] {
      assert j[|j| - 1] == g.path[|g.path| - 1];
    } else if g.port.Some? {
      var d := g.port.value;
      assert j[|j| - 1] == d[|d| - 1];
      assert IsDigit(d[|d| - 1]);
    } else {
      assert j[|j| - 1] == g.host[|g.host| - 1];
    }
  }

  lemma TailComplete(port: Option<string>, path: string)
    requires port.Some? ==> IsPortText(port.value)
    requires IsPath(path)
    ensures TailParts(PortSuffix(port) + path) == Some((port, path))
  {
    var tail := PortSuffix(port) + path;
    if port.Some? {
      var d := port.value;
      assert tail[1..] == d + path;
      assert |path| == 0 || !IsDigit(path[0]);
      RunOfConcat(d, path, IsDigit);
      assert tail[1..][..|d|] == d;
      assert tail[1..][|d|..] == path;
    } else {
      assert tail == path;
    }
  }

  lemma HostComplete(host: string, port: Option<string>, path: string)
    requires IsHost(host) && (port.Some? ==> IsPortText(port.value)) && IsPath(path)
    ensures HostParts(host + PortSuffix(port) + path) == Some((host, port, path))
  {
    var tail := PortSuffix(port) + path;
    var rest := host + tail;
    assert rest == host + PortSuffix(port) + path;
    assert |tail| == 0 || !IsHostChar(tail[0]) by {
      if port.None? && path != [] {
        assert tail[0] == path[0] == '/';
      }
    }
    RunOfConcat(host, tail, IsHostChar);
    assert rest[..|host|] == host;
    assert rest[|host|..] == tail;
    TailComplete(port, path);
  }

  /** The pattern admits at most one reading of a string, and the
      recogniser finds it. */
  lemma MatchComplete(s: string, g: Groups)
    requires MatchesAs(s, g)
    ensures Match(s) == Some(g)
  {
    JoinedEndsClean(g);
    var t := DropFinalNewline(s);
    assert t == g.Joined() by {
      if s == g.Joined() + "\n" {
        assert s[|s| - 1] == '\n';
      }
    }
    assert StartsWith(t, g.scheme);
    var sc := SchemeOf(t);
    SchemeUnique(t, sc.value, g.scheme);
    var rest := t[|g.scheme|..];
    assert rest == g.host + PortSuffix(g.port) + g.path;
    HostComplete(g.host, g.port, g.path);
  }

  // ---------------------------------------------------------------------
  // The parsed endpoint
  // ---------------------------------------------------------------------

  /** The endpoint class's attributes after a successful parse. */
  datatype Endpoint = Endpoint(
    protocol: string,
    host: string,
    port: Option<nat>,
    path: string,
    tls: bool,
    checkPort: nat,
    url: string)
  {
    /** What every successfully parsed endpoint satisfies. */
    predicate Valid() {
      && (protocol == "http" || protocol == "https" || protocol == "grpc" || protocol == "grpcs")
      && (tls <==> protocol == "https" || protocol == "grpcs")
      && IsHost(host) && AddressOk(host)
      && (port.Some? ==> PortAllowed(port.value))
      && IsPath(path)
      && checkPort == DefaultOr(protocol, port)
      && PortAllowed(checkPort)
      && url == protocol + "://" + host + PortText(port) + path
    }
  }

  /** An endpoint some parse could have produced. */
  type ValidEndpoint = e: Endpoint | e.Valid()
    witness Endpoint("http", "a", None, "", false, 80, "http://a")

  datatype EndpointError = InvalidEndpointFormat(endpoint: string)

  /** The host is a run of one-to-three-digit groups joined by at least one
      dot (the second pattern, applied to the host alone). */
  predicate IsDottedDigits(h: string) {
    var q := Split(h, '.');
    |q| >= 2 && forall i :: 0 <= i < |q| ==> 1 <= |q[i]| <= 3 && AllDigits(q[i])
  }

  predicate QuadOk(q: string) { DecimalValue(q) <= 255 }

  predicate EdgeQuadOk(q: string) { DecimalValue(q) != 0 && DecimalValue(q) != 255 }

  /** A dotted-digit host must be four quads, none above 255, the first and
      the last neither 0 nor 255; any other host passes. */
  predicate AddressOk(h: string) {
    IsDottedDigits(h) ==>
      var q := Split(h, '.');
      && |q| == 4
      && EdgeQuadOk(q[0]) && EdgeQuadOk(q[3])
      && forall i :: 0 <= i < |q| ==> QuadOk(q[i])
  }

  /** An explicit port is 80, 443, or unprivileged. */
  predicate PortAllowed(p: nat) { p == 80 || p == 443 || 1024 <= p <= 65535 }

  /** The internet-check port: the explicit port, else 80 for plain HTTP and
      443 for the others. */
  function DefaultOr(protocol: string, port: Option<nat>): (p: nat)
    ensures port.Some? ==> p == port.value
    ensures port.None? ==> (p == 80 <==> protocol == "http") && (p == 80 || p == 443)
  {
    match port
    case Some(v) => v
    case None => if protocol == "http" then 80 else 443
  }

  /** The `:port` part of the rebuilt URL; a port of 0 would be left out,
      but no such port survives the port check. */
  function PortText(port: Option<nat>): string {
    match port
    case Some(v) => if v != 0 then ":" + NatToDecimal(v) else ""
    case None => ""
  }

  /** The protocol is the scheme without its `://`. */
  function ProtocolOf(scheme: string): (p: string)
    requires IsScheme(scheme)
    ensures p + "://" == scheme
    ensures p == "http" || p == "https" || p == "grpc" || p == "grpcs"
  {
    scheme[..|scheme| - 3]
  }

  /** The TLS flag is "the protocol ends in `s`", which singles out the two
      secure protocols. */
  lemma TlsOfProtocol(p: string)
    requires p == "http" || p == "https" || p == "grpc" || p == "grpcs"
    ensures (p[|p| - 1] == 's') <==> (p == "https" || p == "grpcs")
  {
  }

  /** The port group's number, if there is one. */
  function PortValue(port: Option<string>): Option<nat> {
    match port
    case Some(d) => Some(DecimalValue(d))
    case None => None
  }

  /** The checks and the rebuilding that follow a successful match. The
      parse succeeds exactly when the address and the port pass, and then it
      keeps the host and path, reads the port's digits, and takes the
      protocol from the scheme. */
  function Accept(s: string, g: Groups): (r: Result<Endpoint, EndpointError>)
    requires g.Valid()
    ensures r.Success? <==> AddressOk(g.host) && (g.port.Some? ==> PortAllowed(PortValue(g.port).value))
    ensures r.Success? ==> r.value.Valid()
    ensures r.Success? ==> && r.value.protocol + "://" == g.scheme
                           && r.value.host == g.host
                           && r.value.port == PortValue(g.port)
                           && r.value.path == g.path
    ensures r.Failure? ==> r.error == InvalidEndpointFormat(s)
  {
    var protocol := ProtocolOf(g.scheme);
    var port := PortValue(g.port);
    if !AddressOk(g.host) then Failure(InvalidEndpointFormat(s))
    else if port.Some? && !PortAllowed(port.value) then Failure(InvalidEndpointFormat(s))
    else
      TlsOfProtocol(protocol);
      var tls := protocol[|protocol| - 1] == 's';
      Success(Endpoint(protocol, g.host, port, g.path, tls, DefaultOr(protocol, port),
                       protocol + "://" + g.host + PortText(port) + g.path))
  }

  /** `_Endpoint(s)`: match, check the address and the port, rebuild the URL.
      Every failure is the one `ValueError` naming the input. */
  function Parse(s: string): (r: Result<Endpoint, EndpointError>)
    ensures r.Success? ==> r.value.Valid()
    ensures r.Failure? ==> r.error == InvalidEndpointFormat(s)
  {
    match Match(s)
    case None => Failure(InvalidEndpointFormat(s))
    case Some(g) => Accept(s, g)
  }

  /** Whichever way the pattern reads `s` is the reading the parse checks. */
  lemma ParseOfGroups(s: string, g: Groups)
    requires MatchesAs(s, g)
    ensures Parse(s) == Accept(s, g)
  {
    MatchComplete(s, g);
  }

  /** A string is accepted exactly when the pattern reads it and the
      address and port checks pass on that reading. */
  lemma ParseAcceptsExactly(s: string)
    ensures Parse(s).Success? <==> exists g :: MatchesAs(s, g) && Accept(s, g).Success?
  {
    if Parse(s).Success? {
      var g := Match(s).value;
      assert MatchesAs(s, g) && Accept(s, g).Success?;
    }
    if exists g :: MatchesAs(s, g) && Accept(s, g).Success? {
      var g :| MatchesAs(s, g) && Accept(s, g).Success?;
      ParseOfGroups(s, g);
    }
  }

  /** The rebuilt URL parses back to the same endpoint: normalising twice
      is normalising once. */
  lemma ParseIdempotent(e: Endpoint)
    requires e.Valid()
    ensures Parse(e.url) == Success(e)
  {
    var port := match e.port case Some(v) => Some(NatToDecimal(v)) case None => None;
    var g := Groups(e.protocol + "://", e.host, port, e.path);
    if e.port.Some? {
      DecimalRoundTrip(e.port.value);
    }
    assert PortSuffix(port) == PortText(e.port);
    assert g.Joined() == e.url;
    assert g.Valid();
    ParseOfGroups(e.url, g);
    MatchComplete(e.url, g);
  }
}
