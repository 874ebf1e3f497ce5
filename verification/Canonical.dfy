/** The three normalisations of a peer URL (v0alpha0/peer.go, v0alpha0/util.go) and why they agree. */
module Canonical {
  import opened Text
  import opened Urls

  predicate IsHttp(scheme: string) {
    scheme == "http" || scheme == "https"
  }

  function DefaultPort(scheme: string): string {
    if scheme == "https" then "443" else "80"
  }

  function FilledPort(u: Url): string {
    if Port(u.host) == "" then DefaultPort(u.scheme) else Port(u.host)
  }

  function WithScheme(s: string): string {
    if Contains(s, "://") then s else "http://" + s
  }

  /** The comparison key of a parsed URL: scheme, lower-cased name, explicit port. */
  function Key(u: Url): string {
    if IsHttp(u.scheme) && Hostname(u.host) != "" then
      u.scheme + [':'] + ("//" + JoinHostPort(Lower(Hostname(u.host)), FilledPort(u)))
    else ""
  }

  /** canonicalPeerURL. */
  function Canon(s: string): string {
    var t := TrimSpace(s);
    if t == "" then ""
    else
      match Parse(WithScheme(t))
      case None => ""
      case Some(u) => Key(u)
  }

  /** What sanitizePeers makes of one entry; None for an empty or a dropped one. */
  function Sanitized(raw: string): Option<string> {
    var t := TrimSpace(raw);
    if t == "" then None
    else
      match Parse(WithScheme(t))
      case None => None
      case Some(u) =>
        if IsHttp(u.scheme) && u.host != "" then Some(Print(u.(path := TrimSlashes(u.path)))) else None
  }

  /** What parseAdvertiseURLs makes of one entry. */
  function Advertised(s: string): Option<Url> {
    match Parse(s)
    case None => None
    case Some(u) =>
      if Hostname(u.host) == "" then None
      else
        var host := if Port(u.host) == "" then JoinHostPort(Hostname(u.host), DefaultPort(u.scheme)) else u.host;
        Some(u.(host := host, path := ""))
  }

  // ---- hosts ----

  predicate IsName(name: string) {
    IsV6(name) || (Lacks(name, ':') && forall c :: c in name ==> IsRegChar(c))
  }

  lemma HostParts(host: string)
    requires ValidHost(host)
    ensures IsName(Hostname(host)) && AllDigits(Port(host))
  {
  }

  lemma JoinParts(name: string, port: string)
    requires IsName(name) && AllDigits(port)
    ensures var host := JoinHostPort(name, port);
      ValidHost(host) && Hostname(host) == name && Port(host) == port
  {
    var host := JoinHostPort(name, port);
    if ':' in name {
      assert host == ("[" + name) + [']'] + (":" + port);
      assert Lacks("[" + name, ']');
      Cut("[" + name, ']', ":" + port);
      assert host[1..NameEnd(host) - 1] == name;
      assert host[NameEnd(host)..] == ":" + port;
    } else {
      assert host == name + [':'] + port;
      Cut(name, ':', port);
      assert name == "" || name[0] in name;
      assert host[0] != '[';
      assert host[..NameEnd(host)] == name;
      assert host[NameEnd(host)..] == ":" + port;
    }
  }

  lemma LowerName(name: string)
    requires IsName(name)
    ensures IsName(Lower(name)) && Lower(Lower(name)) == Lower(name)
  {
    var low := Lower(name);
    forall c | c in low ensures exists d :: d in name && c == LowerChar(d) {
      var i :| 0 <= i < |low| && low[i] == c;
      assert name[i] in name;
    }
    if ':' in name {
      var i :| 0 <= i < |name| && name[i] == ':';
      assert low[i] == ':';
    }
  }

  // ---- canonical form of printed URLs ----

  lemma TrimNothing(s: string)
    requires NoSpace(s)
    ensures TrimSpace(s) == s
  {
    if s != "" {
      assert s[0] in s && s[|s| - 1] in s;
    }
  }

  lemma ContainsAt(s: string, sub: string, i: nat)
    requires i + |sub| <= |s| && s[i..i + |sub|] == sub
    ensures Contains(s, sub)
  {
    assert s == s[..i] + sub + s[i + |sub|..];
    ContainsMiddle(s[..i], sub, s[i + |sub|..]);
  }

  /** Text that parses with a scheme needs neither trimming nor a default scheme. */
  lemma ParsedHasScheme(s: string)
    requires Parse(s).Some? && Parse(s).value.scheme != ""
    ensures TrimSpace(s) == s && WithScheme(s) == s
  {
    TrimNothing(s);
    ContainsScheme(s);
    hide Parse, TrimSpace, Contains;
  }

  lemma ContainsScheme(s: string)
    requires Parse(s).Some? && Parse(s).value.scheme != ""
    ensures Contains(s, "://")
  {
    hide Lacks, NoSpace, ParseBody, TrimSpace, Index, Contains;
    var h := Index(s, '#');
    var c := BodyHasScheme(s[..h], if h < |s| then s[h + 1..] else "");
    assert s[c..c + 3] == s[..h][c..c + 3];
    ContainsAt(s, "://", c);
  }

  lemma BodyHasScheme(body: string, frag: string) returns (c: nat)
    requires ParseBody(body, frag).Some? && ParseBody(body, frag).value.scheme != ""
    ensures c + 3 <= |body| && body[c..c + 3] == "://"
  {
    hide Lacks, ValidScheme, ParseRest, Lower, Index;
    c := Index(body, ':');
    RestKeepsScheme("", body, frag);
    var rest := body[c + 1..];
    RestRooted(Lower(body[..c]), rest, frag);
    assert body[c + 1] == rest[0] && body[c + 2] == rest[1];
  }

  lemma RestKeepsScheme(scheme: string, rest: string, frag: string)
    ensures ParseRest(scheme, rest, frag).Some? ==> ParseRest(scheme, rest, frag).value.scheme == scheme
  {
    hide Index, ParseAuthority;
  }

  lemma RestRooted(scheme: string, rest: string, frag: string)
    requires ParseRest(scheme, rest, frag).Some?
    ensures |rest| >= 2 && rest[0] == '/' && rest[1] == '/'
  {
    hide Lacks, ParseAuthority;
    var q := Index(rest, '?');
    assert rest[..q][0] == '/' && rest[..q][1] == '/';
    hide Index;
  }

  /** The canonical form of a URL's text is the key of the URL. */
  lemma CanonPrint(u: Url)
    requires WellFormed(u) && u.scheme != ""
    ensures Canon(Print(u)) == Key(u)
  {
    PrintParse(u);
    ParsedHasScheme(Print(u));
    hide WellFormed, Parse, Print, Key, TrimSpace, WithScheme;
  }

  /** The key, read as a URL. */
  function KeyUrl(u: Url): Url {
    Url(u.scheme, None, JoinHostPort(Lower(Hostname(u.host)), FilledPort(u)), "", None, "")
  }

  lemma KeyUrlParts(u: Url)
    requires WellFormed(u) && Key(u) != ""
    ensures WellFormed(KeyUrl(u)) && Key(KeyUrl(u)) == Key(u)
  {
    HostParts(u.host);
    LowerName(Hostname(u.host));
    var name, port := Lower(Hostname(u.host)), FilledPort(u);
    assert AllDigits(DefaultPort(u.scheme)) && port != "";
    JoinParts(name, port);
    hide ValidHost, Hostname, Port, IsName, JoinHostPort, Lower, AllDigits, SchemeOk, NoSpace, DefaultPort;
    assert Lower(name) == name && name != "";
    assert PathOk("") && TailOk(None, "") by { EmptyTail(); }
    assert FilledPort(KeyUrl(u)) == port;
  }

  lemma EmptyTail()
    ensures PathOk("") && TailOk(None, "")
  {
  }

  lemma KeyUrlPrint(u: Url)
    requires Key(u) != ""
    ensures Print(KeyUrl(u)) == Key(u)
  {
    hide JoinHostPort, Hostname, Lower, FilledPort;
    var host := JoinHostPort(Lower(Hostname(u.host)), FilledPort(u));
    assert "" + host == host;
    assert "//" + host + "" == "//" + host;
  }

  /** A canonical form is its own canonical form (sections 6.2.2.1 and 6.2.3 of RFC 3986). */
  lemma CanonIdempotent(s: string)
    ensures Canon(Canon(s)) == Canon(s)
  {
    if Canon(s) != "" {
      var t := WithScheme(TrimSpace(s));
      ParseWellFormed(t);
      var u := Parse(t).value;
      KeyUrlParts(u);
      KeyUrlPrint(u);
      CanonPrint(KeyUrl(u));
      hide WellFormed, Key, Parse, KeyUrl, Print;
    }
  }

  // ---- what is one spelling ----

  /** How canonicalPeerURL reads a string. */
  function Read(s: string): Option<Url> {
    if TrimSpace(s) == "" then None else Parse(WithScheme(TrimSpace(s)))
  }

  /** Equal scheme, equal host name but for its case, equal port once the scheme's default is filled in. */
  predicate SameEndpoint(u: Url, v: Url) {
    u.scheme == v.scheme && Lower(Hostname(u.host)) == Lower(Hostname(v.host)) && FilledPort(u) == FilledPort(v)
  }

  lemma KeyIff(u: Url, v: Url)
    requires WellFormed(u) && WellFormed(v) && Key(u) != ""
    ensures Key(u) == Key(v) <==> SameEndpoint(u, v)
  {
    if Key(u) == Key(v) { SameKey(u, v); }
    if SameEndpoint(u, v) {
      assert |Hostname(u.host)| == |Lower(Hostname(u.host))| == |Hostname(v.host)|;
    }
    hide WellFormed, Hostname, FilledPort, JoinHostPort, Lower;
  }

  lemma SameKey(u: Url, v: Url)
    requires WellFormed(u) && WellFormed(v) && Key(u) == Key(v) != ""
    ensures SameEndpoint(u, v)
  {
    KeyUrlRead(u);
    KeyUrlRead(v);
    KeyHost(u);
    KeyHost(v);
    hide WellFormed, Parse, Hostname, Port, FilledPort, JoinHostPort, Lower, Key;
  }

  lemma KeyUrlRead(u: Url)
    requires WellFormed(u) && Key(u) != ""
    ensures Parse(Key(u)) == Some(KeyUrl(u))
  {
    KeyUrlParts(u);
    KeyUrlPrint(u);
    PrintParse(KeyUrl(u));
    hide WellFormed, Parse, Print, KeyUrl, Key;
  }

  lemma KeyHost(u: Url)
    requires WellFormed(u)
    ensures Hostname(KeyUrl(u).host) == Lower(Hostname(u.host)) && Port(KeyUrl(u).host) == FilledPort(u)
  {
    HostParts(u.host);
    LowerName(Hostname(u.host));
    assert AllDigits(DefaultPort(u.scheme));
    JoinParts(Lower(Hostname(u.host)), FilledPort(u));
    hide ValidHost, Hostname, Port, IsName, JoinHostPort, Lower, AllDigits, SchemeOk;
  }

  /** Two strings have one canonical form exactly when they read as the same endpoint. */
  lemma CanonIff(s: string, t: string)
    requires Canon(s) != ""
    ensures Canon(s) == Canon(t) <==> Read(s).Some? && Read(t).Some? && SameEndpoint(Read(s).value, Read(t).value)
  {
    if Read(t).Some? {
      ParseWellFormed(WithScheme(TrimSpace(s)));
      ParseWellFormed(WithScheme(TrimSpace(t)));
      KeyIff(Read(s).value, Read(t).value);
    }
    hide WellFormed, Parse, Key, TrimSpace, WithScheme, SameEndpoint;
  }

  /** Two spellings of one peer: both read as the same endpoint, or neither as a peer URL at all. */
  predicate OneSpelling(s: string, t: string) {
    if Canon(s) == "" then Canon(t) == ""
    else Read(s).Some? && Read(t).Some? && SameEndpoint(Read(s).value, Read(t).value)
  }

  lemma OneSpellingIff(s: string, t: string)
    ensures OneSpelling(s, t) <==> Canon(s) == Canon(t)
  {
    if Canon(s) != "" { CanonIff(s, t); }
    hide Canon, Read, SameEndpoint;
  }

  /** A host without a port, as a URL writes it. */
  function BareHost(name: string): string {
    if ':' in name then "[" + name + "]" else name
  }

  lemma BareParts(name: string)
    requires IsName(name)
    ensures var host := BareHost(name); ValidHost(host) && Hostname(host) == name && Port(host) == ""
  {
    var host := BareHost(name);
    if ':' in name {
      assert host == ("[" + name) + [']'] + "";
      assert Lacks("[" + name, ']');
      Cut("[" + name, ']', "");
      assert host[1..NameEnd(host) - 1] == name;
      assert host[NameEnd(host)..] == "";
    } else {
      Uncut(name, ':');
      assert name == "" || name[0] in name;
      assert host[..NameEnd(host)] == name && host[NameEnd(host)..] == "";
    }
  }

  /** Case, an implicit default port and a path are all the same spelling. */
  lemma SpellingVariants(scheme: string, name: string, other: string, path: string)
    requires IsHttp(scheme) && IsName(name) && IsName(other) && name != "" && Lower(other) == Lower(name) && PathOk(path)
    ensures Canon(Print(Url(scheme, None, BareHost(other), path, None, "")))
         == Canon(Print(Url(scheme, None, JoinHostPort(name, DefaultPort(scheme)), "", None, "")))
         != ""
  {
    var u := Url(scheme, None, BareHost(other), path, None, "");
    var v := Url(scheme, None, JoinHostPort(name, DefaultPort(scheme)), "", None, "");
    assert SchemeOk(scheme) by { HttpOk(scheme); }
    assert AllDigits(DefaultPort(scheme)) && DefaultPort(scheme) != "";
    assert |Lower(name)| == |name|;
    BareParts(other);
    JoinParts(name, DefaultPort(scheme));
    EmptyTail();
    hide ValidHost, Hostname, Port, IsName, JoinHostPort, BareHost, Lower, AllDigits, SchemeOk, PathOk, TailOk, DefaultPort;
    assert WellFormed(u) && WellFormed(v);
    assert SameEndpoint(u, v) && Key(v) != "";
    CanonPrint(u);
    CanonPrint(v);
    KeyIff(v, u);
  }

  lemma HttpOk(scheme: string)
    requires IsHttp(scheme)
    ensures SchemeOk(scheme)
  {
    assert Lower(scheme) == scheme;
  }

  /** Sanitising an entry does not change its canonical form; an entry it drops has none. */
  lemma SanitizeKeepsCanon(raw: string)
    ensures match Sanitized(raw) case Some(s) => Canon(s) == Canon(raw) case None => Canon(raw) == ""
  {
    var t := WithScheme(TrimSpace(raw));
    if TrimSpace(raw) != "" && Parse(t).Some? {
      var u := Parse(t).value;
      ParseWellFormed(t);
      if IsHttp(u.scheme) && u.host != "" {
        TrimmedPath(u);
        CanonPrint(u.(path := TrimSlashes(u.path)));
      }
    }
    hide Parse, WellFormed, TrimSpace, WithScheme, Print, TrimSlashes, JoinHostPort;
  }

  lemma TrimmedPath(u: Url)
    requires WellFormed(u) && u.scheme != ""
    ensures var v := u.(path := TrimSlashes(u.path)); WellFormed(v) && Key(v) == Key(u)
  {
    hide ValidHost, SchemeOk, UserOk, TailOk, IsSpace, Hostname, FilledPort, JoinHostPort;
    assert FilledPort(u) == FilledPort(u.(path := TrimSlashes(u.path))) by { PathNotInPort(u); }
  }

  lemma PathNotInPort(u: Url)
    ensures forall path :: FilledPort(u.(path := path)) == FilledPort(u)
  {
  }

  /** Advertising an http(s) URL does not change its canonical form, and drops only one that has none. */
  lemma AdvertiseKeepsCanon(s: string)
    requires Parse(s).Some? && IsHttp(Parse(s).value.scheme)
    ensures match Advertised(s) case Some(u) => Canon(Print(u)) == Canon(s) case None => Canon(s) == ""
  {
    ParsedHasScheme(s);
    ParseWellFormed(s);
    var u := Parse(s).value;
    if Advertised(s).Some? {
      AdvertisedKey(u, Advertised(s).value);
    }
    hide Parse, WellFormed, TrimSpace;
  }

  lemma DefaultDigits(scheme: string)
    ensures AllDigits(DefaultPort(scheme)) && DefaultPort(scheme) != ""
  {
  }

  lemma AdvertisedKey(u: Url, v: Url)
    requires WellFormed(u) && IsHttp(u.scheme)
    requires v == u.(path := "", host := if Port(u.host) == "" then JoinHostPort(Hostname(u.host), DefaultPort(u.scheme)) else u.host)
    ensures Canon(Print(v)) == Key(u)
  {
    hide ValidHost, Hostname, Port, IsName, JoinHostPort, Lower, AllDigits, PathOk, SchemeOk, UserOk, TailOk, Canon;
    HostParts(u.host);
    DefaultDigits(u.scheme);
    JoinParts(Hostname(u.host), DefaultPort(u.scheme));
    EmptyTail();
    assert WellFormed(v) && Key(v) == Key(u);
    CanonPrint(v);
  }

  // ---- the three forms, spelled out ----

  /** A host name or address, with or without a port. */
  function HostPort(name: string, port: string): string {
    if port == "" then BareHost(name) else BareHost(name) + ":" + port
  }

  function Endpoint(tls: bool, name: string, port: string, path: string): Url {
    Url(if tls then "https" else "http", None, HostPort(name, port), path, None, "")
  }

  lemma HostPortParts(name: string, port: string)
    requires IsName(name) && AllDigits(port)
    ensures var host := HostPort(name, port); ValidHost(host) && Hostname(host) == name && Port(host) == port
  {
    hide ValidHost, Hostname, Port, IsName, AllDigits;
    if port == "" {
      BareParts(name);
    } else {
      JoinParts(name, port);
      JoinBare(name, port);
    }
  }

  lemma JoinBare(name: string, port: string)
    ensures JoinHostPort(name, port) == BareHost(name) + ":" + port
  {
  }

  lemma EndpointParts(tls: bool, name: string, port: string, path: string)
    requires IsName(name) && AllDigits(port) && PathOk(path)
    ensures var u := Endpoint(tls, name, port, path); WellFormed(u) && Hostname(u.host) == name && Port(u.host) == port
  {
    hide ValidHost, Hostname, Port, IsName, HostPort, SchemeOk, AllDigits, PathOk, TailOk;
    HostPortParts(name, port);
    HttpOk(if tls then "https" else "http");
    EmptyTail();
  }

  lemma PrintPlain(u: Url)
    requires u.user == None && u.query == None && u.frag == "" && u.scheme != ""
    ensures Print(u) == u.scheme + "://" + u.host + u.path
  {
    assert "" + u.host == u.host;
    assert u.scheme + [':'] + ("//" + u.host + u.path) == u.scheme + "://" + u.host + u.path;
  }

  lemma LowerBare(name: string)
    ensures BareHost(Lower(name)) == Lower(BareHost(name))
  {
    hide LowerChar;
    LowerColon(name);
    if ':' in name {
      LowerBracketed(name);
    }
  }

  lemma LowerBracketed(name: string)
    ensures Lower("[" + name + "]") == "[" + Lower(name) + "]"
  {
  }

  lemma LowerColon(name: string)
    ensures ':' in Lower(name) <==> ':' in name
  {
    var low := Lower(name);
    if ':' in name {
      var i :| 0 <= i < |name| && name[i] == ':';
      assert low[i] == ':';
    }
    if ':' in low {
      var i :| 0 <= i < |low| && low[i] == ':';
      assert name[i] == ':';
    }
  }

  lemma KeyText(u: Url)
    requires IsHttp(u.scheme) && Hostname(u.host) != ""
    ensures Key(u) == u.scheme + "://" + Lower(BareHost(Hostname(u.host))) + ":" + FilledPort(u)
  {
    hide Hostname, FilledPort, Lower, BareHost, JoinHostPort;
    var name := Hostname(u.host);
    LowerBare(name);
    JoinBare(Lower(name), FilledPort(u));
    var rest := Lower(BareHost(name)) + ":" + FilledPort(u);
    assert u.scheme + [':'] + ("//" + rest) == u.scheme + "://" + rest;
  }

  /** The canonical form: the name in lower case, the scheme's own port, 443 under https and 80 under http,
      where none is given, and no path. */
  lemma CanonText(tls: bool, name: string, port: string, path: string)
    requires IsName(name) && name != "" && AllDigits(port) && PathOk(path)
    ensures var scheme := if tls then "https" else "http";
      Canon(scheme + "://" + HostPort(name, port) + path)
      == scheme + "://" + Lower(BareHost(name)) + ":" + (if port != "" then port else if tls then "443" else "80")
  {
    hide WellFormed, Canon, Print, BareHost, HostPort, Hostname, Port, Key, Lower, IsName, AllDigits, PathOk;
    var u := Endpoint(tls, name, port, path);
    EndpointParts(tls, name, port, path);
    PrintPlain(u);
    CanonPrint(u);
    KeyText(u);
  }

  /** The sanitised form keeps the port, or its absence, as written, and only loses trailing slashes. */
  lemma SanitizedText(tls: bool, name: string, port: string, path: string, slashes: string)
    requires IsName(name) && (name != "" || port != "") && AllDigits(port) && PathOk(path)
    requires (path == "" || path[|path| - 1] != '/') && forall i :: 0 <= i < |slashes| ==> slashes[i] == '/'
    ensures var text := (if tls then "https" else "http") + "://" + HostPort(name, port) + path;
      Sanitized(text + slashes) == Some(text)
  {
    hide WellFormed, Parse, Print, BareHost, Hostname, Port, Lower, IsName, AllDigits, PathOk, TrimSpace, WithScheme, TrimSlashes;
    var u, v := Endpoint(tls, name, port, path + slashes), Endpoint(tls, name, port, path);
    PathSlashes(path, slashes);
    EndpointParts(tls, name, port, path + slashes);
    PrintPlain(u);
    PrintPlain(v);
    PrintParse(u);
    ParsedHasScheme(Print(u));
    TrimSlashesAround(path, slashes);
    assert Print(u) == Print(v) + slashes;
    assert u.host != "" by { HostNotEmpty(name, port); }
    assert Print(u) != "";
  }

  lemma PathSlashes(path: string, slashes: string)
    requires PathOk(path) && forall i :: 0 <= i < |slashes| ==> slashes[i] == '/'
    ensures PathOk(path + slashes)
  {
  }

  lemma HostNotEmpty(name: string, port: string)
    requires name != "" || port != ""
    ensures HostPort(name, port) != ""
  {
  }

  /** The advertised form always has a port, the scheme's own where none is given, and no path; without a host
      name there is nothing to advertise. */
  lemma AdvertisedText(tls: bool, name: string, port: string, path: string)
    requires IsName(name) && AllDigits(port) && PathOk(path)
    ensures var scheme := if tls then "https" else "http";
      match Advertised(scheme + "://" + HostPort(name, port) + path)
      case None => name == ""
      case Some(v) =>
        && name != ""
        && Print(v) == scheme + "://" + BareHost(name) + ":" + (if port != "" then port else if tls then "443" else "80")
  {
    hide WellFormed, Parse, Print, BareHost, HostPort, Hostname, Port, JoinHostPort, IsName, AllDigits, PathOk;
    var u := Endpoint(tls, name, port, path);
    EndpointParts(tls, name, port, path);
    PrintPlain(u);
    PrintParse(u);
    if name != "" {
      PortText(name, port);
      JoinBare(name, DefaultPort(u.scheme));
      var v := Advertised(Print(u)).value;
      PrintPlain(v);
      assert v.path == "" && v.scheme + "://" + v.host + "" == v.scheme + "://" + v.host;
    }
  }

  lemma PortText(name: string, port: string)
    ensures port != "" ==> HostPort(name, port) == BareHost(name) + ":" + port
  {
  }

  // ---- what is read alike ----

  /** Both peer forms depend on a text only through how it reads. */
  lemma ReadDecides(s: string, t: string)
    requires Read(s) == Read(t)
    ensures Canon(s) == Canon(t) && Sanitized(s) == Sanitized(t)
  {
    hide Parse, TrimSpace, WithScheme, Key, Print, TrimSlashes;
  }

  /** A text that neither begins nor ends with a blank. */
  predicate Tight(s: string) {
    s != "" && !IsSpace(s[0]) && !IsSpace(s[|s| - 1])
  }

  /** Blanks around an entry do not matter. */
  lemma BlanksAround(before: string, s: string, after: string)
    requires Blank(before) && Blank(after) && Tight(s)
    ensures Canon(before + s + after) == Canon(s) && Sanitized(before + s + after) == Sanitized(s)
  {
    hide Parse, TrimSpace, WithScheme, Canon, Sanitized, IsSpace;
    TrimAround(before, s, after);
    TrimAround("", s, "");
    assert "" + s + "" == s;
    ReadDecides(before + s + after, s);
  }

  /** A missing scheme is http: a bare host:port is that port under http, and a bare host is port 80. */
  lemma MissingScheme(s: string)
    requires Tight(s) && !Contains(s, "://")
    ensures Canon(s) == Canon("http://" + s) && Sanitized(s) == Sanitized("http://" + s)
  {
    hide Parse, TrimSpace, Contains, Canon, Sanitized, IsSpace;
    var t := "http://" + s;
    assert t[0] == 'h' && t[|t| - 1] == s[|s| - 1] && !IsSpace('h') by { LetterFacts(); }
    TrimAround("", s, "");
    TrimAround("", t, "");
    assert "" + s + "" == s && "" + t + "" == t;
    ContainsAt(t, "://", 4);
    ReadDecides(s, t);
  }

  /** What a bare host or host:port canonicalises to. */
  lemma BareText(name: string, port: string)
    requires IsName(name) && name != "" && AllDigits(port)
    ensures Canon(HostPort(name, port)) == "http://" + Lower(BareHost(name)) + ":" + (if port != "" then port else "80")
  {
    hide IsName, AllDigits, HostPort, BareHost, Canon, Sanitized, Lower, Contains;
    var host := HostPort(name, port);
    HostPortTight(name, port);
    MissingScheme(host);
    EmptyTail();
    CanonText(false, name, port, "");
    assert "http" + "://" + host + "" == "http://" + host;
    assert "http" + "://" == "http://";
  }

  lemma HostPortTight(name: string, port: string)
    requires IsName(name) && name != "" && AllDigits(port)
    ensures Tight(HostPort(name, port)) && !Contains(HostPort(name, port), "://")
  {
    hide IsName, AllDigits, ValidHost, Hostname, Port, HostPort, IsSpace, Contains;
    var host := HostPort(name, port);
    HostPortParts(name, port);
    HostDelimiters(host);
    HostNotEmpty(name, port);
    assert host[0] in host && host[|host| - 1] in host;
    if Contains(host, "://") { HoldsSlash(host); }
  }

  lemma HoldsSlash(s: string)
    requires Contains(s, "://")
    ensures '/' in s
  {
    ContainsIff(s, "://");
    var i :| 0 <= i <= |s| && "://" <= s[i..];
    assert s[i + 1] == s[i..][1] == '/';
  }

  lemma LetterFacts()
    ensures forall c :: IsAlpha(c) ==> !IsSpace(c)
    ensures IsAlpha('h') && !IsSpace('/')
  {
  }

  /** The case of the scheme does not matter. */
  lemma SchemeCase(scheme: string, rest: string)
    requires ValidScheme(scheme)
    ensures Canon(scheme + "://" + rest) == Canon(Lower(scheme) + "://" + rest)
    ensures Sanitized(scheme + "://" + rest) == Sanitized(Lower(scheme) + "://" + rest)
  {
    hide Parse, TrimRight, Lower, Read, Canon, Sanitized, ValidScheme;
    LowerScheme(scheme);
    ReadScheme(scheme, rest);
    ReadScheme(Lower(scheme), rest);
    ParseCase(scheme, TrimRight(rest));
    ReadDecides(scheme + "://" + rest, Lower(scheme) + "://" + rest);
  }

  lemma ParseCase(scheme: string, rest: string)
    requires ValidScheme(scheme)
    ensures Parse(scheme + "://" + rest) == Parse(Lower(scheme) + "://" + rest)
  {
    hide Parse, ParseRest, Lower, ValidScheme, NoSpace, Index;
    LowerScheme(scheme);
    ParseScheme(scheme, rest);
    ParseScheme(Lower(scheme), rest);
  }

  lemma ReadScheme(scheme: string, rest: string)
    requires ValidScheme(scheme)
    ensures Read(scheme + "://" + rest) == Parse(scheme + "://" + TrimRight(rest))
  {
    hide Parse, TrimSpace, TrimRight, Contains, IsSpace, IsAlpha;
    LetterFacts();
    var after := TrimmedTail(rest);
    var t := scheme + "://" + TrimRight(rest);
    assert scheme + "://" + rest == "" + t + after;
    TrimAround("", t, after);
    assert t[|scheme|..|scheme| + 3] == "://";
    ContainsAt(t, "://", |scheme|);
  }

  lemma ParseScheme(scheme: string, rest: string)
    requires ValidScheme(scheme)
    ensures var h := Index(rest, '#');
      Parse(scheme + "://" + rest) ==
        if !NoSpace(rest) then None
        else ParseRest(Lower(scheme), "//" + rest[..h], if h < |rest| then rest[h + 1..] else "")
  {
    hide ParseRest, ParseBody, Parse, ValidScheme, NoSpace, Lacks, Index, Lower;
    var h := Index(rest, '#');
    SchemeStart(scheme);
    ParsePast(scheme + "://", rest);
    BodyScheme(scheme, rest[..h], if h < |rest| then rest[h + 1..] else "");
  }

  lemma ParsePast(a: string, b: string)
    requires NoSpace(a) && Lacks(a, '#')
    ensures var h := Index(b, '#');
      Parse(a + b) == if !NoSpace(b) then None else ParseBody(a + b[..h], if h < |b| then b[h + 1..] else "")
  {
    hide Parse, ParseBody, NoSpace, Lacks, Index;
    SplitSpace(a, b);
    IndexPast(a, b, '#');
    CutPast(a, b, Index(b, '#'));
    ParseAt(a + b, |a| + Index(b, '#'));
  }

  lemma ParseAt(s: string, h: nat)
    requires h == Index(s, '#')
    ensures Parse(s) == if !NoSpace(s) then None else ParseBody(s[..h], if h < |s| then s[h + 1..] else "")
  {
    hide ParseBody, NoSpace, Lacks, Index;
  }

  lemma CutPast(a: string, b: string, h: nat)
    requires h <= |b|
    ensures (a + b)[..|a| + h] == a + b[..h] && (h < |b| ==> (a + b)[|a| + h + 1..] == b[h + 1..])
  {
  }

  lemma SchemeStart(scheme: string)
    requires ValidScheme(scheme)
    ensures NoSpace(scheme + "://") && Lacks(scheme + "://", '#')
  {
    hide ValidScheme, IsSpace;
    SchemeChars(scheme);
    SpaceFacts();
  }

  lemma {:induction false} IndexPast(a: string, b: string, c: char)
    requires Lacks(a, c)
    ensures Index(a + b, c) == |a| + Index(b, c)
  {
    if a == "" {
      assert a + b == b;
    } else {
      assert a[0] in a && (a + b)[1..] == a[1..] + b;
      IndexPast(a[1..], b, c);
    }
  }

  lemma BodyScheme(scheme: string, rest: string, frag: string)
    requires ValidScheme(scheme)
    ensures ParseBody(scheme + "://" + rest, frag) == ParseRest(Lower(scheme), "//" + rest, frag)
  {
    hide ParseRest, ValidScheme, Index, Lower;
    SchemeChars(scheme);
    assert scheme + "://" + rest == scheme + [':'] + ("//" + rest);
    Cut(scheme, ':', "//" + rest);
  }

  lemma SplitSpace(a: string, b: string)
    ensures NoSpace(a + b) <==> NoSpace(a) && NoSpace(b)
  {
    assert forall c :: c in a + b <==> c in a || c in b;
  }

  /** Any other scheme is no peer URL. */
  lemma OtherScheme(scheme: string, rest: string)
    requires ValidScheme(scheme) && Lower(scheme) != "http" && Lower(scheme) != "https"
    ensures Canon(scheme + "://" + rest) == "" && Sanitized(scheme + "://" + rest) == None
  {
    hide Parse, TrimRight, Lower, ValidScheme, Index, Read, Canon, Sanitized, NoSpace, ParseRest;
    var trimmed := TrimRight(rest);
    var h := Index(trimmed, '#');
    ReadScheme(scheme, rest);
    ParseScheme(scheme, trimmed);
    RestKeepsScheme(Lower(scheme), "//" + trimmed[..h], if h < |trimmed| then trimmed[h + 1..] else "");
    NotHttp(scheme + "://" + rest);
  }

  lemma NotHttp(s: string)
    requires Read(s).Some? ==> !IsHttp(Read(s).value.scheme)
    ensures Canon(s) == "" && Sanitized(s) == None
  {
    hide Parse, TrimSpace, WithScheme, Print, TrimSlashes;
  }
}
