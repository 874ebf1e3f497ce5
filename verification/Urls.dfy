/** Peer URLs: the scheme/authority/path grammar of RFC 3986 section 3 as Go 1.26's net/url reads it,
    and the three normalisations libetcd applies to a peer URL. */
module Urls {
  import opened Text

  /** url.URL. `host` is Go's Host field, the port included; userinfo, path, query and fragment are raw text. */
  datatype Url = Url(scheme: string, user: Option<string>, host: string, path: string, query: Option<string>, frag: string)

  predicate IsDigit(c: char) { '0' <= c <= '9' }

  predicate IsAlpha(c: char) { 'a' <= c <= 'z' || 'A' <= c <= 'Z' }

  predicate IsRegChar(c: char) {
    IsAlpha(c) || IsDigit(c) || c == '-' || c == '.' || c == '_' || c == '~' || IsSubDelim(c)
  }

  predicate IsSubDelim(c: char) {
    c == '!' || c == '$' || '&' <= c <= ',' || c == ';' || c == '='
  }

  predicate IsUserChar(c: char) {
    IsRegChar(c) || c == ':' || c == '@'
  }

  predicate IsSchemeChar(c: char) {
    IsAlpha(c) || IsDigit(c) || c == '+' || c == '-' || c == '.'
  }

  predicate ValidScheme(s: string) {
    s != "" && IsAlpha(s[0]) && forall c :: c in s ==> IsSchemeChar(c)
  }

  predicate IsV6Char(c: char) {
    IsDigit(c) || 'a' <= c <= 'f' || 'A' <= c <= 'F' || c == ':' || c == '.'
  }

  /** The text between the brackets of an IP literal: hexadecimal groups, colons, dots, at least one colon. */
  predicate IsV6(s: string) {
    ':' in s && forall c :: c in s ==> IsV6Char(c)
  }

  predicate AllDigits(s: string) {
    forall c :: c in s ==> IsDigit(c)
  }

  /** validOptionalPort: nothing, or a colon and any number of digits. */
  predicate OptionalPort(s: string) {
    s == "" || (s[0] == ':' && AllDigits(s[1..]))
  }

  /** Where the host name ends and the optional port begins. */
  function NameEnd(host: string): (i: nat)
    ensures i <= |host|
  {
    if host != "" && host[0] == '[' then
      var close := Index(host, ']');
      if close < |host| then close + 1 else close
    else Index(host, ':')
  }

  predicate ValidHost(host: string) {
    var end := NameEnd(host);
    && OptionalPort(host[end..])
    && if host != "" && host[0] == '[' then end >= 2 && host[end - 1] == ']' && IsV6(host[1..end - 1])
       else forall c :: c in host[..end] ==> IsRegChar(c)
  }

  /** URL.Hostname: the name without port and brackets. */
  function Hostname(host: string): string {
    var end := NameEnd(host);
    if end >= 2 && host[0] == '[' then host[1..end - 1] else host[..end]
  }

  /** URL.Port: the digits, empty when there is none. */
  function Port(host: string): string {
    var rest := host[NameEnd(host)..];
    if rest == "" then "" else rest[1..]
  }

  /** net.JoinHostPort. */
  function JoinHostPort(name: string, port: string): string {
    if ':' in name then "[" + name + "]:" + port else name + ":" + port
  }

  /** A parsed URL: what Parse returns, and what Print can write so that Parse reads it back. */
  predicate WellFormed(u: Url) {
    && SchemeOk(u.scheme) && UserOk(u.user) && ValidHost(u.host) && PathOk(u.path) && TailOk(u.query, u.frag)
    && (u.scheme == "" && u.user.None? && u.host == "" ==> u.path == "")
  }

  predicate SchemeOk(scheme: string) {
    scheme == "" || (ValidScheme(scheme) && Lower(scheme) == scheme)
  }

  predicate UserOk(user: Option<string>) {
    user.Some? ==> forall c :: c in user.value ==> IsUserChar(c)
  }

  predicate PathOk(path: string) {
    (path == "" || path[0] == '/') && Lacks(path, '?') && Lacks(path, '#') && NoSpace(path)
  }

  predicate TailOk(query: Option<string>, frag: string) {
    (query.Some? ==> Lacks(query.value, '#') && NoSpace(query.value)) && NoSpace(frag)
  }

  predicate NoSpace(s: string) {
    forall c :: c in s ==> !IsSpace(c)
  }

  /** URL.String. */
  function Print(u: Url): string {
    if u.frag == "" then PrintBody(u) else PrintBody(u) + ['#'] + u.frag
  }

  function PrintBody(u: Url): string {
    if u.scheme == "" then PrintRest(u) else u.scheme + [':'] + PrintRest(u)
  }

  function PrintRest(u: Url): string {
    var hier := "//" + PrintAuthority(u.user, u.host) + u.path;
    if u.query.Some? then hier + ['?'] + u.query.value else hier
  }

  function PrintAuthority(user: Option<string>, host: string): string {
    (if user.Some? then user.value + "@" else "") + host
  }

  /** How an absolute URL is written. */
  lemma PrintText(u: Url)
    requires u.scheme != ""
    ensures Print(u) == u.scheme + "://" + (if u.user.Some? then u.user.value + "@" else "") + u.host + u.path
                        + (if u.query.Some? then "?" + u.query.value else "") + (if u.frag != "" then "#" + u.frag else "")
  {
    var rest := (if u.user.Some? then u.user.value + "@" else "") + u.host + u.path
                + (if u.query.Some? then "?" + u.query.value else "");
    assert PrintRest(u) == "//" + rest by { PrintRestText(u); }
    hide PrintRest;
    assert u.scheme + [':'] + ("//" + rest) == u.scheme + "://" + rest;
  }

  lemma PrintRestText(u: Url)
    ensures PrintRest(u) == "//" + ((if u.user.Some? then u.user.value + "@" else "") + u.host + u.path
                                    + (if u.query.Some? then "?" + u.query.value else ""))
  {
  }

  /** url.Parse, for strings in the grammar. None also stands for a URL without an authority: every caller
      rejects those as it rejects an error. */
  function Parse(s: string): Option<Url> {
    var h := Index(s, '#');
    if !NoSpace(s) then None else ParseBody(s[..h], if h < |s| then s[h + 1..] else "")
  }

  function ParseBody(body: string, frag: string): Option<Url> {
    var c := Index(body, ':');
    if c < |body| && ValidScheme(body[..c]) then ParseRest(Lower(body[..c]), body[c + 1..], frag)
    else if "///" <= body then None
    else ParseRest("", body, frag)
  }

  function ParseRest(scheme: string, rest: string, frag: string): Option<Url> {
    var q := Index(rest, '?');
    ParseHier(scheme, rest[..q], if q < |rest| then Some(rest[q + 1..]) else None, frag)
  }

  function ParseHier(scheme: string, hier: string, query: Option<string>, frag: string): Option<Url> {
    if !("//" <= hier) then None
    else
      var a := 2 + Index(hier[2..], '/');
      match ParseAuthority(hier[2..a])
      case None => None
      case Some((user, host)) => Some(Url(scheme, user, host, hier[a..], query, frag))
  }

  function ParseAuthority(s: string): Option<(Option<string>, string)> {
    var at := AfterLast(s, '@');
    var user := if at == 0 then None else Some(s[..at - 1]);
    if !ValidHost(s[at..]) || !UserOk(user) then None
    else Some((user, s[at..]))
  }

  predicate IsHostChar(c: char) {
    IsRegChar(c) || c == '[' || c == ']' || c == ':'
  }

  lemma HostChars(host: string)
    requires ValidHost(host)
    ensures forall c :: c in host ==> IsHostChar(c)
  {
    var end := NameEnd(host);
    assert host == host[..end] + host[end..];
    if host[end..] != "" {
      assert host[end..] == [host[end..][0]] + host[end..][1..];
    }
    if host != "" && host[0] == '[' {
      assert host[..end] == "[" + host[1..end - 1] + "]";
    }
  }

  predicate IsDelimiter(c: char) {
    c == '/' || c == '?' || c == '#' || IsSpace(c)
  }

  predicate NoDelimiter(s: string) {
    forall c :: c in s ==> !IsDelimiter(c)
  }

  lemma HostDelimiters(host: string)
    requires ValidHost(host)
    ensures NoDelimiter(host) && Lacks(host, '@')
  {
    HostChars(host);
  }

  lemma AuthorityDelimiters(user: Option<string>, host: string)
    requires ValidHost(host)
    requires UserOk(user)
    ensures NoDelimiter(PrintAuthority(user, host))
  {
    HostDelimiters(host);
    if user.Some? { assert NoDelimiter(user.value); }
  }

  lemma AuthorityRoundTrip(user: Option<string>, host: string)
    requires ValidHost(host)
    requires UserOk(user)
    ensures ParseAuthority(PrintAuthority(user, host)) == Some((user, host))
  {
    HostDelimiters(host);
    hide ValidHost, IsUserChar;
    var s := PrintAuthority(user, host);
    var at := AfterLast(s, '@');
    if user.Some? {
      var n := |user.value|;
      assert s[..n] == user.value && s[n] == '@' && s[n + 1..] == host;
      assert at == n + 1;
    } else {
      assert s == host;
      Uncut(host, '@');
    }
  }

  lemma ParseAuthorityWellFormed(s: string)
    requires ParseAuthority(s).Some?
    ensures var (user, host) := ParseAuthority(s).value;
      ValidHost(host) && UserOk(user)
  {
  }

  lemma RestDelimiters(u: Url)
    requires WellFormed(u)
    ensures NoSpace(PrintRest(u)) && Lacks(PrintRest(u), '#')
  {
    AuthorityDelimiters(u.user, u.host);
    hide ValidHost, IsUserChar, PrintAuthority, ValidScheme;
    var auth := PrintAuthority(u.user, u.host);
    assert NoSpace(auth) && Lacks(auth, '#');
    hide IsSpace, IsDelimiter;
    assert !IsSpace('/') && !IsSpace('?') by { SpaceFacts(); }
  }

  lemma SpaceFacts()
    ensures !IsSpace('/') && !IsSpace('?') && !IsSpace('#') && !IsSpace(':')
  {
  }

  lemma CutPath(auth: string, path: string)
    requires Lacks(auth, '/')
    requires path == "" || path[0] == '/'
    ensures var hier := "//" + auth + path;
      Index(hier[2..], '/') == |auth| && hier[2..2 + |auth|] == auth && hier[2 + |auth|..] == path
  {
    var hier := "//" + auth + path;
    assert hier[2..] == auth + path;
    if path == "" {
      assert auth + path == auth;
      Uncut(auth, '/');
    } else {
      assert auth + path == auth + ['/'] + path[1..];
      Cut(auth, '/', path[1..]);
    }
  }

  lemma CutQuery(hier: string, query: Option<string>)
    requires Lacks(hier, '?')
    ensures var rest := if query.Some? then hier + ['?'] + query.value else hier;
      var q := Index(rest, '?');
      rest[..q] == hier && query == if q < |rest| then Some(rest[q + 1..]) else None
  {
    if query.Some? { Cut(hier, '?', query.value); } else { Uncut(hier, '?'); }
  }

  lemma CutHier(u: Url, auth: string)
    requires Lacks(auth, '/') && (u.path == "" || u.path[0] == '/')
    requires ParseAuthority(auth) == Some((u.user, u.host))
    ensures ParseHier(u.scheme, "//" + auth + u.path, u.query, u.frag) == Some(u)
  {
    CutPath(auth, u.path);
    hide ParseAuthority, Index;
    assert "//" <= "//" + auth + u.path;
  }

  lemma HierRoundTrip(u: Url)
    requires WellFormed(u)
    ensures ParseHier(u.scheme, "//" + PrintAuthority(u.user, u.host) + u.path, u.query, u.frag) == Some(u)
  {
    var auth := PrintAuthority(u.user, u.host);
    AuthorityRoundTrip(u.user, u.host);
    assert Lacks(auth, '/') by { AuthorityDelimiters(u.user, u.host); }
    CutHier(u, auth);
  }

  lemma RestRoundTrip(u: Url)
    requires WellFormed(u)
    ensures ParseRest(u.scheme, PrintRest(u), u.frag) == Some(u)
  {
    var hier := "//" + PrintAuthority(u.user, u.host) + u.path;
    assert Lacks(hier, '?') by { AuthorityDelimiters(u.user, u.host); }
    CutQuery(hier, u.query);
    HierRoundTrip(u);
    hide ParseHier, Index, PrintAuthority, WellFormed;
  }

  lemma BodyRoundTrip(u: Url)
    requires WellFormed(u)
    ensures ParseBody(PrintBody(u), u.frag) == Some(u)
  {
    RestRoundTrip(u);
    if u.scheme == "" { SchemelessBody(u); } else { SchemeChars(u.scheme); Cut(u.scheme, ':', PrintRest(u)); }
    hide ValidHost, IsUserChar, ParseRest, PrintAuthority, PrintRest, NoSpace, Index;
  }

  lemma BodyClean(u: Url)
    requires WellFormed(u)
    ensures NoSpace(PrintBody(u)) && Lacks(PrintBody(u), '#')
  {
    RestDelimiters(u);
    if u.scheme != "" { SchemeChars(u.scheme); }
    SpaceFacts();
    hide PrintRest, ValidScheme, IsSpace, WellFormed;
  }

  lemma PrintNoSpace(u: Url)
    requires WellFormed(u)
    ensures NoSpace(Print(u))
  {
    BodyClean(u);
    SpaceFacts();
    hide PrintBody, IsSpace, SchemeOk, UserOk, ValidHost, PathOk;
  }

  lemma CutFragment(body: string, frag: string)
    requires Lacks(body, '#')
    ensures var s := if frag == "" then body else body + ['#'] + frag;
      var h := Index(s, '#');
      s[..h] == body && frag == if h < |s| then s[h + 1..] else ""
  {
    if frag == "" { Uncut(body, '#'); } else { Cut(body, '#', frag); }
    hide Lacks;
  }

  /** Reading back what String wrote gives the same URL. */
  lemma PrintParse(u: Url)
    requires WellFormed(u)
    ensures Parse(Print(u)) == Some(u)
  {
    PrintNoSpace(u);
    BodyClean(u);
    BodyRoundTrip(u);
    CutFragment(PrintBody(u), u.frag);
    hide Lacks, NoSpace, PrintBody, ParseBody, WellFormed, Index;
  }

  lemma SchemeChars(s: string)
    requires ValidScheme(s)
    ensures NoSpace(s) && Lacks(s, ':') && Lacks(s, '#')
  {
  }

  lemma SchemelessBody(u: Url)
    requires WellFormed(u) && u.scheme == ""
    ensures var rest := PrintRest(u); !("///" <= rest) && !ValidScheme(rest[..Index(rest, ':')])
  {
    var rest := PrintRest(u);
    var auth := PrintAuthority(u.user, u.host);
    AuthorityDelimiters(u.user, u.host);
    assert auth == "" || (rest[2] == auth[0] && auth[0] in auth);
    assert "///"[2] == '/';
    var scheme := rest[..Index(rest, ':')];
    assert scheme == "" || scheme[0] == rest[0] == '/';
  }

  lemma NoSpaceSides(s: string, i: nat)
    requires i <= |s| && NoSpace(s)
    ensures NoSpace(s[..i]) && NoSpace(s[i..])
  {
  }

  lemma NoSpaceEmpty()
    ensures NoSpace("")
  {
  }

  lemma HierWellFormed(scheme: string, hier: string, query: Option<string>, frag: string)
    requires ParseHier(scheme, hier, query, frag).Some?
    requires SchemeOk(scheme) && TailOk(query, frag)
    requires Lacks(hier, '?') && Lacks(hier, '#') && NoSpace(hier)
    requires scheme == "" ==> !("///" <= hier)
    ensures WellFormed(ParseHier(scheme, hier, query, frag).value)
  {
    hide Lacks, NoSpace, ValidHost, UserOk, SchemeOk, TailOk, ParseAuthority, Index;
    var i := Index(hier[2..], '/');
    var a := 2 + i;
    ParseAuthorityWellFormed(hier[2..a]);
    var u := ParseHier(scheme, hier, query, frag).value;
    assert PathOk(u.path) by {
      LacksSides(hier, '?', a);
      LacksSides(hier, '#', a);
      NoSpaceSides(hier, a);
      assert a == |hier| || hier[a] == hier[2..][i];
    }
    if scheme == "" && u.user.None? && u.host == "" {
      EmptyAuthority(hier[2..a]);
      assert a == 2;
    }
  }

  lemma EmptyAuthority(s: string)
    requires ParseAuthority(s) == Some((None, ""))
    ensures s == ""
  {
  }

  lemma RestWellFormed(scheme: string, rest: string, frag: string)
    requires ParseRest(scheme, rest, frag).Some?
    requires SchemeOk(scheme) && NoSpace(frag)
    requires Lacks(rest, '#') && NoSpace(rest)
    requires scheme == "" ==> !("///" <= rest)
    ensures WellFormed(ParseRest(scheme, rest, frag).value)
  {
    hide Lacks, NoSpace, SchemeOk, ParseHier, WellFormed, Index;
    var q := Index(rest, '?');
    var hier := rest[..q];
    LacksSides(rest, '#', q);
    NoSpaceSides(rest, q);
    if q < |rest| {
      LacksSides(rest, '#', q + 1);
      NoSpaceSides(rest, q + 1);
    }
    assert "///" <= hier ==> "///" <= rest;
    HierWellFormed(scheme, hier, if q < |rest| then Some(rest[q + 1..]) else None, frag);
  }

  lemma ParseWellFormed(s: string)
    requires Parse(s).Some?
    ensures WellFormed(Parse(s).value)
  {
    hide Lacks, NoSpace, ValidScheme, ParseRest, WellFormed, Index, Lower;
    var h := Index(s, '#');
    var body := s[..h];
    var frag := if h < |s| then s[h + 1..] else "";
    NoSpaceSides(s, h);
    if h < |s| { NoSpaceSides(s, h + 1); }
    assert NoSpace(frag) by { NoSpaceEmpty(); }
    var c := Index(body, ':');
    if c < |body| && ValidScheme(body[..c]) {
      LacksSides(body, '#', c + 1);
      NoSpaceSides(body, c + 1);
      LowerScheme(body[..c]);
      RestWellFormed(Lower(body[..c]), body[c + 1..], frag);
    } else {
      RestWellFormed("", body, frag);
    }
  }

  lemma LowerScheme(s: string)
    requires ValidScheme(s)
    ensures ValidScheme(Lower(s)) && Lower(Lower(s)) == Lower(s)
  {
    var low := Lower(s);
    forall c | c in low ensures IsSchemeChar(c) {
      var i :| 0 <= i < |low| && low[i] == c;
      assert s[i] in s;
    }
  }
}
