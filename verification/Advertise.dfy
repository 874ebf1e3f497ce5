/** The advertised peer URLs (v0alpha0/util.go parseAdvertiseURLs), and what the spelling of a peer list
    means to the election: nothing. */
module Advertise {
  import opened Text
  import opened Urls
  import opened Canonical
  import opened Election
  import JoinServer

  function Printed(urls: seq<Url>): (p: seq<string>)
    ensures |p| == |urls|
  {
    seq(|urls|, i requires 0 <= i < |urls| => Print(urls[i]))
  }

  predicate Increasing(s: seq<string>) {
    forall i, j :: 0 <= i < j < |s| ==> Less(s[i], s[j])
  }

  predicate From(u: Url, entries: seq<string>) {
    exists s :: s in entries && Advertised(s) == Some(u)
  }

  /** Exactly the usable entries, each once, in the order of their strings. */
  ghost predicate IsAdvertised(entries: seq<string>, out: seq<Url>) {
    && Increasing(Printed(out))
    && (forall u :: u in out ==> From(u, entries))
    && forall s :: s in entries && Advertised(s).Some? ==> Print(Advertised(s).value) in Printed(out)
  }

  method ParseAdvertiseURLs(entries: seq<string>) returns (out: seq<Url>)
    ensures IsAdvertised(entries, out)
  {
    hide Advertised, Print, Less;
    var urls: seq<Url> := [];
    var seen: set<string> := {};
    for i := 0 to |entries|
      invariant forall x :: x in seen <==> x in Printed(urls)
      invariant forall u :: u in urls ==> From(u, entries[..i])
      invariant forall j, k :: 0 <= j < k < |urls| ==> Print(urls[j]) != Print(urls[k])
      invariant forall j :: 0 <= j < i && Advertised(entries[j]).Some? ==> Print(Advertised(entries[j]).value) in seen
    {
      FromMore(urls, entries, i);
      var u := Advertised(entries[i]);
      if u.None? { continue; }
      if Print(u.value) in seen { continue; }
      forall j | 0 <= j < |urls| ensures Print(urls[j]) != Print(u.value) {
        assert Printed(urls)[j] in Printed(urls);
      }
      seen := seen + {Print(u.value)};
      PrintedSnoc(urls, u.value);
      urls := urls + [u.value];
      assert From(u.value, entries[..i + 1]) by { assert entries[..i + 1][i] == entries[i]; }
    }
    assert entries[..|entries|] == entries;
    out := SortByString(urls);
    assert forall u :: u in out ==> u in multiset(out);
    forall s | s in entries && Advertised(s).Some? ensures Print(Advertised(s).value) in Printed(out) {
      var j :| 0 <= j < |urls| && Printed(urls)[j] == Print(Advertised(s).value);
      assert urls[j] in multiset(out);
      var k :| 0 <= k < |out| && out[k] == urls[j];
      assert Printed(out)[k] == Print(urls[j]);
    }
  }

  lemma FromMore(urls: seq<Url>, entries: seq<string>, i: nat)
    requires i < |entries| && forall u :: u in urls ==> From(u, entries[..i])
    ensures forall u :: u in urls ==> From(u, entries[..i + 1])
  {
    hide Advertised;
    assert entries[..i + 1] == entries[..i] + [entries[i]];
    forall u | u in urls ensures From(u, entries[..i + 1]) {
      var s :| s in entries[..i] && Advertised(s) == Some(u);
      assert s in entries[..i + 1];
    }
  }

  lemma PrintedSnoc(urls: seq<Url>, u: Url)
    ensures Printed(urls + [u]) == Printed(urls) + [Print(u)]
  {
    hide Print;
  }

  method SortByString(urls: seq<Url>) returns (out: seq<Url>)
    requires forall j, k :: 0 <= j < k < |urls| ==> Print(urls[j]) != Print(urls[k])
    ensures Increasing(Printed(out)) && multiset(out) == multiset(urls)
  {
    hide Print, Less;
    out := [];
    for i := 0 to |urls|
      invariant Increasing(Printed(out)) && multiset(out) == multiset(urls[..i])
    {
      forall x | x in out ensures Print(x) != Print(urls[i]) {
        assert x in multiset(out);
        assert x in urls[..i];
      }
      out := Insert(out, urls[i]);
      assert urls[..i + 1] == urls[..i] + [urls[i]];
    }
    assert urls[..|urls|] == urls;
  }

  method Insert(urls: seq<Url>, u: Url) returns (out: seq<Url>)
    requires Increasing(Printed(urls)) && forall x :: x in urls ==> Print(x) != Print(u)
    ensures Increasing(Printed(out)) && multiset(out) == multiset(urls) + multiset{u}
  {
    hide Print, Less;
    var k := 0;
    while k < |urls| && Less(Print(urls[k]), Print(u))
      invariant 0 <= k <= |urls|
      invariant forall j :: 0 <= j < k ==> Less(Print(urls[j]), Print(u))
    {
      k := k + 1;
    }
    forall j | k <= j < |urls| ensures Less(Print(u), Print(urls[j])) {
      LessTotal(Print(u), Print(urls[k]));
      assert Less(Print(u), Print(urls[k]));
      if k < j {
        assert Less(Printed(urls)[k], Printed(urls)[j]);
        LessTransitive(Print(u), Print(urls[k]), Print(urls[j]));
      }
    }
    out := urls[..k] + [u] + urls[k..];
    assert urls == urls[..k] + urls[k..];
    InsertedIncreasing(Printed(urls), Print(u), k);
    assert Printed(out) == Printed(urls)[..k] + [Print(u)] + Printed(urls)[k..];
  }

  lemma InsertedIncreasing(s: seq<string>, x: string, k: nat)
    requires k <= |s| && Increasing(s)
    requires forall j :: 0 <= j < k ==> Less(s[j], x)
    requires forall j :: k <= j < |s| ==> Less(x, s[j])
    ensures Increasing(s[..k] + [x] + s[k..])
  {
    hide Less;
  }

  /** Increasing lists with the same elements are the same list: the advertised URLs do not depend on the
      order of the arguments, nor on repetitions. */
  lemma {:induction false} IncreasingUnique(a: seq<string>, b: seq<string>)
    requires Increasing(a) && Increasing(b) && forall x :: x in a <==> x in b
    ensures a == b
  {
    assert |a| > 0 ==> a[0] in a;
    assert |b| > 0 ==> b[0] in b;
    if a == [] {
      assert b == [];
    } else {
      HeadLeast(a, b[0]);
      HeadLeast(b, a[0]);
      LessTotal(a[0], b[0]);
      TailElements(a);
      TailElements(b);
      IncreasingUnique(a[1..], b[1..]);
      assert a == [a[0]] + a[1..] && b == [b[0]] + b[1..];
    }
  }

  lemma HeadLeast(a: seq<string>, x: string)
    requires Increasing(a) && x in a
    ensures AtMost(a[0], x)
  {
    var i :| 0 <= i < |a| && a[i] == x;
    assert i == 0 || Less(a[0], a[i]);
  }

  lemma TailElements(a: seq<string>)
    requires a != [] && Increasing(a)
    ensures forall x :: x in a[1..] <==> x in a && x != a[0]
  {
    forall i | 0 < i < |a| ensures a[i] != a[0] {
      assert Less(a[0], a[i]);
      LessTotal(a[0], a[i]);
    }
    assert forall i :: 0 < i < |a| ==> a[1..][i - 1] == a[i];
  }

  lemma OrderDoesNotMatter(a: seq<string>, b: seq<string>, x: seq<Url>, y: seq<Url>)
    requires (forall s :: s in a <==> s in b) && IsAdvertised(a, x) && IsAdvertised(b, y)
    ensures Printed(x) == Printed(y)
  {
    hide Print, Advertised, Less;
    PrintedWithin(a, b, x, y);
    PrintedWithin(b, a, y, x);
    IncreasingUnique(Printed(x), Printed(y));
  }

  lemma PrintedWithin(a: seq<string>, b: seq<string>, x: seq<Url>, y: seq<Url>)
    requires (forall s :: s in a ==> s in b) && IsAdvertised(a, x) && IsAdvertised(b, y)
    ensures forall p :: p in Printed(x) ==> p in Printed(y)
  {
    hide Print, Advertised, Less;
    forall p | p in Printed(x) ensures p in Printed(y) {
      var i :| 0 <= i < |x| && Printed(x)[i] == p;
      assert From(x[i], a);
    }
  }

  // ---- spelling ----

  /** An absolute http(s) URL, which is what a peer URL is. */
  predicate IsHttpUrl(s: string) {
    Parse(s).Some? && IsHttp(Parse(s).value.scheme)
  }

  /** What a node advertises has the canonical forms of what it was told to advertise. */
  lemma AdvertisedCanons(entries: seq<string>, out: seq<Url>)
    requires IsAdvertised(entries, out) && forall s :: s in entries ==> IsHttpUrl(s)
    ensures Canons(Printed(out)) == Canons(entries)
  {
    forall s | s in entries
      ensures match Advertised(s) case Some(u) => Canon(Print(u)) == Canon(s) case None => Canon(s) == ""
    {
      AdvertiseKeepsCanon(s);
    }
    hide Advertised, Print, Less, Canon, IsHttpUrl;
    forall k | k in Canons(entries) ensures k in Canons(Printed(out)) {
      var s :| s in entries && Canon(s) != "" && Canon(s) == k;
      assert Print(Advertised(s).value) in Printed(out);
    }
    forall k | k in Canons(Printed(out)) ensures k in Canons(entries) {
      var p :| p in Printed(out) && Canon(p) != "" && Canon(p) == k;
      var i :| 0 <= i < |out| && Printed(out)[i] == p;
      assert From(out[i], entries);
      var s :| s in entries && Advertised(s) == Some(out[i]);
    }
  }

  /** Two spellings of one list: every entry of either is an entry of the other but for case, an implicit
      default port and whatever else is not scheme, host and port; in any order and number. */
  ghost predicate Respelled(a: seq<string>, b: seq<string>) {
    && (forall s :: s in a ==> exists t :: t in b && OneSpelling(s, t))
    && (forall t :: t in b ==> exists s :: s in a && OneSpelling(t, s))
  }

  lemma RespelledWithin(a: seq<string>, b: seq<string>)
    requires forall s :: s in a ==> exists t :: t in b && OneSpelling(s, t)
    ensures Forms(a) <= Forms(b)
  {
    hide Canon, OneSpelling;
    forall k | k in Forms(a) ensures k in Forms(b) {
      var s :| s in a && Canon(s) == k;
      var t :| t in b && OneSpelling(s, t);
      OneSpellingIff(s, t);
    }
  }

  /** Spelling invariance: reordering, duplicating and respelling the peer list, sanitising it or not, and
      advertising through parseAdvertiseURLs, leave every node's election role as it was. */
  lemma SpellingInvariance(peers: seq<string>, other: seq<string>, clean: seq<string>, self: seq<string>, advertised: seq<Url>)
    requires Respelled(peers, other)
    requires Sanitises(other, clean)
    requires IsAdvertised(self, advertised) && forall s :: s in self ==> IsHttpUrl(s)
    ensures Active(peers, self) == Active(other, Printed(advertised)) == Active(clean, Printed(advertised))
    ensures Bootstraps(peers, self) == Bootstraps(other, Printed(advertised)) == Bootstraps(clean, Printed(advertised))
  {
    assert Canons(peers) == Canons(other) == Canons(clean) && Canons(self) == Canons(Printed(advertised)) by {
      AdvertisedCanons(self, advertised);
      CanonsOfForms(peers);
      CanonsOfForms(other);
      RespelledWithin(peers, other);
      RespelledWithin(other, peers);
      SanitizedCanons(other, clean);
      hide Canon, Canons, Forms, OneSpelling, Sanitises, Advertised, Print, IsHttpUrl, IsAdvertised;
    }
    hide *;
    RoleOfCanons(peers, other, self, Printed(advertised));
    RoleOfCanons(other, clean, Printed(advertised), Printed(advertised));
  }

  // ---- what a joiner sends ----

  /** A joiner sends its advertised URLs as they print; the member that looks them up trims them, and finds
      nothing to trim. */
  lemma SentAsWanted(entries: seq<string>, out: seq<Url>)
    requires IsAdvertised(entries, out)
    ensures JoinServer.Trimmed(Printed(out)) == Printed(out)
  {
    forall p | p in Printed(out) && p != "" ensures !IsSpace(p[0]) && !IsSpace(p[|p| - 1]) {
      var i :| 0 <= i < |out| && Printed(out)[i] == p;
      AdvertisedWellFormed(entries, out[i]);
      PrintNoSpace(out[i]);
      assert NoSpace(p) && p[0] in p && p[|p| - 1] in p;
    }
    hide Print, IsSpace;
    JoinServer.TrimmedClean(Printed(out));
  }

  lemma AdvertisedWellFormed(entries: seq<string>, u: Url)
    requires From(u, entries)
    ensures WellFormed(u)
  {
    hide Advertised;
    var s :| s in entries && Advertised(s) == Some(u);
    FilledWellFormed(s);
  }

  lemma FilledWellFormed(s: string)
    requires Advertised(s).Some?
    ensures WellFormed(Advertised(s).value)
  {
    ParseWellFormed(s);
    var v := Parse(s).value;
    FilledHost(v.host, v.scheme);
    EmptyTail();
    hide Parse, ValidHost, Hostname, Port, JoinHostPort, SchemeOk, UserOk, PathOk, TailOk, DefaultPort;
  }

  lemma FilledHost(host: string, scheme: string)
    requires ValidHost(host)
    ensures ValidHost(JoinHostPort(Hostname(host), DefaultPort(scheme)))
  {
    HostParts(host);
    assert AllDigits(DefaultPort(scheme));
    hide ValidHost, Hostname, IsName, JoinHostPort, AllDigits, DefaultPort;
    JoinParts(Hostname(host), DefaultPort(scheme));
  }
}
