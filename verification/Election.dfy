/** The uniform-config election (v0alpha0/peer.go): every node, given the same peer list, decides alone
    whether it bootstraps the cluster or dials the node that does. */
module Election {
  import opened Text
  import opened Urls
  import opened Canonical

  /** The canonical forms of a list, entries without one left out. */
  function Canons(urls: seq<string>): set<string> {
    set u | u in urls && Canon(u) != "" :: Canon(u)
  }

  predicate IsLeast(m: string, keys: set<string>) {
    m in keys && forall k :: k in keys ==> AtMost(m, k)
  }

  lemma LeastUnique(m: string, n: string, keys: set<string>)
    requires IsLeast(m, keys) && IsLeast(n, keys)
    ensures m == n
  {
    LessTotal(m, n);
  }

  lemma LeastExists(keys: set<string>) returns (m: string)
    requires keys != {}
    ensures IsLeast(m, keys)
  {
    var k :| k in keys;
    if keys == {k} {
      m := k;
    } else {
      var rest := keys - {k};
      var n := LeastExists(rest);
      LessTotal(k, n);
      m := if Less(k, n) then k else n;
      forall x | x in keys ensures AtMost(m, x) {
        if x != k {
          assert x in rest;
          if Less(k, n) && Less(n, x) { LessTransitive(k, n, x); }
        }
      }
    }
  }

  // ---- the two decisions of a node ----

  /** The node's own URL is one of the peers: the list is self-inclusive. */
  predicate Active(peers: seq<string>, selfURLs: seq<string>) {
    Canons(peers) * Canons(selfURLs) != {}
  }

  ghost predicate OwnsLeast(self: set<string>, keys: set<string>) {
    exists m :: IsLeast(m, keys) && m in self
  }

  /** The least canonical form of the list is the node's own. */
  ghost predicate Bootstraps(peers: seq<string>, selfURLs: seq<string>) {
    OwnsLeast(Canons(selfURLs), Canons(peers))
  }

  method CanonSet(urls: seq<string>) returns (keys: set<string>)
    ensures keys == Canons(urls)
  {
    hide Canon;
    keys := {};
    for i := 0 to |urls|
      invariant keys == Canons(urls[..i])
    {
      var c := Canon(urls[i]);
      assert urls[..i + 1] == urls[..i] + [urls[i]];
      if c != "" { keys := keys + {c}; }
    }
    assert urls[..|urls|] == urls;
  }

  method BootstrapRole(peers: seq<string>, selfURLs: seq<string>) returns (bootstrap: bool, active: bool)
    ensures active <==> Active(peers, selfURLs)
    ensures bootstrap <==> Bootstraps(peers, selfURLs)
  {
    hide Canon, Less;
    var self := CanonSet(selfURLs);
    if self == {} { return false, false; }
    var min, inSet := "", false;
    for i := 0 to |peers|
      invariant inSet <==> Canons(peers[..i]) * self != {}
      invariant if min == "" then Canons(peers[..i]) == {} else IsLeast(min, Canons(peers[..i]))
    {
      var c := Canon(peers[i]);
      ghost var before := Canons(peers[..i]);
      assert peers[..i + 1] == peers[..i] + [peers[i]];
      assert Canons(peers[..i + 1]) == before + (if c == "" then {} else {c});
      if c == "" { continue; }
      if c in self {
        inSet := true;
        assert c in Canons(peers[..i + 1]) * self;
      }
      if min == "" || Less(c, min) {
        forall k | k in before ensures AtMost(c, k) {
          if Less(min, k) { LessTransitive(c, min, k); }
        }
        min := c;
      } else {
        LessTotal(min, c);
      }
    }
    assert peers[..|peers|] == peers;
    if min != "" {
      forall n | IsLeast(n, Canons(peers)) ensures n == min { LeastUnique(n, min, Canons(peers)); }
    }
    assert Bootstraps(peers, selfURLs) <==> min != "" && min in self;
    assert min != "" && min in self ==> min in Canons(peers) * self;
    if !inSet { return false, false; }
    bootstrap, active := min in self, true;
  }

  /** The entries whose canonical form is not the node's own, in order. */
  function Others(peers: seq<string>, self: set<string>): (out: seq<string>)
    ensures forall p :: p in out <==> p in peers && Canon(p) !in self
  {
    if peers == [] then [] else
    Others(peers[..|peers| - 1], self) + (if Canon(peers[|peers| - 1]) in self then [] else [peers[|peers| - 1]])
  }

  /** out holds the entries at the given positions, an increasing list of every one whose canonical form is
      not the node's own. */
  predicate KeptAt(peers: seq<string>, self: set<string>, out: seq<string>, at: seq<nat>) {
    && |at| == |out|
    && (forall i :: 0 <= i < |at| ==> at[i] < |peers| && out[i] == peers[at[i]])
    && (forall i, j :: 0 <= i < j < |at| ==> at[i] < at[j])
    && (forall k :: 0 <= k < |peers| ==> (k in at <==> Canon(peers[k]) !in self))
  }

  /** Which entries are kept, and in which order. */
  lemma {:induction false} OthersInOrder(peers: seq<string>, self: set<string>) returns (at: seq<nat>)
    ensures KeptAt(peers, self, Others(peers, self), at)
  {
    hide Canon, KeptAt;
    if peers == [] {
      at := [];
      KeptNone(peers, self);
    } else {
      var front, p := peers[..|peers| - 1], peers[|peers| - 1];
      at := OthersInOrder(front, self);
      assert front + [p] == peers;
      if Canon(p) in self {
        DroppedNext(front, p, self, Others(front, self), at);
        assert Others(peers, self) == Others(front, self);
      } else {
        KeptNext(front, p, self, Others(front, self), at);
        at := at + [|front|];
      }
    }
  }

  lemma KeptNone(peers: seq<string>, self: set<string>)
    requires peers == []
    ensures KeptAt(peers, self, [], [])
  {
  }

  lemma DroppedNext(front: seq<string>, p: string, self: set<string>, out: seq<string>, at: seq<nat>)
    requires KeptAt(front, self, out, at) && Canon(p) in self
    ensures KeptAt(front + [p], self, out, at)
  {
    hide Canon;
  }

  lemma KeptNext(front: seq<string>, p: string, self: set<string>, out: seq<string>, at: seq<nat>)
    requires KeptAt(front, self, out, at) && Canon(p) !in self
    ensures KeptAt(front + [p], self, out + [p], at + [|front|])
  {
    hide Canon;
    var next := at + [|front|];
    assert forall k :: k in next <==> k in at || k == |front|;
  }

  method RemoveSelf(peers: seq<string>, selfURLs: seq<string>) returns (out: seq<string>)
    ensures out == Others(peers, Canons(selfURLs))
  {
    var self := CanonSet(selfURLs);
    out := [];
    for i := 0 to |peers|
      invariant out == Others(peers[..i], self)
    {
      assert peers[..i + 1][..i] == peers[..i];
      if Canon(peers[i]) !in self { out := out + [peers[i]]; }
    }
    assert peers[..|peers|] == peers;
  }

  predicate SortedByCanon(urls: seq<string>) {
    forall i, j :: 0 <= i < j < |urls| ==> AtMost(Canon(urls[i]), Canon(urls[j]))
  }

  /** slices.SortFunc with the comparison joinResolved passes. */
  method SortByCanon(urls: seq<string>) returns (out: seq<string>)
    ensures SortedByCanon(out) && multiset(out) == multiset(urls)
  {
    out := [];
    for i := 0 to |urls|
      invariant SortedByCanon(out) && multiset(out) == multiset(urls[..i])
    {
      out := Insert(out, urls[i]);
      assert urls[..i + 1] == urls[..i] + [urls[i]];
    }
    assert urls[..|urls|] == urls;
  }

  method Insert(urls: seq<string>, x: string) returns (out: seq<string>)
    requires SortedByCanon(urls)
    ensures SortedByCanon(out) && multiset(out) == multiset(urls) + multiset{x}
  {
    hide Canon, Less;
    var k := 0;
    while k < |urls| && AtMost(Canon(urls[k]), Canon(x))
      invariant 0 <= k <= |urls|
      invariant forall j :: 0 <= j < k ==> AtMost(Canon(urls[j]), Canon(x))
    {
      k := k + 1;
    }
    forall j | k <= j < |urls| ensures AtMost(Canon(x), Canon(urls[j])) {
      LessTotal(Canon(x), Canon(urls[k]));
      if Less(Canon(x), Canon(urls[k])) && Less(Canon(urls[k]), Canon(urls[j])) {
        LessTransitive(Canon(x), Canon(urls[k]), Canon(urls[j]));
      }
    }
    out := urls[..k] + [x] + urls[k..];
    assert urls == urls[..k] + urls[k..];
  }

  /** The dial set of an active node that does not bootstrap: at most one peer. */
  method DialSet(peers: seq<string>, selfURLs: seq<string>) returns (dial: seq<string>)
    ensures |dial| <= 1 && (dial == [] <==> forall p :: !IsOther(p, peers, selfURLs))
    ensures dial != [] ==> IsDialTarget(dial[0], peers, selfURLs)
  {
    hide Canon, Less, Canons, Others;
    var others := RemoveSelf(peers, selfURLs);
    dial := SortByCanon(others);
    assert |others| == |multiset(others)| == |multiset(dial)| == |dial|;
    assert forall p :: p in others <==> IsOther(p, peers, selfURLs);
    if |dial| > 0 {
      forall p | IsOther(p, peers, selfURLs) ensures AtMost(Canon(dial[0]), Canon(p)) {
        assert p in multiset(dial);
        var j :| 0 <= j < |dial| && dial[j] == p;
      }
      assert dial[0] in multiset(others);
      assert IsOther(dial[0], peers, selfURLs);
      dial := dial[..1];
    }
  }

  /** A peer that is not the node itself, of least canonical form among those; an entry without a
      canonical form sorts first. */
  ghost predicate IsDialTarget(target: string, peers: seq<string>, selfURLs: seq<string>) {
    && IsOther(target, peers, selfURLs)
    && forall p :: IsOther(p, peers, selfURLs) ==> AtMost(Canon(target), Canon(p))
  }

  predicate IsOther(p: string, peers: seq<string>, selfURLs: seq<string>) {
    p in peers && Canon(p) !in Canons(selfURLs)
  }

  // ---- the election ----

  /** Disjoint sets that cover the keys. */
  ghost predicate KeysCover(selves: seq<set<string>>, keys: set<string>) {
    && (forall i, j :: 0 <= i < j < |selves| ==> selves[i] !! selves[j])
    && (forall k :: k in keys ==> exists i :: 0 <= i < |selves| && k in selves[i])
  }

  function Selves(nodes: seq<seq<string>>): seq<set<string>> {
    seq(|nodes|, i requires 0 <= i < |nodes| => Canons(nodes[i]))
  }

  /** No two nodes share a URL, and every URL of the list belongs to a node. */
  ghost predicate Covers(nodes: seq<seq<string>>, peers: seq<string>) {
    KeysCover(Selves(nodes), Canons(peers))
  }

  /** Of disjoint sets covering the keys, exactly one holds the least key. */
  lemma OneOwnsLeast(selves: seq<set<string>>, keys: set<string>) returns (b: nat)
    requires keys != {} && KeysCover(selves, keys)
    ensures b < |selves| && forall i :: 0 <= i < |selves| ==> (OwnsLeast(selves[i], keys) <==> i == b)
  {
    var m := LeastExists(keys);
    b :| 0 <= b < |selves| && m in selves[b];
    forall i | 0 <= i < |selves| ensures OwnsLeast(selves[i], keys) <==> i == b {
      if OwnsLeast(selves[i], keys) {
        var n :| IsLeast(n, keys) && n in selves[i];
        LeastUnique(m, n, keys);
      }
    }
  }

  /** The least of the forms a node does not own is the least key overall exactly when no form is empty,
      given that the node does not own the least key itself. */
  lemma LeastOther(forms: set<string>, own: set<string>, m: string, t: string)
    requires IsLeast(m, forms - {""}) && m !in own && "" !in own && IsLeast(t, forms - own)
    ensures t == m <==> "" !in forms
  {
    LessTotal(m, t);
    assert m in forms - own;
    if "" in forms {
      assert "" in forms - own && AtMost(t, "");
    } else {
      assert t in forms - {""};
    }
  }

  /** Exactly one node bootstraps. */
  lemma OneBootstrapper(nodes: seq<seq<string>>, peers: seq<string>) returns (b: nat)
    requires Canons(peers) != {} && Covers(nodes, peers)
    ensures b < |nodes|
    ensures forall i :: 0 <= i < |nodes| ==> (Bootstraps(peers, nodes[i]) <==> i == b)
  {
    hide Canons;
    b := OneOwnsLeast(Selves(nodes), Canons(peers));
    hide OwnsLeast;
    assert forall i :: 0 <= i < |nodes| ==> Selves(nodes)[i] == Canons(nodes[i]);
  }

  function Forms(urls: seq<string>): set<string> {
    set u | u in urls :: Canon(u)
  }

  lemma CanonsOfForms(urls: seq<string>)
    ensures Canons(urls) == Forms(urls) - {""}
  {
    hide Canon;
  }

  /** Every other node of the list dials the bootstrapper exactly when every entry of the list has a
      canonical form. */
  lemma DialsTheBootstrapper(nodes: seq<seq<string>>, peers: seq<string>, b: nat, i: nat, target: string)
    requires Covers(nodes, peers) && b < |nodes| && i < |nodes|
    requires Bootstraps(peers, nodes[b]) && !Bootstraps(peers, nodes[i])
    requires IsDialTarget(target, peers, nodes[i])
    ensures (IsLeast(Canon(target), Canons(peers)) && Canon(target) in Canons(nodes[b]))
            <==> forall p :: p in peers ==> Canon(p) != ""
  {
    hide Canon, Less;
    var self := Canons(nodes[i]);
    var m :| IsLeast(m, Canons(peers)) && m in Canons(nodes[b]);
    CanonsOfForms(peers);
    assert IsLeast(Canon(target), Forms(peers) - self) by {
      assert Canon(target) in Forms(peers);
    }
    LeastOther(Forms(peers), self, m, Canon(target));
    if IsLeast(Canon(target), Canons(peers)) { LeastUnique(m, Canon(target), Canons(peers)); }
  }

  /** One unparseable entry and a node other than the bootstrapper has nobody to dial: its one dial target
      is dropped when the dial set is sanitised. */
  lemma UnparseableEntryWitness() returns (a: string, b: string, c: string)
    ensures var peers := [a, b, c];
      && Bootstraps(peers, [a]) && Active(peers, [b]) && !Bootstraps(peers, [b])
      && IsDialTarget(c, peers, [b]) && Sanitized(c) == None
  {
    a, b, c := WitnessUrls();
    hide *;
    WitnessRoles(a, b, c);
    WitnessDial(a, b, c);
  }

  lemma WitnessSets(a: string, b: string, c: string)
    requires Canon(a) == a && Canon(b) == b && Canon(c) == "" && a != "" && b != ""
    ensures Canons([a, b, c]) == {a, b} && Canons([a]) == {a} && Canons([b]) == {b}
  {
    hide Canon;
    assert a in [a] && b in [b] && a in [a, b, c] && b in [a, b, c];
  }

  lemma WitnessRoles(a: string, b: string, c: string)
    requires Canon(a) == a && Canon(b) == b && Canon(c) == "" && a != "" && b != "" && Less(a, b)
    ensures Bootstraps([a, b, c], [a]) && Active([a, b, c], [b]) && !Bootstraps([a, b, c], [b])
  {
    WitnessSets(a, b, c);
    hide Canon, Less, Canons, OwnsLeast;
    assert b in Canons([a, b, c]) * Canons([b]);
    LeastOfTwo(a, b);
  }

  lemma LeastOfTwo(a: string, b: string)
    requires Less(a, b)
    ensures OwnsLeast({a}, {a, b}) && !OwnsLeast({b}, {a, b})
  {
    LessTotal(a, b);
    hide Less;
    assert IsLeast(a, {a, b});
    forall n | IsLeast(n, {a, b}) ensures n == a { LeastUnique(n, a, {a, b}); }
  }

  lemma WitnessDial(a: string, b: string, c: string)
    requires Canon(a) == a && Canon(b) == b && Canon(c) == "" && a != "" && b != ""
    ensures IsDialTarget(c, [a, b, c], [b])
  {
    WitnessSets(a, b, c);
    EmptyFirst(a);
    hide Canon, Less, Canons;
    var peers := [a, b, c];
    assert c in peers;
  }

  lemma EmptyFirst(a: string)
    ensures AtMost("", a)
  {
  }

  lemma WitnessUrls() returns (a: string, b: string, c: string)
    ensures a == "http://a:1" && b == "http://b:1" && c == "ftp://c:1"
    ensures Canon(a) == a && Canon(b) == b && Canon(c) == "" && Sanitized(c) == None && Less(a, b)
  {
    hide *;
    a, b, c := "http://a:1", "http://b:1", "ftp://c:1";
    WitnessUrl("a");
    WitnessUrl("b");
    WitnessOrder(a, b);
    FtpScheme();
    OtherScheme("ftp", "c:1");
    assert "http://" + "a" + ":1" == a && "http://" + "b" + ":1" == b && "ftp" + "://" + "c:1" == c;
  }

  lemma WitnessOrder(a: string, b: string)
    requires a == "http://a:1" && b == "http://b:1"
    ensures Less(a, b)
  {
    hide Less;
    assert DecidedAt(a, b, 7);
    LessIff(a, b);
  }

  lemma FtpScheme()
    ensures ValidScheme("ftp") && Lower("ftp") == "ftp"
  {
  }

  lemma WitnessUrl(name: string)
    requires name == "a" || name == "b"
    ensures Canon("http://" + name + ":1") == "http://" + name + ":1"
  {
    assert IsName(name) && AllDigits("1") && Lower(name) == name && BareHost(name) == name;
    EmptyTail();
    CanonText(false, name, "1", "");
    hide *;
    WitnessHost(name);
  }

  lemma WitnessHost(name: string)
    requires BareHost(name) == name
    ensures "http" + "://" + HostPort(name, "1") + "" == "http://" + name + ":1"
    ensures "http" + "://" + name + ":" + "1" == "http://" + name + ":1"
  {
  }

  // ---- spelling ----

  /** `out` lists what the first n entries sanitise to, each at its first occurrence, in order. */
  predicate FirstOccurrences(peers: seq<string>, n: nat, out: seq<string>, first: seq<nat>) {
    && n <= |peers| && |first| == |out|
    && (forall i :: 0 <= i < |out| ==> first[i] < n && Sanitized(peers[first[i]]) == Some(out[i]))
    && (forall i, j :: 0 <= i < j < |out| ==> first[i] < first[j])
    && (forall k :: 0 <= k < n && Sanitized(peers[k]).Some? ==>
          exists i :: 0 <= i < |out| && out[i] == Sanitized(peers[k]).value && first[i] <= k)
  }

  lemma Occurs(peers: seq<string>, n: nat, out: seq<string>, first: seq<nat>)
    requires FirstOccurrences(peers, n, out, first) && n < |peers|
    requires Sanitized(peers[n]).None? || Sanitized(peers[n]).value in out
    ensures FirstOccurrences(peers, n + 1, out, first)
  {
    hide Sanitized;
    if Sanitized(peers[n]).Some? {
      var i :| 0 <= i < |out| && out[i] == Sanitized(peers[n]).value;
      assert first[i] <= n;
    }
  }

  lemma OccursFirst(peers: seq<string>, n: nat, out: seq<string>, first: seq<nat>)
    requires FirstOccurrences(peers, n, out, first) && n < |peers| && Sanitized(peers[n]).Some?
    ensures FirstOccurrences(peers, n + 1, out + [Sanitized(peers[n]).value], first + [n])
  {
    hide Sanitized;
    var out', first' := out + [Sanitized(peers[n]).value], first + [n];
    assert out'[|out|] == Sanitized(peers[n]).value && first'[|out|] == n;
    forall k | 0 <= k < n && Sanitized(peers[k]).Some?
      ensures exists i :: 0 <= i < |out'| && out'[i] == Sanitized(peers[k]).value && first'[i] <= k
    {
      var i :| 0 <= i < |out| && out[i] == Sanitized(peers[k]).value && first[i] <= k;
      assert out'[i] == out[i] && first'[i] == first[i];
    }
  }

  /** Exactly the usable entries, sanitised, each once and at its first occurrence; the others are reported. */
  method SanitizePeers(peers: seq<string>) returns (out: seq<string>, dropped: seq<string>, ghost first: seq<nat>)
    ensures FirstOccurrences(peers, |peers|, out, first)
    ensures forall i, j :: 0 <= i < j < |out| ==> out[i] != out[j]
    ensures dropped == Dropped(peers)
  {
    hide Sanitized, TrimSpace, FirstOccurrences;
    out, dropped, first := [], [], [];
    var seen: set<string> := {};
    assert FirstOccurrences(peers, 0, out, first) by { NoneYet(peers); }
    for n := 0 to |peers|
      invariant forall s :: s in seen <==> s in out
      invariant FirstOccurrences(peers, n, out, first)
      invariant forall i, j :: 0 <= i < j < |out| ==> out[i] != out[j]
      invariant dropped == Dropped(peers[..n])
    {
      assert peers[..n + 1][..n] == peers[..n];
      if TrimSpace(peers[n]) == "" {
        BlankNotSanitized(peers[n]);
        Occurs(peers, n, out, first);
        continue;
      }
      var clean := Sanitized(peers[n]);
      if clean.None? {
        Occurs(peers, n, out, first);
        dropped := dropped + [peers[n]];
        continue;
      }
      if clean.value in seen {
        Occurs(peers, n, out, first);
        continue;
      }
      OccursFirst(peers, n, out, first);
      seen := seen + {clean.value};
      out := out + [clean.value];
      first := first + [n];
    }
    assert peers[..|peers|] == peers;
  }

  /** What sanitizePeers returns for a list. */
  ghost predicate Sanitises(peers: seq<string>, out: seq<string>) {
    exists first :: FirstOccurrences(peers, |peers|, out, first)
  }

  lemma EntriesOf(peers: seq<string>, out: seq<string>, first: seq<nat>)
    requires FirstOccurrences(peers, |peers|, out, first)
    ensures forall s :: s in out <==> exists p :: p in peers && Sanitized(p) == Some(s)
  {
    hide Sanitized;
    forall s | s in out ensures exists p :: p in peers && Sanitized(p) == Some(s) {
      var i :| 0 <= i < |out| && out[i] == s;
      assert peers[first[i]] in peers;
    }
    forall p | p in peers && Sanitized(p).Some? ensures Sanitized(p).value in out {
      var k :| 0 <= k < |peers| && peers[k] == p;
      assert Sanitized(peers[k]).Some?;
    }
  }

  lemma NoneYet(peers: seq<string>)
    ensures FirstOccurrences(peers, 0, [], [])
  {
  }

  lemma BlankNotSanitized(p: string)
    requires TrimSpace(p) == ""
    ensures Sanitized(p).None?
  {
  }

  /** The entries reported as dropped: neither blank nor usable. */
  function Dropped(peers: seq<string>): seq<string> {
    if peers == [] then [] else
    var p := peers[|peers| - 1];
    Dropped(peers[..|peers| - 1]) + (if TrimSpace(p) != "" && Sanitized(p).None? then [p] else [])
  }

  /** Lists whose entries have the same canonical forms, and a node's URLs likewise, give the same role. */
  lemma RoleOfCanons(peers: seq<string>, peers': seq<string>, self: seq<string>, self': seq<string>)
    requires Canons(peers) == Canons(peers') && Canons(self) == Canons(self')
    ensures Active(peers, self) == Active(peers', self')
    ensures Bootstraps(peers, self) == Bootstraps(peers', self')
  {
  }

  /** Sanitising a list, which also removes duplicates, keeps its canonical forms. */
  lemma SanitizedCanons(peers: seq<string>, out: seq<string>)
    requires Sanitises(peers, out)
    ensures Canons(out) == Canons(peers)
  {
    var first :| FirstOccurrences(peers, |peers|, out, first);
    EntriesOf(peers, out, first);
    hide FirstOccurrences, Canon, Sanitized;
    forall k | k in Canons(peers) ensures k in Canons(out) {
      var p :| p in peers && Canon(p) != "" && Canon(p) == k;
      SanitizeKeepsCanon(p);
      assert Sanitized(p).value in out;
    }
    forall k | k in Canons(out) ensures k in Canons(peers) {
      var s :| s in out && Canon(s) != "" && Canon(s) == k;
      var p :| p in peers && Sanitized(p) == Some(s);
      SanitizeKeepsCanon(p);
    }
  }
}
