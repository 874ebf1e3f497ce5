/** The discovery store over a key-value service whose keys expire (cmd/disco/internal/store/kvdb/kvdb.go).
    Times are milliseconds. */
module Kvdb {
  import opened Text

  const CLAIM_TTL := 6000
  const ROSTER_TTL := 10000

  // ---- what was asked of the store ----

  datatype Write =
    | Claimed(sub: string, at: nat)
    | Registered(sub: string, id: string, url: string, at: nat)

  /** The writes that took effect, oldest first, up to a moment. */
  predicate Timed(h: seq<Write>, now: nat) {
    && (forall i :: 0 <= i < |h| ==> h[i].at <= now)
    && (forall i, j :: 0 <= i < j < |h| ==> h[i].at <= h[j].at)
  }

  /** No claim for `sub` took effect within the preceding claim TTL. */
  predicate Lapsed(h: seq<Write>, sub: string, now: nat) {
    forall i :: 0 <= i < |h| && h[i].Claimed? && h[i].sub == sub ==> h[i].at + CLAIM_TTL <= now
  }

  predicate Registers(w: Write, sub: string, id: string) {
    w.Registered? && w.sub == sub && w.id == id
  }

  /** h[i] is the last registration of `id` under `sub`. */
  predicate LastRegistration(h: seq<Write>, i: int, sub: string, id: string) {
    && 0 <= i < |h| && Registers(h[i], sub, id)
    && forall j :: i < j < |h| ==> !Registers(h[j], sub, id)
  }

  /** The last registration of `id` under `sub` carried `url`, within the roster TTL. */
  ghost predicate Listed(h: seq<Write>, sub: string, id: string, url: string, now: nat) {
    exists i :: LastRegistration(h, i, sub, id) && h[i].url == url && now < h[i].at + ROSTER_TTL
  }

  /** A claim holds for six seconds and a registration for ten, the last millisecond excluded. */
  lemma HowLong(sub: string, id: string, url: string, at: nat, now: nat)
    ensures Lapsed([Claimed(sub, at)], sub, now) <==> now >= at + 6_000
    ensures Listed([Registered(sub, id, url, at)], sub, id, url, now) <==> now < at + 10_000
  {
    assert [Claimed(sub, at)][0].Claimed?;
    var h := [Registered(sub, id, url, at)];
    assert LastRegistration(h, 0, sub, id);
  }

  // ---- how the keys hold it ----

  /** Key segments: free of '/', and apart for the names in use (the code hashes; a hash is not injective). */
  ghost predicate Segments(seg: string -> string, names: set<string>) {
    && (forall s :: Lacks(seg(s), '/'))
    && (forall s, t :: s in names && t in names && seg(s) == seg(t) ==> s == t)
  }

  function ClaimKey(seg: string -> string, sub: string): string {
    "c/" + seg(sub)
  }

  function RosterPrefix(seg: string -> string, sub: string): string {
    "r/" + seg(sub) + "/"
  }

  function RosterKey(seg: string -> string, sub: string, id: string): string {
    RosterPrefix(seg, sub) + seg(id)
  }

  datatype Item = Counter(n: nat, expires: nat) | Text(s: string, expires: nat)

  type Keys = map<string, Item>

  /** The counter as an increment finds it: created as zero, gone once expired. */
  function Count(keys: Keys, k: string, now: nat): nat {
    if k in keys && keys[k].Counter? && now < keys[k].expires then keys[k].n else 0
  }

  predicate Live(keys: Keys, k: string, now: nat) {
    k in keys && now < keys[k].expires
  }

  /** The keys after one more write. */
  function After(seg: string -> string, keys: Keys, w: Write): Keys {
    match w
    case Claimed(sub, at) =>
      var k := ClaimKey(seg, sub);
      keys[k := Counter(Count(keys, k, at) + 1, at + CLAIM_TTL)]
    case Registered(sub, id, url, at) =>
      keys[RosterKey(seg, sub, id) := Text(url, at + ROSTER_TTL)]
  }

  /** The keys after a history of writes. */
  function Stored(seg: string -> string, h: seq<Write>): Keys {
    if h == [] then map[] else
      After(seg, Stored(seg, h[..|h| - 1]), h[|h| - 1])
  }

  predicate Names(h: seq<Write>, names: set<string>) {
    forall i :: 0 <= i < |h| ==> h[i].sub in names && (h[i].Registered? ==> h[i].id in names)
  }

  lemma TimedNext(h: seq<Write>, w: Write, names: set<string>, now: nat)
    requires Names(h, names) && Names([w], names) && Timed(h, now) && w.at == now
    ensures Names(h + [w], names) && Timed(h + [w], now)
  {
    assert [w][0] == w;
    var next := h + [w];
    forall i | 0 <= i < |next| ensures next[i].sub in names && (next[i].Registered? ==> next[i].id in names) {
      assert next[i] == if i < |h| then h[i] else w;
    }
  }

  lemma StoredNext(seg: string -> string, h: seq<Write>, w: Write)
    ensures Stored(seg, h + [w]) == After(seg, Stored(seg, h), w)
  {
    hide After;
    assert (h + [w])[..|h|] == h;
  }

  lemma PrefixOfKey(seg: string -> string, a: string, b: string, id: string)
    requires Lacks(seg(a), '/') && Lacks(seg(b), '/')
    ensures RosterPrefix(seg, a) <= RosterKey(seg, b, id) <==> seg(a) == seg(b)
  {
    var p, k := RosterPrefix(seg, a), RosterKey(seg, b, id);
    assert k[2..] == seg(b) + ['/'] + seg(id);
    Cut(seg(b), '/', seg(id));
    if p <= k {
      var rest := k[|p|..];
      assert k == p + rest;
      assert k[2..] == seg(a) + ['/'] + rest;
      Cut(seg(a), '/', rest);
    }
  }

  lemma KeysApart(seg: string -> string, names: set<string>, a: string, i: string, b: string, j: string)
    requires Segments(seg, names) && {a, i, b, j} <= names
    ensures RosterKey(seg, a, i) == RosterKey(seg, b, j) <==> a == b && i == j
    ensures ClaimKey(seg, a) == ClaimKey(seg, b) <==> a == b
    ensures ClaimKey(seg, a) != RosterKey(seg, b, j)
    ensures !(RosterPrefix(seg, b) <= ClaimKey(seg, a))
  {
    if RosterKey(seg, a, i) == RosterKey(seg, b, j) {
      assert RosterPrefix(seg, a) <= RosterKey(seg, b, j);
      PrefixOfKey(seg, a, b, j);
      assert RosterKey(seg, a, i)[|RosterPrefix(seg, a)|..] == seg(i);
      assert RosterKey(seg, b, j)[|RosterPrefix(seg, b)|..] == seg(j);
    }
    assert ClaimKey(seg, a)[2..] == seg(a) && ClaimKey(seg, b)[2..] == seg(b);
    assert ClaimKey(seg, a)[0] == 'c' && RosterKey(seg, b, j)[0] == 'r' && RosterPrefix(seg, b)[0] == 'r';
  }

  predicate Claims(w: Write, sub: string) {
    w.Claimed? && w.sub == sub
  }

  lemma LapsedNext(h: seq<Write>, w: Write, sub: string, now: nat)
    requires Timed(h + [w], now)
    ensures Lapsed(h + [w], sub, now) <==>
      if Claims(w, sub) then w.at + CLAIM_TTL <= now else Lapsed(h, sub, now)
  {
    var next := h + [w];
    assert next[|h|] == w;
    assert forall i :: 0 <= i < |h| ==> next[i] == h[i] && next[i].at <= next[|h|].at;
  }

  lemma CountNext(seg: string -> string, names: set<string>, h: seq<Write>, w: Write, sub: string, now: nat)
    requires Segments(seg, names) && {sub, w.sub} <= names && (w.Registered? ==> w.id in names)
    ensures var k := ClaimKey(seg, sub);
      Count(Stored(seg, h + [w]), k, now) ==
      if !Claims(w, sub) then Count(Stored(seg, h), k, now)
      else if now < w.at + CLAIM_TTL then Count(Stored(seg, h), k, w.at) + 1 else 0
  {
    StoredNext(seg, h, w);
    KeysApart(seg, names, sub, sub, w.sub, if w.Registered? then w.id else sub);
    hide ClaimKey, RosterKey, Segments, Stored;
  }

  /** The counter of a sub is positive exactly while some claim for it is younger than the TTL. */
  lemma {:induction false} CountsClaims(seg: string -> string, names: set<string>, h: seq<Write>, sub: string, now: nat)
    requires Segments(seg, names) && Names(h, names) && sub in names && Timed(h, now)
    ensures Count(Stored(seg, h), ClaimKey(seg, sub), now) == 0 <==> Lapsed(h, sub, now)
  {
    if h != [] {
      var front, w := h[..|h| - 1], h[|h| - 1];
      assert h == front + [w];
      CountsClaims(seg, names, front, sub, now);
      CountNext(seg, names, front, w, sub, now);
      LapsedNext(front, w, sub, now);
      hide *;
    }
  }

  lemma ListedNext(h: seq<Write>, w: Write, sub: string, id: string, url: string, now: nat)
    ensures Listed(h + [w], sub, id, url, now) <==>
      if Registers(w, sub, id) then w.url == url && now < w.at + ROSTER_TTL else Listed(h, sub, id, url, now)
  {
    var next := h + [w];
    assert next[|h|] == w;
    if Registers(w, sub, id) {
      assert LastRegistration(next, |h|, sub, id);
    } else if Listed(next, sub, id, url, now) {
      var i :| LastRegistration(next, i, sub, id) && next[i].url == url && now < next[i].at + ROSTER_TTL;
      assert forall j :: i < j < |h| ==> h[j] == next[j];
      assert LastRegistration(h, i, sub, id);
    } else if Listed(h, sub, id, url, now) {
      var i :| LastRegistration(h, i, sub, id) && h[i].url == url && now < h[i].at + ROSTER_TTL;
      assert LastRegistration(next, i, sub, id);
    }
  }

  /** A roster key holds a URL exactly when that is the last one registered within the TTL. */
  lemma {:induction false} HoldsRoster(seg: string -> string, names: set<string>, h: seq<Write>,
                                       sub: string, id: string, url: string, now: nat)
    requires Segments(seg, names) && Names(h, names) && sub in names && id in names
    ensures var k := RosterKey(seg, sub, id);
      Live(Stored(seg, h), k, now) && Stored(seg, h)[k] == Text(url, Stored(seg, h)[k].expires)
      <==> Listed(h, sub, id, url, now)
  {
    if h != [] {
      var front, w := h[..|h| - 1], h[|h| - 1];
      assert h == front + [w];
      HoldsRoster(seg, names, front, sub, id, url, now);
      ListedNext(front, w, sub, id, url, now);
      KeysApart(seg, names, w.sub, if w.Registered? then w.id else id, sub, id);
      hide ClaimKey, RosterKey, Segments, Listed;
    }
  }

  /** Whatever lies under a sub's prefix was registered for that sub. */
  lemma {:induction false} UnderPrefix(seg: string -> string, names: set<string>, h: seq<Write>, sub: string, k: string)
    returns (id: string)
    requires Segments(seg, names) && Names(h, names) && sub in names
    requires k in Stored(seg, h) && RosterPrefix(seg, sub) <= k
    ensures id in names && k == RosterKey(seg, sub, id) && Stored(seg, h)[k].Text?
  {
    var front, w := h[..|h| - 1], h[|h| - 1];
    KeysApart(seg, names, w.sub, sub, sub, sub);
    if w.Registered? {
      PrefixOfKey(seg, sub, w.sub, w.id);
      if k == RosterKey(seg, w.sub, w.id) { return w.id; }
    }
    id := UnderPrefix(seg, names, front, sub, k);
  }

  // ---- the service, as far as the client sees it ----

  /** A value in a JSON listing. */
  datatype Json = Str(s: string) | NotStr

  class Bucket {
    var keys: Keys
    var now: nat

    constructor ()
      ensures keys == map[] && now == 0
    {
      keys, now := map[], 0;
    }

    method Pass(d: nat)
      modifies this`now
      ensures now == old(now) + d
    {
      now := now + d;
    }

    method Increment(k: string, ttl: nat) returns (n: nat)
      modifies this`keys
      ensures n == Count(old(keys), k, now) + 1
      ensures keys == old(keys)[k := Counter(n, now + 1000 * ttl)]
    {
      n := Count(keys, k, now) + 1;
      keys := keys[k := Counter(n, now + 1000 * ttl)];
    }

    method Put(k: string, s: string, ttl: nat)
      modifies this`keys
      ensures keys == old(keys)[k := Text(s, now + 1000 * ttl)]
    {
      keys := keys[k := Text(s, now + 1000 * ttl)];
    }

    /** The live keys under a prefix, in some order, each once. */
    method List(prefix: string) returns (pairs: seq<seq<Json>>, ghost found: seq<string>)
      ensures |pairs| == |found|
      ensures forall i :: 0 <= i < |found| ==> Live(keys, found[i], now) && prefix <= found[i]
                                               && pairs[i] == [Str(found[i]), Value(keys[found[i]])]
      ensures forall i, j :: 0 <= i < j < |found| ==> found[i] != found[j]
      ensures forall k :: Live(keys, k, now) && prefix <= k ==> k in found
    {
      pairs, found := [], [];
      var left := set k | k in keys && now < keys[k].expires && prefix <= k;
      while left != {}
        invariant |pairs| == |found|
        invariant forall k :: k in left ==> Live(keys, k, now) && prefix <= k && k !in found
        invariant forall i :: 0 <= i < |found| ==> Live(keys, found[i], now) && prefix <= found[i]
                                                   && pairs[i] == [Str(found[i]), Value(keys[found[i]])]
        invariant forall i, j :: 0 <= i < j < |found| ==> found[i] != found[j]
        invariant forall k :: Live(keys, k, now) && prefix <= k ==> k in left || k in found
        decreases left
      {
        var k :| k in left;
        left := left - {k};
        pairs, found := pairs + [[Str(k), Value(keys[k])]], found + [k];
      }
    }
  }

  function Value(item: Item): Json {
    match item
    case Counter(_, _) => NotStr
    case Text(s, _) => Str(s)
  }

  // ---- the client ----

  /** What becomes of a request: no effect; an effect whose answer is lost; or an answer. */
  datatype Fate = Dropped | AnswerLost | Answered

  /** A TTL goes out in whole seconds. */
  function TtlQuery(ms: nat): nat {
    ms / 1000
  }

  /** The string values of a listing's pairs; shorter pairs and other values are skipped. */
  function Strings(pairs: seq<seq<Json>>): seq<string> {
    if pairs == [] then [] else
      var p := pairs[|pairs| - 1];
      Strings(pairs[..|pairs| - 1]) + if |p| >= 2 && p[1].Str? then [p[1].s] else []
  }

  method DecodeRoster(pairs: seq<seq<Json>>) returns (urls: seq<string>)
    ensures urls == Strings(pairs)
  {
    urls := [];
    for i := 0 to |pairs|
      invariant urls == Strings(pairs[..i])
    {
      assert pairs[..i + 1][..i] == pairs[..i];
      if |pairs[i]| < 2 { continue; }
      if pairs[i][1].NotStr? { continue; }
      urls := urls + [pairs[i][1].s];
    }
    assert pairs[..|pairs|] == pairs;
  }

  /** The values, where they are strings, of the pairs at the given positions: every one that is a pair with
      a string value, in order. */
  predicate StringsAt(pairs: seq<seq<Json>>, urls: seq<string>, at: seq<nat>) {
    && |at| == |urls|
    && (forall i :: 0 <= i < |at| ==> at[i] < |pairs| && |pairs[at[i]]| >= 2 && pairs[at[i]][1] == Str(urls[i]))
    && (forall i, j :: 0 <= i < j < |at| ==> at[i] < at[j])
    && (forall k :: 0 <= k < |pairs| ==> (k in at <==> |pairs[k]| >= 2 && pairs[k][1].Str?))
  }

  /** Which values a listing decodes to: short pairs and other values are skipped, and nothing else. */
  lemma {:induction false} StringsInOrder(pairs: seq<seq<Json>>) returns (at: seq<nat>)
    ensures StringsAt(pairs, Strings(pairs), at)
  {
    at := [];
    if pairs != [] {
      var front, p := pairs[..|pairs| - 1], pairs[|pairs| - 1];
      at := StringsInOrder(front);
      assert front + [p] == pairs;
      StringsAtNext(front, p, Strings(front), at);
      if |p| >= 2 && p[1].Str? { at := at + [|front|]; }
    }
    hide StringsAt;
  }

  lemma StringsAtNext(front: seq<seq<Json>>, p: seq<Json>, urls: seq<string>, at: seq<nat>)
    requires StringsAt(front, urls, at)
    ensures if |p| >= 2 && p[1].Str? then StringsAt(front + [p], urls + [p[1].s], at + [|front|])
            else StringsAt(front + [p], urls, at)
  {
    var next := at + [|front|];
    assert forall k :: k in next <==> k in at || k == |front|;
  }

  lemma {:induction false} StringsOf(pairs: seq<seq<Json>>)
    requires forall i :: 0 <= i < |pairs| ==> |pairs[i]| >= 2 && pairs[i][1].Str?
    ensures |Strings(pairs)| == |pairs|
    ensures forall i :: 0 <= i < |pairs| ==> Strings(pairs)[i] == pairs[i][1].s
  {
    if pairs != [] {
      StringsOf(pairs[..|pairs| - 1]);
    }
  }

  /** The keys hold what a history of writes, up to now, leaves in them. */
  ghost predicate Holds(seg: string -> string, names: set<string>, h: seq<Write>, keys: Keys, now: nat) {
    Segments(seg, names) && Names(h, names) && Timed(h, now) && keys == Stored(seg, h)
  }

  lemma HoldsNext(seg: string -> string, names: set<string>, h: seq<Write>, keys: Keys, w: Write)
    requires Holds(seg, names, h, keys, w.at) && Names([w], names)
    ensures Holds(seg, names, h + [w], After(seg, keys, w), w.at)
  {
    TimedNext(h, w, names, w.at);
    StoredNext(seg, h, w);
  }

  /** The URLs are those listed for `ids`, one each, and no other id of the sub is listed. */
  ghost predicate IsRoster(h: seq<Write>, names: set<string>, sub: string, now: nat, urls: seq<string>, ids: seq<string>) {
    && |urls| == |ids|
    && (forall i, j :: 0 <= i < j < |ids| ==> ids[i] != ids[j])
    && (forall i :: 0 <= i < |ids| ==> Listed(h, sub, ids[i], urls[i], now))
    && (forall id, url :: id in names && Listed(h, sub, id, url, now) ==> id in ids)
  }

  class Client {
    const bucket: Bucket
    const seg: string -> string
    const claimTTL: nat := CLAIM_TTL
    const rosterTTL: nat := ROSTER_TTL
    ghost var history: seq<Write>
    ghost const names: set<string>

    constructor (bucket: Bucket, seg: string -> string, ghost names: set<string>)
      requires Segments(seg, names) && bucket.keys == map[]
      ensures Valid() && history == [] && this.bucket == bucket && this.seg == seg && this.names == names
    {
      this.bucket, this.seg, this.names, this.history := bucket, seg, names, [];
    }

    /** The bucket holds what the history of writes leaves in it. */
    ghost predicate Valid()
      reads this, bucket
    {
      Holds(seg, names, history, bucket.keys, bucket.now)
    }

    /** Time passing changes no write. */
    method Wait(d: nat)
      requires Valid()
      modifies bucket`now
      ensures Valid() && bucket.now == old(bucket.now) + d
    {
      bucket.Pass(d);
    }

    /** A claim wins exactly when none for its sub took effect within the preceding TTL; whatever its
        answer says, a claim that reached the store restarts the TTL. */
    method Claim(sub: string, fate: Fate) returns (won: Option<bool>)
      requires Valid() && sub in names
      modifies this`history, bucket`keys
      ensures Valid()
      ensures history == if fate == Dropped then old(history) else old(history) + [Claimed(sub, bucket.now)]
      ensures won == if fate == Answered then Some(Lapsed(old(history), sub, bucket.now)) else None
    {
      hide Holds, Lapsed;
      if fate == Dropped { return None; }
      var n := Patch(sub);
      return if fate == Answered then Some(n == 1) else None;
    }

    method Patch(sub: string) returns (n: nat)
      requires Valid() && sub in names
      modifies this`history, bucket`keys
      ensures Valid() && history == old(history) + [Claimed(sub, bucket.now)]
      ensures n == 1 <==> Lapsed(old(history), sub, bucket.now)
    {
      assert Count(bucket.keys, ClaimKey(seg, sub), bucket.now) == 0 <==> Lapsed(history, sub, bucket.now) by {
        CountsClaims(seg, names, history, sub, bucket.now);
      }
      HoldsNext(seg, names, history, bucket.keys, Claimed(sub, bucket.now));
      hide Holds, Lapsed, ClaimKey, Count;
      var k := ClaimKey(seg, sub);
      n := bucket.Increment(k, TtlQuery(claimTTL));
      assert bucket.keys == After(seg, old(bucket.keys), Claimed(sub, bucket.now));
      hide After;
      history := history + [Claimed(sub, bucket.now)];
    }

    method Register(sub: string, id: string, url: string, fate: Fate) returns (ok: bool)
      requires Valid() && sub in names && id in names
      modifies this`history, bucket`keys
      ensures Valid()
      ensures history == if fate == Dropped then old(history) else old(history) + [Registered(sub, id, url, bucket.now)]
      ensures ok <==> fate == Answered
    {
      if fate == Dropped { return false; }
      HoldsNext(seg, names, history, bucket.keys, Registered(sub, id, url, bucket.now));
      hide Holds, RosterKey;
      bucket.Put(RosterKey(seg, sub, id), url, TtlQuery(rosterTTL));
      history := history + [Registered(sub, id, url, bucket.now)];
      return fate == Answered;
    }

    /** The roster of a sub is exactly the last URL of every id registered under it within the TTL. */
    method Roster(sub: string) returns (urls: seq<string>)
      requires Valid() && sub in names
      ensures exists ids :: IsRoster(history, names, sub, bucket.now, urls, ids)
    {
      var pairs;
      ghost var found;
      pairs, found := bucket.List(RosterPrefix(seg, sub));
      ghost var ids := Ids(sub, found);
      urls := DecodeRoster(pairs);
      StringsOf(pairs);
      forall i | 0 <= i < |ids| ensures Listed(history, sub, ids[i], urls[i], bucket.now) {
        HoldsRoster(seg, names, history, sub, ids[i], urls[i], bucket.now);
      }
      forall id, url | id in names && Listed(history, sub, id, url, bucket.now) ensures id in ids {
        Found(sub, id, url, found, ids);
      }
      assert IsRoster(history, names, sub, bucket.now, urls, ids);
    }

    lemma Found(sub: string, id: string, url: string, found: seq<string>, ids: seq<string>)
      requires Valid() && sub in names && id in names && Listed(history, sub, id, url, bucket.now)
      requires |found| == |ids| && forall i :: 0 <= i < |ids| ==> ids[i] in names && found[i] == RosterKey(seg, sub, ids[i])
      requires forall k :: Live(bucket.keys, k, bucket.now) && RosterPrefix(seg, sub) <= k ==> k in found
      ensures id in ids
    {
      HoldsRoster(seg, names, history, sub, id, url, bucket.now);
      var i :| 0 <= i < |found| && found[i] == RosterKey(seg, sub, id);
      KeysApart(seg, names, sub, id, sub, ids[i]);
    }

    lemma Ids(sub: string, found: seq<string>) returns (ids: seq<string>)
      requires Valid() && sub in names
      requires forall i :: 0 <= i < |found| ==> found[i] in bucket.keys && RosterPrefix(seg, sub) <= found[i]
      ensures |ids| == |found|
      ensures forall i :: 0 <= i < |ids| ==> ids[i] in names && found[i] == RosterKey(seg, sub, ids[i])
      ensures forall i :: 0 <= i < |ids| ==> bucket.keys[found[i]].Text?
    {
      ids := [];
      for i := 0 to |found|
        invariant |ids| == i
        invariant forall k :: 0 <= k < i ==> ids[k] in names && found[k] == RosterKey(seg, sub, ids[k])
        invariant forall k :: 0 <= k < i ==> bucket.keys[found[k]].Text?
      {
        var id := UnderPrefix(seg, names, history, sub, found[i]);
        ids := ids + [id];
      }
    }
  }

  /** What happens under one sub never changes what another sub's claims and roster say. */
  lemma SubsApart(h: seq<Write>, w: Write, sub: string, id: string, url: string, now: nat)
    requires w.sub != sub
    ensures Lapsed(h + [w], sub, now) <==> Lapsed(h, sub, now)
    ensures Listed(h + [w], sub, id, url, now) <==> Listed(h, sub, id, url, now)
  {
    ListedNext(h, w, sub, id, url, now);
    var next := h + [w];
    assert next[|h|] == w && forall i :: 0 <= i < |h| ==> next[i] == h[i];
  }

  /** At most one URL is listed for an id. */
  lemma ListedOnce(h: seq<Write>, sub: string, id: string, a: string, b: string, now: nat)
    requires Listed(h, sub, id, a, now) && Listed(h, sub, id, b, now)
    ensures a == b
  {
    var i :| LastRegistration(h, i, sub, id) && h[i].url == a;
    var j :| LastRegistration(h, j, sub, id) && h[j].url == b;
    assert i == j;
  }
}
