/** The discovery election with the members that joined: only the bootstrapper renews the claim, so the claim
    can lapse under a cluster that is still alive (v0alpha0/peer.go joinViaDiscovery, registerWithSeed;
    cmd/disco/internal/store/store.go). */
module Clusters {
  import D = Discovery
  import K = Kvdb

  type Node = D.Node

  datatype Event =
    | Election(e: D.Event)
    | Join(node: Node, via: Node, at: nat)   // an arrived node joins the cluster of a member of its sub
    | Leave(node: Node, at: nat)             // a joined member stops or crashes

  /** `alive` holds the members now running, `cluster` the bootstrapper whose cluster a node is or was in. */
  datatype State = State(base: D.State, alive: set<Node>, cluster: map<Node, Node>)

  const INITIAL := State(D.INITIAL, {}, map[])

  predicate Enabled(s: State, e: Event) {
    match e
    case Election(b) => D.Enabled(s.base, b)
    case Join(n, via, at) =>
      && s.base.now <= at && n in s.base.subs && n !in s.cluster
      && via in s.alive && via in s.cluster && via in s.base.subs && s.base.subs[via] == s.base.subs[n]
    case Leave(n, at) => s.base.now <= at && n in s.alive && n !in s.base.live
  }

  function Do(s: State, e: Event): State
    requires Enabled(s, e)
  {
    match e
    case Election(b) =>
      var next := D.Do(s.base, b);
      if D.Wins(s.base, b) then State(next, s.alive + {b.node}, s.cluster[b.node := b.node])
      else State(next, if b.Die? then s.alive - {b.node} else s.alive, s.cluster)
    case Join(n, via, at) =>
      State(s.base.(now := at), s.alive + {n}, s.cluster[n := s.cluster[via]])
    case Leave(n, at) => s.(base := s.base.(now := at), alive := s.alive - {n})
  }

  ghost predicate IsRun(run: seq<State>, events: seq<Event>) {
    && |run| == |events| + 1 && run[0] == INITIAL
    && forall i :: 0 <= i < |events| ==> Enabled(run[i], events[i]) && run[i + 1] == Do(run[i], events[i])
  }

  predicate Apart(s: State, a: Node, b: Node) {
    && a in s.alive && b in s.alive && a in s.base.subs && b in s.base.subs && s.base.subs[a] == s.base.subs[b]
    && a in s.cluster && b in s.cluster && s.cluster[a] != s.cluster[b]
  }

  /** Two clusters of one sub are alive side by side. */
  predicate TwoClusters(s: State) {
    exists a, b :: a in s.alive && b in s.alive && Apart(s, a, b)
  }

  predicate InClusters(s: State) {
    && s.base.live <= s.alive && s.alive <= s.cluster.Keys && s.cluster.Keys <= s.base.subs.Keys
    && forall n :: n in s.cluster ==> s.cluster[n] in s.base.subs
  }

  predicate Inv(s: State) {
    D.Inv(s.base) && InClusters(s)
  }

  lemma {:induction false} Reachable(run: seq<State>, events: seq<Event>, k: nat)
    requires IsRun(run, events) && k < |run|
    ensures Inv(run[k])
  {
    if k > 0 {
      Reachable(run, events, k - 1);
      InvNext(run[k - 1], events[k - 1]);
    }
  }

  lemma InvNext(s: State, e: Event)
    requires Inv(s) && Enabled(s, e)
    ensures Inv(Do(s, e))
  {
    if e.Election? {
      D.InvNext(s.base, e.e);
    } else {
      LaterInv(s.base, e.at);
    }
    hide D.Inv, D.Wins;
    if e.Election? { ElectionInClusters(s, e.e); }
  }

  lemma ElectionInClusters(s: State, e: D.Event)
    requires InClusters(s) && D.Enabled(s.base, e)
    ensures InClusters(Do(s, Election(e)))
  {
    hide K.Lapsed;
    assert s.base.subs.Keys <= D.Do(s.base, e).subs.Keys;
  }

  lemma LaterInv(s: D.State, at: nat)
    requires D.Inv(s) && s.now <= at
    ensures D.Inv(s.(now := at))
  {
    forall n | n in s.subs ensures D.LastClaim(s.(now := at), n) {
      assert D.LastClaim(s, n);
    }
  }

  /** A claim wins while some member of its sub is alive. */
  predicate Rewon(s: State, e: Event) {
    e.Election? && D.Wins(s.base, e.e) && exists n :: n in s.alive && n in s.base.subs && s.base.subs[n] == e.e.sub
  }

  lemma ApartNext(s: State, e: Event)
    requires Inv(s) && Enabled(s, e)
    ensures Rewon(s, e) ==> TwoClusters(Do(s, e))
    ensures TwoClusters(Do(s, e)) ==> TwoClusters(s) || Rewon(s, e)
  {
    hide D.Inv, K.Lapsed, InClusters, Apart;
    if Rewon(s, e) { RewonParts(s, e); }
    if TwoClusters(Do(s, e)) {
      var a, b :| a in Do(s, e).alive && b in Do(s, e).alive && Apart(Do(s, e), a, b);
      if e.Join? {
        JoinApart(s, e, a, b);
      } else {
        OtherApart(s, e, a, b);
      }
    }
  }

  lemma RewonParts(s: State, e: Event)
    requires InClusters(s) && Enabled(s, e) && Rewon(s, e)
    ensures TwoClusters(Do(s, e))
  {
    hide K.Lapsed;
    var n :| n in s.alive && n in s.base.subs && s.base.subs[n] == e.e.sub;
    assert s.cluster[n] in s.base.subs;
    assert Apart(Do(s, e), n, e.e.node);
  }

  lemma JoinApart(s: State, e: Event, a: Node, b: Node)
    requires Enabled(s, e) && e.Join? && Apart(Do(s, e), a, b)
    ensures TwoClusters(s)
  {
    var c, d := if a == e.node then e.via else a, if b == e.node then e.via else b;
    assert Apart(s, c, d);
  }

  lemma OtherApart(s: State, e: Event, a: Node, b: Node)
    requires InClusters(s) && Enabled(s, e) && !e.Join? && Apart(Do(s, e), a, b)
    ensures TwoClusters(s) || Rewon(s, e)
  {
    hide K.Lapsed;
    if e.Election? && D.Wins(s.base, e.e) && (a == e.e.node || b == e.e.node) {
      var n := if a == e.e.node then b else a;
      assert n in s.alive && s.base.subs[n] == e.e.sub;
    } else {
      assert Apart(s, a, b);
    }
  }

  /** Two clusters of one sub are ever alive together exactly when an answered claim ever takes effect a full
      TTL after the last claim of its sub, anybody's, while a member of the sub is alive. */
  lemma TwoClustersIff(run: seq<State>, events: seq<Event>)
    requires IsRun(run, events)
    ensures (exists k :: 0 <= k < |run| && TwoClusters(run[k]))
       <==> (exists k :: 0 <= k < |events| && Rewon(run[k], events[k]))
  {
    if k :| 0 <= k < |events| && Rewon(run[k], events[k]) {
      Reachable(run, events, k);
      ApartNext(run[k], events[k]);
      assert TwoClusters(run[k + 1]);
    }
    if k :| 0 <= k < |run| && TwoClusters(run[k]) {
      var j := FirstRewon(run, events, k);
    }
  }

  lemma {:induction false} FirstRewon(run: seq<State>, events: seq<Event>, k: nat) returns (j: nat)
    requires IsRun(run, events) && k < |run| && TwoClusters(run[k])
    ensures j < k && Rewon(run[j], events[j])
  {
    if k == 0 { assert false; }
    Reachable(run, events, k - 1);
    ApartNext(run[k - 1], events[k - 1]);
    if Rewon(run[k - 1], events[k - 1]) { return k - 1; }
    j := FirstRewon(run, events, k - 1);
  }

  /** Every sub with a member alive has a live bootstrapper whose last claim is younger than the TTL. */
  predicate Led(s: State, at: nat) {
    forall n :: n in s.alive && n in s.base.subs ==>
      exists w :: w in s.base.live && w in s.base.subs && s.base.subs[w] == s.base.subs[n]
                  && w in s.base.last && at < s.base.last[w] + K.CLAIM_TTL
  }

  /** As long as every living cluster keeps a bootstrapper that holds its claim, no sub has two clusters. */
  lemma LedIsOne(run: seq<State>, events: seq<Event>, k: nat)
    requires IsRun(run, events) && k < |run|
    requires forall i :: 0 <= i < |events| && events[i].Election? ==> Led(run[i], events[i].e.at)
    ensures !TwoClusters(run[k])
  {
    TwoClustersIff(run, events);
    forall j | 0 <= j < |events| ensures !Rewon(run[j], events[j]) {
      Reachable(run, events, j);
      if events[j].Election? { LedIsNotRewon(run[j], events[j]); }
    }
  }

  lemma LedIsNotRewon(s: State, e: Event)
    requires Inv(s) && e.Election? && Led(s, e.e.at)
    ensures !Rewon(s, e)
  {
    hide K.Lapsed, D.Inv, InClusters;
    if Rewon(s, e) {
      var n :| n in s.alive && n in s.base.subs && s.base.subs[n] == e.e.sub;
      LedIsYoung(s, n, e.e.at);
    }
  }

  lemma LedIsYoung(s: State, n: Node, at: nat)
    requires D.Inv(s.base) && Led(s, at) && n in s.alive && n in s.base.subs
    ensures !K.Lapsed(s.base.history, s.base.subs[n], at)
  {
    hide K.Lapsed, D.Inv;
    var w :| w in s.base.live && w in s.base.subs && s.base.subs[w] == s.base.subs[n]
             && w in s.base.last && at < s.base.last[w] + K.CLAIM_TTL;
    D.YoungClaim(s.base, w, at);
  }

  // ---- the same by times of claims, and by who came and went ----

  predicate ClaimsFor(s: State, e: Event, sub: string) {
    e.Election? && D.ClaimsFor(s.base, e.e, sub)
  }

  /** Every claim for the sub among the first k events took effect at least a TTL before `at`. */
  ghost predicate Silent(run: seq<State>, events: seq<Event>, k: nat, sub: string, at: nat)
    requires k <= |events| && |run| > |events|
  {
    forall c :: 0 <= c < k && ClaimsFor(run[c], events[c], sub) ==> events[c].e.at + K.CLAIM_TTL <= at
  }

  lemma {:induction false} LapsedIsSilent(run: seq<State>, events: seq<Event>, k: nat, sub: string, at: nat)
    requires IsRun(run, events) && k <= |events|
    ensures K.Lapsed(run[k].base.history, sub, at) <==> Silent(run, events, k, sub, at)
  {
    if k > 0 {
      LapsedIsSilent(run, events, k - 1, sub, at);
      if events[k - 1].Election? { D.LapsedStep(run[k - 1].base, events[k - 1].e, sub, at); }
      hide K.Lapsed, D.Do, D.Enabled, D.ClaimsFor;
    }
  }

  /** Event j makes n a living member: it founds a cluster, a TTL after the last claim of its sub, or joins one. */
  ghost predicate Enters(run: seq<State>, events: seq<Event>, j: nat, n: Node)
    requires j < |events| && |run| > |events|
  {
    match events[j]
    case Election(b) => b.Arrive? && b.node == n && b.heard && Silent(run, events, j, b.sub, b.at)
    case Join(m, _, _) => m == n
    case Leave(_, _) => false
  }

  predicate Exits(e: Event, n: Node) {
    match e
    case Election(b) => b.Die? && b.node == n
    case Join(_, _, _) => false
    case Leave(m, _) => m == n
  }

  /** n came in at event j and has not gone by event k. */
  ghost predicate Stays(run: seq<State>, events: seq<Event>, j: int, k: nat, n: Node)
    requires k <= |events| && |run| > |events|
  {
    0 <= j < k && Enters(run, events, j, n) && forall i :: j < i < k ==> !Exits(events[i], n)
  }

  lemma {:induction false} AliveStays(run: seq<State>, events: seq<Event>, k: nat, n: Node)
    requires IsRun(run, events) && k <= |events|
    ensures n in run[k].alive <==> exists j :: Stays(run, events, j, k, n)
  {
    if k > 0 {
      AliveStays(run, events, k - 1, n);
      AliveStep(run, events, k - 1, n);
      hide Do, Enabled, Enters, Exits;
      if Enters(run, events, k - 1, n) {
        assert Stays(run, events, k - 1, k, n);
      } else if !Exits(events[k - 1], n) {
        var before := k - 1;
        if j :| Stays(run, events, j, before, n) { assert Stays(run, events, j, k, n); }
        if j :| Stays(run, events, j, k, n) { assert Stays(run, events, j, before, n); }
      }
    }
  }

  lemma AliveStep(run: seq<State>, events: seq<Event>, k: nat, n: Node)
    requires IsRun(run, events) && k < |events|
    ensures n in run[k + 1].alive <==> Enters(run, events, k, n) || (n in run[k].alive && !Exits(events[k], n))
  {
    if events[k].Election? && events[k].e.Arrive? {
      LapsedIsSilent(run, events, k, events[k].e.sub, events[k].e.at);
    }
    hide K.Lapsed, Silent;
  }

  /** Event i is an answered arrival, at least a TTL after every claim of its sub before, while some node of the
      sub that came in has not gone. */
  ghost predicate Refounds(run: seq<State>, events: seq<Event>, i: nat)
    requires i < |events| && |run| > |events|
  {
    && events[i].Election? && events[i].e.Arrive? && events[i].e.heard
    && Silent(run, events, i, events[i].e.sub, events[i].e.at)
    && exists j, m :: Stays(run, events, j, i, m) && m in run[i].base.subs && run[i].base.subs[m] == events[i].e.sub
  }

  lemma RewonRefounds(run: seq<State>, events: seq<Event>, i: nat)
    requires IsRun(run, events) && i < |events|
    ensures Rewon(run[i], events[i]) <==> Refounds(run, events, i)
  {
    if events[i].Election? && events[i].e.Arrive? {
      LapsedIsSilent(run, events, i, events[i].e.sub, events[i].e.at);
    }
    hide K.Lapsed, Silent, Stays;
    if Rewon(run[i], events[i]) {
      var m :| m in run[i].alive && m in run[i].base.subs && run[i].base.subs[m] == events[i].e.sub;
      AliveStays(run, events, i, m);
    }
    if Refounds(run, events, i) {
      var j, m :| Stays(run, events, j, i, m) && m in run[i].base.subs && run[i].base.subs[m] == events[i].e.sub;
      AliveStays(run, events, i, m);
    }
  }

  /** Two clusters of one sub are ever alive together exactly when an answered arrival ever comes a full TTL
      after every earlier claim of its sub, while some node of the sub that founded or joined is still there. */
  lemma TwoClustersByTimes(run: seq<State>, events: seq<Event>)
    requires IsRun(run, events)
    ensures (exists k :: 0 <= k < |run| && TwoClusters(run[k]))
       <==> (exists i :: 0 <= i < |events| && Refounds(run, events, i))
  {
    TwoClustersIff(run, events);
    forall i | 0 <= i < |events| ensures Rewon(run[i], events[i]) <==> Refounds(run, events, i) {
      RewonRefounds(run, events, i);
    }
  }

  ghost predicate ClaimsAt(events: seq<Event>, k: nat, w: Node, t: nat) {
    exists j :: 0 <= j < k && j < |events| && IsClaimBy(events[j], w, t)
  }

  predicate IsClaimBy(e: Event, w: Node, t: nat) {
    e.Election? && !e.e.Die? && e.e.node == w && e.e.at == t
  }

  /** As long as bootstrapper w is live, the claims of its schedule take effect at their times. */
  ghost predicate Follows(run: seq<State>, events: seq<Event>, w: Node, s: D.Schedule)
    requires |run| > |events|
  {
    forall k :: 0 <= k < |events| && events[k].Election? && w in run[k].base.live ==>
      && ClaimsAt(events, k, w, s.won)
      && events[k].e.at <= D.Times(s)[|s.calls|]
      && (forall i :: 0 <= i <= |s.calls| && D.Times(s)[i] < events[k].e.at ==> ClaimsAt(events, k, w, D.Times(s)[i]))
  }

  lemma {:induction false} SubStays(run: seq<State>, events: seq<Event>, j: nat, k: nat, n: Node)
    requires IsRun(run, events) && j <= k < |run| && n in run[j].base.subs
    ensures n in run[k].base.subs && run[k].base.subs[n] == run[j].base.subs[n]
  {
    if j < k {
      SubStays(run, events, j, k - 1, n);
      hide K.Lapsed;
    }
  }

  lemma ClaimIsForSub(run: seq<State>, events: seq<Event>, j: nat, k: nat, w: Node, t: nat)
    requires IsRun(run, events) && j < k <= |events| && IsClaimBy(events[j], w, t)
    ensures w in run[k].base.subs && ClaimsFor(run[j], events[j], run[k].base.subs[w])
  {
    SubStays(run, events, j + 1, k, w);
    hide K.Lapsed;
  }

  /** While bootstrappers keep to schedules without a gap, a second cluster takes the bootstrappers' leaving: at
      the arrival that founds one, no bootstrapper of the sub is live any more. */
  lemma RefoundingNeedsLeaving(run: seq<State>, events: seq<Event>, i: nat, schedules: map<Node, D.Schedule>)
    requires IsRun(run, events) && i < |events| && Refounds(run, events, i)
    requires forall w :: w in run[i].base.live ==> w in schedules
    requires forall w :: w in schedules ==> D.Gapless(schedules[w]) && Follows(run, events, w, schedules[w])
    ensures D.Leaderless(run[i].base, events[i].e.sub)
  {
    forall w | w in run[i].base.live && w in run[i].base.subs ensures run[i].base.subs[w] != events[i].e.sub {
      var n, j := LastScheduled(run, events, i, w, schedules[w]);
      ClaimIsForSub(run, events, j, i, w, D.Times(schedules[w])[n]);
      assert n < |schedules[w].calls| ==> !D.Gap(schedules[w], n);
      hide Follows, D.Gapless;
    }
  }

  lemma LastScheduled(run: seq<State>, events: seq<Event>, k: nat, w: Node, s: D.Schedule) returns (n: nat, j: nat)
    requires k < |events| && |run| > |events| && events[k].Election? && w in run[k].base.live && Follows(run, events, w, s)
    ensures j < k && n <= |s.calls| && IsClaimBy(events[j], w, D.Times(s)[n])
    ensures if n < |s.calls| && s.won < events[k].e.at then events[k].e.at <= D.Times(s)[n + 1] else events[k].e.at <= D.Times(s)[n]
  {
    n := 0;
    if s.won < events[k].e.at {
      n := D.LatestBefore(s, events[k].e.at, |s.calls|);
    }
    j :| 0 <= j < k && j < |events| && IsClaimBy(events[j], w, D.Times(s)[n]);
  }

  /** A bootstrapper that leaves takes the renewals with it: one TTL after its last claim, the next arrival
      bootstraps a second cluster beside the members it left behind. */
  lemma AbandonedWitness(sub: string) returns (run: seq<State>, events: seq<Event>)
    ensures IsRun(run, events) && |events| == 5
    ensures 1 in run[4].alive && run[4].base.live == {} && TwoClusters(run[5])
  {
    events := [Election(D.Arrive(0, sub, 0, true)), Election(D.Arrive(1, sub, 1, true)), Join(1, 0, 2),
               Election(D.Die(0, 3)), Election(D.Arrive(2, sub, K.CLAIM_TTL + 1, true))];
    var s1 := Do(INITIAL, events[0]);
    assert s1.base.history == [K.Claimed(sub, 0)] && s1.base.history[0].Claimed?;
    var s2 := Do(s1, events[1]);
    assert s2.base.history == [K.Claimed(sub, 0), K.Claimed(sub, 1)];
    var s3 := Do(s2, events[2]);
    var s4 := Do(s3, events[3]);
    var s5 := Do(s4, events[4]);
    run := [INITIAL, s1, s2, s3, s4, s5];
    assert Apart(s5, 1, 2);
  }
}
