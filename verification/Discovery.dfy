/** The discovery election: whoever wins the claim of its sub bootstraps, keeps the claim by re-claiming,
    and everyone else joins the roster (v0alpha0/peer.go joinViaDiscovery, registerWithSeed, keepalive;
    v0alpha0/discovery.go). Times are milliseconds. */
module Discovery {
  import opened Text
  import opened Kvdb

  /** One call of joinViaDiscovery; a retry is another node. */
  type Node = nat

  datatype Event =
    | Arrive(node: Node, sub: string, at: nat, heard: bool)  // its claim takes effect; heard: the answer reaches it
    | Renew(node: Node, at: nat)                             // a claim of its keepalive takes effect
    | Die(node: Node, at: nat)                               // a bootstrapper stops or crashes

  /** `live` holds the bootstrappers, each counted from the moment its claim won. */
  datatype State = State(history: seq<Write>, subs: map<Node, string>, live: set<Node>, last: map<Node, nat>, now: nat)

  const INITIAL := State([], map[], {}, map[], 0)

  /** A claim already sent may take effect after its sender died. */
  predicate Enabled(s: State, e: Event) {
    && s.now <= e.at
    && match e
       case Arrive(n, _, _, _) => n !in s.subs
       case Renew(n, _) => n in s.subs
       case Die(n, _) => n in s.live
  }

  predicate Wins(s: State, e: Event) {
    e.Arrive? && e.heard && Lapsed(s.history, e.sub, e.at)
  }

  function Claim(s: State, n: Node, sub: string, at: nat, live: set<Node>): State {
    State(s.history + [Claimed(sub, at)], s.subs[n := sub], live, s.last[n := at], at)
  }

  function Do(s: State, e: Event): State
    requires Enabled(s, e)
  {
    match e
    case Arrive(n, sub, at, _) => Claim(s, n, sub, at, if Wins(s, e) then s.live + {n} else s.live)
    case Renew(n, at) => Claim(s, n, s.subs[n], at, s.live)
    case Die(n, at) => s.(live := s.live - {n}, now := at)
  }

  ghost predicate IsRun(run: seq<State>, events: seq<Event>) {
    && |run| == |events| + 1 && run[0] == INITIAL
    && forall i :: 0 <= i < |events| ==> Enabled(run[i], events[i]) && run[i + 1] == Do(run[i], events[i])
  }

  predicate Rivals(s: State, a: Node, b: Node) {
    a != b && a in s.live && b in s.live && a in s.subs && b in s.subs && s.subs[a] == s.subs[b]
  }

  predicate SplitBrain(s: State) {
    exists a, b :: a in s.live && b in s.live && Rivals(s, a, b)
  }

  predicate LastClaim(s: State, w: Node) {
    && w in s.subs && w in s.last && s.last[w] <= s.now
    && Claimed(s.subs[w], s.last[w]) in s.history
  }

  predicate Arrived(s: State) {
    s.live <= s.subs.Keys && s.last.Keys == s.subs.Keys
  }

  predicate Inv(s: State) {
    && Arrived(s)
    && (forall n :: n in s.subs ==> LastClaim(s, n))
    && Timed(s.history, s.now)
  }

  predicate Later(s: State, s': State) {
    forall n :: n in s.last ==> n in s'.last && s.last[n] <= s'.last[n]
  }

  lemma TimedLater(h: seq<Write>, w: Write, now: nat)
    requires Timed(h, now) && now <= w.at
    ensures Timed(h + [w], w.at)
  {
    var next := h + [w];
    assert forall i :: 0 <= i < |next| ==> next[i] == if i < |h| then h[i] else w;
  }

  lemma LastKept(s: State, n: Node, sub: string, at: nat, live: set<Node>, m: Node)
    requires LastClaim(s, m) && m != n && s.now <= at
    ensures LastClaim(Claim(s, n, sub, at, live), m)
  {
    var i :| 0 <= i < |s.history| && s.history[i] == Claimed(s.subs[m], s.last[m]);
    assert Claim(s, n, sub, at, live).history[i] == s.history[i];
  }

  lemma LastNew(s: State, n: Node, sub: string, at: nat, live: set<Node>)
    ensures LastClaim(Claim(s, n, sub, at, live), n)
  {
    assert Claim(s, n, sub, at, live).history[|s.history|] == Claimed(sub, at);
  }

  lemma ArrivedNext(s: State, n: Node, sub: string, at: nat, live: set<Node>)
    requires Arrived(s) && live <= s.live + {n}
    ensures Arrived(Claim(s, n, sub, at, live))
  {
  }

  lemma LaterNext(s: State, n: Node, sub: string, at: nat, live: set<Node>)
    requires Inv(s) && s.now <= at
    ensures Later(s, Claim(s, n, sub, at, live))
  {
    assert forall m :: m in s.last ==> LastClaim(s, m);
    hide Timed;
  }

  lemma ClaimInv(s: State, n: Node, sub: string, at: nat, live: set<Node>)
    requires Inv(s) && s.now <= at && live <= s.live + {n} && (n in s.subs ==> s.subs[n] == sub)
    ensures Inv(Claim(s, n, sub, at, live)) && Later(s, Claim(s, n, sub, at, live))
  {
    var s' := Claim(s, n, sub, at, live);
    LaterNext(s, n, sub, at, live);
    ArrivedNext(s, n, sub, at, live);
    TimedLater(s.history, Claimed(sub, at), s.now);
    LastNew(s, n, sub, at, live);
    hide Timed, LastClaim, Arrived, Later;
    forall m | m in s.subs && m != n ensures LastClaim(s', m) {
      LastKept(s, n, sub, at, live, m);
    }
  }

  lemma InvNext(s: State, e: Event)
    requires Inv(s) && Enabled(s, e)
    ensures Inv(Do(s, e)) && Later(s, Do(s, e))
  {
    match e {
      case Arrive(n, sub, at, _) => ClaimInv(s, n, sub, at, if Wins(s, e) then s.live + {n} else s.live);
      case Renew(n, at) => ClaimInv(s, n, s.subs[n], at, s.live);
      case Die(n, at) =>
        forall m | m in s.subs ensures LastClaim(Do(s, e), m) { assert LastClaim(s, m); }
    }
  }

  lemma {:induction false} Reachable(run: seq<State>, events: seq<Event>, k: nat)
    requires IsRun(run, events) && k < |run|
    ensures Inv(run[k])
  {
    if k > 0 {
      Reachable(run, events, k - 1);
      InvNext(run[k - 1], events[k - 1]);
    }
  }

  // ---- when it splits ----

  /** A claim by another node wins while a bootstrapper of its sub is live. */
  predicate Usurps(s: State, e: Event) {
    Wins(s, e) && exists w :: w in s.live && w in s.subs && s.subs[w] == e.sub
  }

  lemma SplitNext(s: State, e: Event)
    requires Inv(s) && Enabled(s, e)
    ensures Usurps(s, e) ==> SplitBrain(Do(s, e))
    ensures SplitBrain(Do(s, e)) ==> SplitBrain(s) || Usurps(s, e)
  {
    var s' := Do(s, e);
    if Usurps(s, e) {
      var w :| w in s.live && w in s.subs && s.subs[w] == e.sub;
      assert Rivals(s', w, e.node);
    }
    if SplitBrain(s') {
      var a, b :| a in s'.live && b in s'.live && Rivals(s', a, b);
      if e.Arrive? && a == e.node {
        assert b in s.live && s.subs[b] == e.sub;
      } else if e.Arrive? && b == e.node {
        assert a in s.live && s.subs[a] == e.sub;
      } else {
        assert Rivals(s, a, b);
      }
    }
  }

  /** Two bootstrappers of one sub are live at some instant exactly when, at some instant, a claim takes
      effect with none for the sub in the preceding TTL, is answered, and finds a bootstrapper live. */
  lemma SplitBrainIff(run: seq<State>, events: seq<Event>)
    requires IsRun(run, events)
    ensures (exists k :: 0 <= k < |run| && SplitBrain(run[k]))
       <==> (exists k :: 0 <= k < |events| && Usurps(run[k], events[k]))
  {
    if k :| 0 <= k < |events| && Usurps(run[k], events[k]) {
      Reachable(run, events, k);
      SplitNext(run[k], events[k]);
      assert SplitBrain(run[k + 1]);
    }
    if k :| 0 <= k < |run| && SplitBrain(run[k]) {
      var j := FirstUsurper(run, events, k);
    }
  }

  lemma {:induction false} FirstUsurper(run: seq<State>, events: seq<Event>, k: nat) returns (j: nat)
    requires IsRun(run, events) && k < |run| && SplitBrain(run[k])
    ensures j < k && Usurps(run[j], events[j])
  {
    if k == 0 { assert false; }
    Reachable(run, events, k - 1);
    SplitNext(run[k - 1], events[k - 1]);
    if Usurps(run[k - 1], events[k - 1]) { return k - 1; }
    j := FirstUsurper(run, events, k - 1);
  }

  /** Every live bootstrapper's last claim is younger than the TTL. */
  predicate Held(s: State, at: nat) {
    forall w :: w in s.live && w in s.last ==> at < s.last[w] + CLAIM_TTL
  }

  /** Split-brain safety: in every run of any number of nodes of any number of subs, if from its win on
      each live winner's claims take effect less than the TTL apart, then no two live bootstrappers share
      a sub at any instant. */
  lemma OneBootstrapper(run: seq<State>, events: seq<Event>, k: nat)
    requires IsRun(run, events) && k < |run|
    requires forall i :: 0 <= i < |events| ==> Held(run[i], events[i].at)
    ensures !SplitBrain(run[k])
  {
    SplitBrainIff(run, events);
    forall j | 0 <= j < |events| ensures !Usurps(run[j], events[j]) {
      Reachable(run, events, j);
      HeldIsNotUsurped(run[j], events[j]);
    }
  }

  lemma HeldIsNotUsurped(s: State, e: Event)
    requires Inv(s) && Held(s, e.at)
    ensures !Usurps(s, e)
  {
    forall w | w in s.live && w in s.subs ensures !Lapsed(s.history, s.subs[w], e.at) {
      YoungClaim(s, w, e.at);
    }
  }

  lemma YoungClaim(s: State, w: Node, at: nat)
    requires Inv(s) && w in s.subs && at < s.last[w] + CLAIM_TTL
    ensures !Lapsed(s.history, s.subs[w], at)
  {
    assert LastClaim(s, w);
    var i :| 0 <= i < |s.history| && s.history[i] == Claimed(s.subs[w], s.last[w]);
    assert s.history[i].Claimed?;
  }

  // ---- what a keepalive provides ----

  const INTERVAL := 3000

  /** One seed call of the keepalive: when it takes effect and when it returns, from its start. */
  datatype Call = Call(latency: nat, duration: nat)

  function NextTick(from: nat, t: nat): (n: nat)
    requires from <= t
    ensures t < n <= t + INTERVAL
    ensures (n - from) % INTERVAL == 0
  {
    from + INTERVAL * ((t - from) / INTERVAL + 1)
  }

  function Max(a: nat, b: nat): nat {
    if a < b then b else a
  }

  function NextStart(from: nat, front: seq<nat>, calls: seq<Call>): nat
    requires |front| <= |calls| && forall i :: 0 <= i < |front| ==> from < front[i]
  {
    if front == [] then from + INTERVAL else
      var i := |front| - 1;
      Max(front[i] + calls[i].duration, NextTick(from, front[i]))
  }

  /** When each call starts: the ticker drops ticks while one is pending, and calls do not overlap. */
  function Starts(from: nat, calls: seq<Call>): (s: seq<nat>)
    ensures |s| == |calls|
    ensures forall i :: 0 <= i < |s| ==> from < s[i]
  {
    if calls == [] then [] else
      var front := Starts(from, calls[..|calls| - 1]);
      front + [NextStart(from, front, calls)]
  }

  function Effects(from: nat, calls: seq<Call>): (e: seq<nat>)
    ensures |e| == |calls|
  {
    var s := Starts(from, calls);
    seq(|calls|, i requires 0 <= i < |calls| => s[i] + calls[i].latency)
  }

  lemma EffectsSnoc(from: nat, calls: seq<Call>, i: nat)
    requires i < |calls|
    ensures var s, n := Starts(from, calls[..i]), NextStart(from, Starts(from, calls[..i]), calls);
      && Starts(from, calls[..i + 1]) == s + [n]
      && Effects(from, calls[..i + 1]) == Effects(from, calls[..i]) + [n + calls[i].latency]
  {
    assert calls[..i + 1][..i] == calls[..i];
    hide NextTick;
  }

  /** The loop: wait for a tick, call, wait again. One tick at most is pending while a call runs. */
  method Keepalive(from: nat, calls: seq<Call>) returns (effects: seq<nat>)
    ensures effects == Effects(from, calls)
  {
    effects := [];
    var tick, free := from + INTERVAL, from;
    ghost var s := [];
    assert calls[..0] == [];
    assert calls[..|calls|] == calls;
    assert Effects(from, []) == [] && Starts(from, []) == [];
    hide Starts, Effects, NextTick;
    for i := 0 to |calls|
      invariant s == Starts(from, calls[..i]) && effects == Effects(from, calls[..i])
      invariant from <= free
      invariant i == 0 ==> tick == from + INTERVAL && free == from
      invariant i > 0 ==> tick == NextTick(from, s[i - 1]) && free == s[i - 1] + calls[i - 1].duration
    {
      var start := Max(free, tick);
      assert start == NextStart(from, s, calls);
      hide NextStart, Max;
      EffectsSnoc(from, calls, i);
      effects := effects + [start + calls[i].latency];
      free := start + calls[i].duration;
      tick := NextTick(from, start);
      s := s + [start];
    }
  }

  lemma {:induction false} StartsNext(from: nat, calls: seq<Call>, i: nat)
    requires i + 1 < |calls|
    ensures var s := Starts(from, calls);
      s[i] + calls[i].duration <= s[i + 1] <= s[i] + Max(INTERVAL, calls[i].duration)
  {
    if i + 2 < |calls| {
      StartsNext(from, calls[..|calls| - 1], i);
    }
  }

  lemma {:induction false} FirstStart(from: nat, calls: seq<Call>)
    requires calls != []
    ensures Starts(from, calls)[0] == from + INTERVAL
  {
    if |calls| > 1 {
      FirstStart(from, calls[..|calls| - 1]);
    }
  }

  /** The ticker's own instants: every three seconds from the moment the loop is entered. */
  predicate IsTick(from: nat, t: nat) {
    t > from && (t - from) % INTERVAL == 0
  }

  /** A call starts at the first instant from `free` on by which a tick has come since `last`. */
  predicate FirstInstant(from: nat, last: nat, free: nat, start: nat) {
    && start >= free && (exists t :: last < t <= start && IsTick(from, t))
    && (start == free || (IsTick(from, start) && forall t :: last < t < start ==> !IsTick(from, t)))
  }

  /** The first call starts at the first tick, and each later one as soon as the one before has returned and a
      tick has come since that one started. */
  predicate OnTime(from: nat, calls: seq<Call>, s: seq<nat>, i: nat)
    requires i < |calls| == |s|
  {
    if i == 0 then FirstInstant(from, from, from, s[0])
    else FirstInstant(from, s[i - 1], s[i - 1] + calls[i - 1].duration, s[i])
  }

  lemma {:induction false} StartsOnTime(from: nat, calls: seq<Call>, i: nat)
    requires i < |calls|
    ensures OnTime(from, calls, Starts(from, calls), i)
  {
    hide FirstInstant, NextTick;
    if i + 1 < |calls| {
      StartsOnTime(from, calls[..|calls| - 1], i);
    } else if i == 0 {
      FirstTick(from);
    } else {
      var front := Starts(from, calls[..i]);
      TickAfter(from, front[i - 1], front[i - 1] + calls[i - 1].duration);
    }
  }

  lemma FirstTick(from: nat)
    ensures FirstInstant(from, from, from, from + INTERVAL)
  {
    assert IsTick(from, from + INTERVAL);
  }

  lemma TickAfter(from: nat, last: nat, free: nat)
    requires from < last <= free
    ensures FirstInstant(from, last, free, Max(free, NextTick(from, last)))
  {
    var tick := NextTick(from, last);
    assert IsTick(from, tick);
    forall t | last < t < tick ensures !IsTick(from, t) {
      hide NextTick;
      NoTickBetween(tick - from, t - from);
    }
  }

  lemma NoTickBetween(n: nat, m: nat)
    requires n % INTERVAL == 0 && n - INTERVAL < m < n
    ensures m % INTERVAL != 0
  {
  }

  lemma FirstIsUnique(from: nat, last: nat, free: nat, a: nat, b: nat)
    requires FirstInstant(from, last, free, a) && FirstInstant(from, last, free, b)
    ensures a == b
  {
  }

  lemma {:induction false} OnTimeIsUnique(from: nat, calls: seq<Call>, s: seq<nat>, i: nat)
    requires |s| == |calls| && i < |calls| && forall j :: 0 <= j <= i ==> OnTime(from, calls, s, j)
    ensures s[i] == Starts(from, calls)[i]
  {
    hide FirstInstant, Starts;
    if i > 0 { OnTimeIsUnique(from, calls, s, i - 1); }
    StartsOnTime(from, calls, i);
    assert OnTime(from, calls, s, i);
    var last := if i == 0 then from else s[i - 1];
    FirstIsUnique(from, last, if i == 0 then from else last + calls[i - 1].duration, s[i], Starts(from, calls)[i]);
  }

  /** When the calls start, by the ticker's instants alone: no tick goes by without a call following it, a call
      uses up one tick at most, and no other starts do the same. */
  lemma StartsIff(from: nat, calls: seq<Call>, s: seq<nat>)
    requires |s| == |calls|
    ensures s == Starts(from, calls) <==> forall i :: 0 <= i < |calls| ==> OnTime(from, calls, s, i)
    ensures forall i :: 0 <= i < |calls| ==> Effects(from, calls)[i] == Starts(from, calls)[i] + calls[i].latency
  {
    hide OnTime, Starts;
    forall i | 0 <= i < |calls| ensures OnTime(from, calls, Starts(from, calls), i) {
      StartsOnTime(from, calls, i);
    }
    if forall i :: 0 <= i < |calls| ==> OnTime(from, calls, s, i) {
      forall i | 0 <= i < |calls| ensures s[i] == Starts(from, calls)[i] {
        OnTimeIsUnique(from, calls, s, i);
      }
    }
  }

  /** A call slower than the interval is followed at once by the next, and the one after that comes at the
      ticker's next tick, not a full interval later. */
  lemma SlowCallWitness()
    ensures Effects(0, [Call(100, 4000), Call(200, 500), Call(0, 0)]) == [3100, 7200, 9000]
  {
    hide Starts, Effects;
    var calls := [Call(100, 4000), Call(200, 500), Call(0, 0)];
    assert IsTick(0, 3000) && IsTick(0, 6000) && IsTick(0, 9000);
    StartsIff(0, calls, [3000, 7000, 9000]);
  }

  /** Calls that each return within the interval take effect in order and less than two intervals apart;
      a call as slow as its own timeout may leave a longer gap. */
  lemma KeepaliveGaps(from: nat, calls: seq<Call>, i: nat)
    requires i + 1 < |calls| && calls[i].latency <= calls[i].duration
    ensures var e := Effects(from, calls);
      e[i] <= e[i + 1] <= e[i] + Max(INTERVAL, calls[i].duration) + calls[i + 1].latency
  {
    StartsNext(from, calls, i);
  }

  /** A winner's claims: the one that won, then its keepalive's, started once the server is up and registered. */
  datatype Schedule = Schedule(won: nat, up: nat, calls: seq<Call>)

  function Times(s: Schedule): (t: seq<nat>)
    ensures |t| == |s.calls| + 1 && t[0] == s.won
  {
    [s.won] + Effects(s.up, s.calls)
  }

  /** The server comes up after the win, and no call takes effect after it returned. */
  predicate Ordered(s: Schedule) {
    s.won <= s.up && forall i :: 0 <= i < |s.calls| ==> s.calls[i].latency <= s.calls[i].duration
  }

  /** Between the i-th claim and the next, the claim lapses. */
  predicate Gap(s: Schedule, i: nat) {
    i < |s.calls| && Times(s)[i + 1] >= Times(s)[i] + CLAIM_TTL
  }

  predicate Gapless(s: Schedule) {
    forall i :: 0 <= i < |s.calls| ==> !Gap(s, i)
  }

  lemma TimesOrder(s: Schedule, i: nat)
    requires Ordered(s) && i < |s.calls|
    ensures Times(s)[i] <= Times(s)[i + 1]
  {
    if i == 0 {
      FirstStart(s.up, s.calls);
    } else {
      KeepaliveGaps(s.up, s.calls, i - 1);
    }
  }

  lemma {:induction false} TimesOrdered(s: Schedule, i: nat, j: nat)
    requires Ordered(s) && i <= j <= |s.calls|
    ensures Times(s)[i] <= Times(s)[j]
  {
    if i < j {
      TimesOrdered(s, i, j - 1);
      TimesOrder(s, j - 1);
    }
  }

  /** The steady state: every call returns within the interval. */
  predicate Steady(s: Schedule) {
    Ordered(s) && s.calls != [] && forall i :: 0 <= i < |s.calls| ==> s.calls[i].duration < INTERVAL
  }

  /** In the steady state the claim can lapse only before the first renewal, and it does exactly when that
      takes effect a TTL or more after the win: with fast calls, when the server comes up three seconds late. */
  lemma SteadyGap(s: Schedule)
    requires Steady(s)
    ensures Gapless(s) <==> s.up + INTERVAL + s.calls[0].latency < s.won + CLAIM_TTL
  {
    FirstStart(s.up, s.calls);
    forall i | 0 < i < |s.calls| ensures !Gap(s, i) {
      KeepaliveGaps(s.up, s.calls, i - 1);
    }
    assert Gap(s, 0) <==> s.up + INTERVAL + s.calls[0].latency >= s.won + CLAIM_TTL;
  }

  ghost predicate ClaimsAt(events: seq<Event>, k: nat, w: Node, t: nat) {
    exists j :: 0 <= j < k && j < |events| && !events[j].Die? && events[j].node == w && events[j].at == t
  }

  /** As long as w is live, its claim won and the claims of its schedule take effect at their times. */
  ghost predicate Follows(run: seq<State>, events: seq<Event>, w: Node, s: Schedule)
    requires |run| > |events|
  {
    forall k :: 0 <= k < |events| && w in run[k].live ==>
      && ClaimsAt(events, k, w, s.won)
      && events[k].at <= Times(s)[|s.calls|]
      && (forall i :: 0 <= i <= |s.calls| && Times(s)[i] < events[k].at ==> ClaimsAt(events, k, w, Times(s)[i]))
  }

  lemma {:induction false} LastSince(run: seq<State>, events: seq<Event>, w: Node, t: nat, j: nat, k: nat)
    requires IsRun(run, events) && j < k < |run|
    requires !events[j].Die? && events[j].node == w && events[j].at == t
    ensures w in run[k].last && t <= run[k].last[w]
  {
    if k > j + 1 {
      LastSince(run, events, w, t, j, k - 1);
    }
    Reachable(run, events, k - 1);
    InvNext(run[k - 1], events[k - 1]);
  }

  /** Some claim of the schedule is the last one before `at`. */
  lemma {:induction false} LatestBefore(s: Schedule, at: nat, n: nat) returns (i: nat)
    requires n <= |s.calls| && s.won < at <= Times(s)[n]
    ensures i < n && Times(s)[i] < at <= Times(s)[i + 1]
  {
    if Times(s)[n - 1] < at { return n - 1; }
    i := LatestBefore(s, at, n - 1);
  }

  /** At any event, a live bootstrapper that follows a schedule made its last claim at or after some time of
      the schedule that is at most one gap back. */
  lemma LastOfSchedule(run: seq<State>, events: seq<Event>, w: Node, s: Schedule, k: nat) returns (i: nat)
    requires IsRun(run, events) && k < |events| && w in run[k].live && Follows(run, events, w, s)
    ensures w in run[k].last && i <= |s.calls| && Times(s)[i] <= run[k].last[w]
    ensures if i < |s.calls| && s.won < events[k].at then events[k].at <= Times(s)[i + 1] else events[k].at <= Times(s)[i]
  {
    i := 0;
    if s.won < events[k].at {
      i := LatestBefore(s, events[k].at, |s.calls|);
    }
    var j :| 0 <= j < k && !events[j].Die? && events[j].node == w && events[j].at == Times(s)[i];
    LastSince(run, events, w, Times(s)[i], j, k);
  }

  /** If no bootstrapper's schedule lets its claim lapse, the election never splits. */
  lemma GaplessIsSafe(run: seq<State>, events: seq<Event>, schedules: map<Node, Schedule>, k: nat)
    requires IsRun(run, events) && k < |run|
    requires forall i, w :: 0 <= i < |events| && w in run[i].live ==> w in schedules
    requires forall w :: w in schedules ==> Gapless(schedules[w]) && Follows(run, events, w, schedules[w])
    ensures !SplitBrain(run[k])
  {
    forall i | 0 <= i < |events| ensures Held(run[i], events[i].at) {
      forall w | w in run[i].live && w in run[i].last ensures events[i].at < run[i].last[w] + CLAIM_TTL {
        var n := LastOfSchedule(run, events, w, schedules[w], i);
        assert n < |schedules[w].calls| ==> !Gap(schedules[w], n);
      }
    }
    OneBootstrapper(run, events, k);
  }

  /** Three-second ticks answered in under three seconds hold the claim, if the server is up in time: no run
      in which every bootstrapper follows such a schedule splits. */
  lemma SteadyIsSafe(run: seq<State>, events: seq<Event>, schedules: map<Node, Schedule>, k: nat)
    requires IsRun(run, events) && k < |run|
    requires forall i, w :: 0 <= i < |events| && w in run[i].live ==> w in schedules
    requires forall w :: w in schedules ==>
      var s := schedules[w];
      Steady(s) && s.up + INTERVAL + s.calls[0].latency < s.won + CLAIM_TTL && Follows(run, events, w, s)
    ensures !SplitBrain(run[k])
  {
    forall w | w in schedules ensures Gapless(schedules[w]) {
      SteadyGap(schedules[w]);
    }
    GaplessIsSafe(run, events, schedules, k);
  }

  // ---- when the keepalive is not enough ----

  /** Another node wins the claim of w's sub while w is live. */
  ghost predicate Overtaken(run: seq<State>, events: seq<Event>, w: Node)
    requires |run| > |events|
  {
    exists k :: 0 <= k < |events| && w in run[k].live && w in run[k].subs
                && Wins(run[k], events[k]) && events[k].sub == run[k].subs[w]
  }

  /** A run in which a winner keeps to its schedule and is overtaken nevertheless. */
  ghost predicate FollowsAndSplits(run: seq<State>, events: seq<Event>, w: Node, s: Schedule) {
    IsRun(run, events) && Follows(run, events, w, s) && Overtaken(run, events, w)
  }

  /** Exactly the gaps split: some run that follows a schedule has its winner overtaken if and only if two
      consecutive claims of the schedule are a TTL or more apart. */
  lemma ScheduleSplitsIff(s: Schedule)
    requires Ordered(s)
    ensures (exists run, events, w :: FollowsAndSplits(run, events, w, s)) <==> !Gapless(s)
  {
    if run, events, w :| FollowsAndSplits(run, events, w, s) {
      OvertakenAtGap(run, events, w, s);
    }
    if i :| 0 <= i < |s.calls| && Gap(s, i) {
      var run, events := GapSplits(s, "", i);
    }
  }

  /** With calls that each return within the interval, a run that follows the schedule splits if and only if
      the first renewal, which waits for the server and one tick more, comes a TTL or more after the win. */
  lemma SlowStartSplits(s: Schedule)
    requires Steady(s)
    ensures (exists run, events, w :: FollowsAndSplits(run, events, w, s))
       <==> s.up + INTERVAL + s.calls[0].latency >= s.won + CLAIM_TTL
  {
    ScheduleSplitsIff(s);
    SteadyGap(s);
  }

  lemma OvertakenSplits(run: seq<State>, events: seq<Event>, w: Node)
    requires IsRun(run, events) && Overtaken(run, events, w)
    ensures exists k :: 0 <= k < |run| && SplitBrain(run[k])
  {
    var k :| 0 <= k < |events| && w in run[k].live && w in run[k].subs
             && Wins(run[k], events[k]) && events[k].sub == run[k].subs[w];
    assert Usurps(run[k], events[k]);
    SplitBrainIff(run, events);
  }

  lemma OvertakenAtGap(run: seq<State>, events: seq<Event>, w: Node, s: Schedule)
    requires FollowsAndSplits(run, events, w, s)
    ensures !Gapless(s)
  {
    var k :| 0 <= k < |events| && w in run[k].live && w in run[k].subs
             && Wins(run[k], events[k]) && events[k].sub == run[k].subs[w];
    Reachable(run, events, k);
    var n := LastOfSchedule(run, events, w, s, k);
    assert LastClaim(run[k], w);
    var i :| 0 <= i < |run[k].history| && run[k].history[i] == Claimed(events[k].sub, run[k].last[w]);
    assert run[k].history[i].Claimed?;
    assert events[k].at >= Times(s)[n] + CLAIM_TTL;
    assert Gap(s, n);
  }

  /** Node 0 after the first n claims of its schedule, alone in the world. */
  function Kept(s: Schedule, sub: string, n: nat): State
    requires n <= |s.calls| + 1
  {
    if n == 0 then INITIAL
    else
      var t := Times(s)[n - 1];
      State(KeptHistory(s, sub, n), map[0 := sub], {0}, map[0 := t], t)
  }

  function KeptHistory(s: Schedule, sub: string, n: nat): seq<Write>
    requires n <= |s.calls| + 1
  {
    seq(n, j requires 0 <= j < n => Claimed(sub, Times(s)[j]))
  }

  function KeptEvent(s: Schedule, sub: string, j: nat): Event
    requires j <= |s.calls|
  {
    if j == 0 then Arrive(0, sub, s.won, true) else Renew(0, Times(s)[j])
  }

  lemma KeptStep(s: Schedule, sub: string, j: nat)
    requires Ordered(s) && j <= |s.calls|
    ensures Enabled(Kept(s, sub, j), KeptEvent(s, sub, j))
    ensures Do(Kept(s, sub, j), KeptEvent(s, sub, j)) == Kept(s, sub, j + 1)
  {
    if j > 0 { TimesOrder(s, j - 1); }
    hide Times;
    assert KeptHistory(s, sub, j) + [Claimed(sub, Times(s)[j])] == KeptHistory(s, sub, j + 1);
    assert map[0 := sub][0 := sub] == map[0 := sub];
  }

  /** At the end of a gap, an arrival wins. */
  lemma GapWins(s: Schedule, sub: string, i: nat)
    requires Ordered(s) && Gap(s, i)
    ensures Lapsed(KeptHistory(s, sub, i + 1), sub, Times(s)[i] + CLAIM_TTL)
  {
    forall j | 0 <= j <= i ensures Times(s)[j] <= Times(s)[i] {
      TimesOrdered(s, j, i);
    }
  }

  lemma GapSplits(s: Schedule, sub: string, i: nat) returns (run: seq<State>, events: seq<Event>)
    requires Ordered(s) && Gap(s, i)
    ensures FollowsAndSplits(run, events, 0, s)
  {
    var late := Arrive(1, sub, Times(s)[i] + CLAIM_TTL, true);
    var last := Kept(s, sub, i + 1);
    events := seq(i + 1, j requires 0 <= j <= i => KeptEvent(s, sub, j)) + [late];
    run := seq(i + 2, j requires 0 <= j <= i + 1 => Kept(s, sub, j)) + [Do(last, late)];
    forall j | 0 <= j < |events| ensures Enabled(run[j], events[j]) && run[j + 1] == Do(run[j], events[j]) {
      if j <= i { KeptStep(s, sub, j); }
    }
    GapWins(s, sub, i);
    assert Wins(run[i + 1], events[i + 1]) && 0 in run[i + 1].live;
    assert Overtaken(run, events, 0);
    GapFollows(s, sub, i, run, events);
  }

  lemma GapFollows(s: Schedule, sub: string, i: nat, run: seq<State>, events: seq<Event>)
    requires Ordered(s) && Gap(s, i) && |events| == i + 2 && |run| == i + 3
    requires forall j :: 0 <= j <= i ==> events[j] == KeptEvent(s, sub, j)
    requires run[0] == INITIAL && events[i + 1].at == Times(s)[i] + CLAIM_TTL
    ensures Follows(run, events, 0, s)
  {
    forall k | 0 <= k < |events| && 0 in run[k].live
      ensures ClaimsAt(events, k, 0, s.won) && events[k].at <= Times(s)[|s.calls|]
    {
      assert k > 0;
      assert !events[0].Die? && events[0].node == 0 && events[0].at == s.won;
      TimesOrdered(s, if k <= i then k else i + 1, |s.calls|);
    }
    forall k, j | 0 <= k < |events| && 0 <= j <= |s.calls| && Times(s)[j] < events[k].at ensures ClaimsAt(events, k, 0, Times(s)[j]) {
      if k <= i {
        if j >= k { TimesOrdered(s, k, j); }
      } else if j > i {
        TimesOrdered(s, i + 1, j);
      }
      assert j < k;
      assert !events[j].Die? && events[j].node == 0 && events[j].at == Times(s)[j];
    }
  }

  // ---- after the winner's death ----

  /** No bootstrapper of the sub is live. */
  predicate Leaderless(s: State, sub: string) {
    forall w :: w in s.live && w in s.subs ==> s.subs[w] != sub
  }

  /** Event c is a claim for the sub: an arrival of it, or a renewal by one of its nodes. */
  predicate ClaimsFor(s: State, e: Event, sub: string) {
    match e
    case Arrive(_, b, _, _) => b == sub
    case Renew(n, _) => n in s.subs && s.subs[n] == sub
    case Die(_, _) => false
  }

  /** Every claim for the sub among the first k events took effect at least a TTL before `at`. */
  ghost predicate Silent(run: seq<State>, events: seq<Event>, k: nat, sub: string, at: nat)
    requires k <= |events| && |run| > |events|
  {
    forall c :: 0 <= c < k && ClaimsFor(run[c], events[c], sub) ==> events[c].at + CLAIM_TTL <= at
  }

  /** The store's verdict, read off the events. */
  lemma {:induction false} LapsedIsSilent(run: seq<State>, events: seq<Event>, k: nat, sub: string, at: nat)
    requires IsRun(run, events) && k <= |events|
    ensures Lapsed(run[k].history, sub, at) <==> Silent(run, events, k, sub, at)
  {
    if k > 0 {
      LapsedIsSilent(run, events, k - 1, sub, at);
      LapsedStep(run[k - 1], events[k - 1], sub, at);
      hide Lapsed, Do, Enabled, ClaimsFor;
    }
  }

  lemma LapsedStep(s: State, e: Event, sub: string, at: nat)
    requires Enabled(s, e)
    ensures Lapsed(Do(s, e).history, sub, at) <==>
      Lapsed(s.history, sub, at) && (ClaimsFor(s, e, sub) ==> e.at + CLAIM_TTL <= at)
  {
    if !e.Die? {
      var w := Claimed(if e.Arrive? then e.sub else s.subs[e.node], e.at);
      var next := s.history + [w];
      assert Do(s, e).history == next && next[|s.history|] == w;
      assert forall i :: 0 <= i < |s.history| ==> next[i] == s.history[i];
    }
  }

  lemma LeaderlessNext(s: State, e: Event, sub: string)
    requires Inv(s) && Enabled(s, e) && Leaderless(s, sub)
    ensures Leaderless(Do(s, e), sub) <==> !(Wins(s, e) && e.sub == sub)
  {
    if Wins(s, e) && e.sub == sub { assert e.node in Do(s, e).live; }
    hide Lapsed;
  }

  /** Event i is an answered arrival for the sub, at least a TTL after every claim for it before, anybody's. */
  ghost predicate BreaksSilence(run: seq<State>, events: seq<Event>, i: nat, sub: string)
    requires i < |events| && |run| > |events|
  {
    events[i].Arrive? && events[i].sub == sub && events[i].heard && Silent(run, events, i, sub, events[i].at)
  }

  /** A losing claim refreshes the TTL too. From a state in which no bootstrapper of a sub is live, whatever
      else happens, and however late the dead winner's own renewals arrive, the sub stays without one exactly
      as long as no answered arrival for it comes a full TTL after every earlier claim for it. */
  lemma {:induction false} LosersKeepADeadClaim(run: seq<State>, events: seq<Event>, from: nat, sub: string, k: nat)
    requires IsRun(run, events) && from <= k < |run| && Leaderless(run[from], sub)
    ensures (forall j :: from <= j <= k ==> Leaderless(run[j], sub))
       <==> (forall i :: from <= i < k ==> !BreaksSilence(run, events, i, sub))
  {
    if k > from {
      LosersKeepADeadClaim(run, events, from, sub, k - 1);
      var s, e := run[k - 1], events[k - 1];
      if Leaderless(s, sub) {
        Reachable(run, events, k - 1);
        LeaderlessNext(s, e, sub);
        LapsedIsSilent(run, events, k - 1, sub, e.at);
        assert Leaderless(run[k], sub) <==> !BreaksSilence(run, events, k - 1, sub);
      }
      hide Leaderless, BreaksSilence, Silent;
    }
  }

  /** A winner that dies at once, and two arrivals, the second almost two TTLs after the only claim of the
      dead one: both lose, and the sub has no bootstrapper. */
  lemma DeadClaimWitness(sub: string) returns (run: seq<State>, events: seq<Event>)
    ensures events == [Arrive(0, sub, 0, true), Die(0, 1), Arrive(1, sub, CLAIM_TTL - 1, true),
                       Arrive(2, sub, 2 * CLAIM_TTL - 2, true)]
    ensures IsRun(run, events) && forall j :: 2 <= j <= 4 ==> Leaderless(run[j], sub)
  {
    events := [Arrive(0, sub, 0, true), Die(0, 1), Arrive(1, sub, CLAIM_TTL - 1, true), Arrive(2, sub, 2 * CLAIM_TTL - 2, true)];
    var s1 := Do(INITIAL, events[0]);
    assert s1.live == {0} && s1.history == [Claimed(sub, 0)];
    var s2 := Do(s1, events[1]);
    assert s2.history[0].Claimed?;
    var s3 := Do(s2, events[2]);
    assert s3.history == [Claimed(sub, 0), Claimed(sub, CLAIM_TTL - 1)];
    assert s3.history[1].Claimed?;
    run := [INITIAL, s1, s2, s3, Do(s3, events[3])];
  }

  // ---- the same by times of claims, and by who won and died ----

  /** n won the claim of `sub` at event j and has not died by event k. */
  ghost predicate Leads(run: seq<State>, events: seq<Event>, j: int, k: nat, n: Node, sub: string)
    requires k <= |events| && |run| > |events|
  {
    && 0 <= j < k && BreaksSilence(run, events, j, sub) && events[j].node == n
    && forall i :: j < i < k ==> !(events[i].Die? && events[i].node == n)
  }

  predicate LeadsNow(s: State, n: Node, sub: string) {
    n in s.live && n in s.subs && s.subs[n] == sub
  }

  lemma LeadsStep(run: seq<State>, events: seq<Event>, k: nat, n: Node, sub: string)
    requires IsRun(run, events) && k < |events|
    ensures LeadsNow(run[k + 1], n, sub)
       <==> (BreaksSilence(run, events, k, sub) && events[k].node == n)
            || (LeadsNow(run[k], n, sub) && !(events[k].Die? && events[k].node == n))
  {
    Reachable(run, events, k);
    if events[k].Arrive? {
      LapsedIsSilent(run, events, k, events[k].sub, events[k].at);
    }
    hide Lapsed, Silent, Timed, LastClaim;
  }

  /** A node is a live bootstrapper of a sub exactly if it won the sub's claim and has not died since. */
  lemma {:induction false} LeadsIff(run: seq<State>, events: seq<Event>, k: nat, n: Node, sub: string)
    requires IsRun(run, events) && k <= |events|
    ensures LeadsNow(run[k], n, sub) <==> exists j :: Leads(run, events, j, k, n, sub)
  {
    hide Do, Enabled, BreaksSilence, LeadsNow;
    if k == 0 {
      NobodyLeads(n, sub);
    } else {
      var before := k - 1;
      LeadsIff(run, events, before, n, sub);
      LeadsStep(run, events, before, n, sub);
      if BreaksSilence(run, events, before, sub) && events[before].node == n {
        assert Leads(run, events, before, k, n, sub);
      } else if !(events[before].Die? && events[before].node == n) {
        if j :| Leads(run, events, j, before, n, sub) { assert Leads(run, events, j, k, n, sub); }
        if j :| Leads(run, events, j, k, n, sub) { assert Leads(run, events, j, before, n, sub); }
      }
    }
  }

  lemma NobodyLeads(n: Node, sub: string)
    ensures !LeadsNow(INITIAL, n, sub)
  {
  }

  /** Event i is an answered arrival, at least a TTL after every claim of its sub before, while a node that won
      the sub's claim has not died. */
  ghost predicate Rewins(run: seq<State>, events: seq<Event>, i: nat)
    requires i < |events| && |run| > |events|
  {
    events[i].Arrive? && BreaksSilence(run, events, i, events[i].sub)
    && exists j, w :: Leads(run, events, j, i, w, events[i].sub)
  }

  lemma UsurpsRewins(run: seq<State>, events: seq<Event>, i: nat)
    requires IsRun(run, events) && i < |events|
    ensures Usurps(run[i], events[i]) <==> Rewins(run, events, i)
  {
    hide Lapsed, Silent, Leads, Do, Enabled;
    if events[i].Arrive? {
      var sub := events[i].sub;
      LapsedIsSilent(run, events, i, sub, events[i].at);
      if w :| w in run[i].live && w in run[i].subs && run[i].subs[w] == sub {
        LeadsIff(run, events, i, w, sub);
      }
      if j, w :| Leads(run, events, j, i, w, sub) {
        LeadsIff(run, events, i, w, sub);
      }
    }
  }

  /** Two bootstrappers of one sub are ever live together exactly when an answered arrival ever comes a full TTL
      after every earlier claim of its sub, while an earlier winner of the sub has not died. */
  lemma SplitBrainByTimes(run: seq<State>, events: seq<Event>)
    requires IsRun(run, events)
    ensures (exists k :: 0 <= k < |run| && SplitBrain(run[k]))
       <==> (exists i :: 0 <= i < |events| && Rewins(run, events, i))
  {
    SplitBrainIff(run, events);
    hide SplitBrain, Usurps, Rewins, Do, Enabled;
    forall i | 0 <= i < |events| ensures Usurps(run[i], events[i]) <==> Rewins(run, events, i) {
      UsurpsRewins(run, events, i);
    }
  }

  // ---- the loser ----

  datatype Poll = Failed | Urls(urls: seq<string>)

  /** The i-th poll is the first that fails or returns anything. */
  predicate FirstAnswer(polls: seq<Poll>, i: int) {
    && 0 <= i < |polls| && polls[i] != Urls([])
    && forall j :: 0 <= j < i ==> polls[j] == Urls([])
  }

  /** rosterWait: poll until the roster is non-empty, a poll fails, or the deadline ends the polling. */
  method RosterWait(polls: seq<Poll>) returns (urls: Option<seq<string>>)
    ensures urls.Some? ==> urls.value != [] && exists i :: FirstAnswer(polls, i) && polls[i] == Urls(urls.value)
    ensures urls.None? ==> forall i :: FirstAnswer(polls, i) ==> polls[i] == Failed
  {
    for i := 0 to |polls|
      invariant forall j :: 0 <= j < i ==> polls[j] == Urls([])
    {
      if polls[i] != Urls([]) { assert FirstAnswer(polls, i); }
      match polls[i]
      case Failed => return None;
      case Urls(found) => if found != [] { return Some(found); }
    }
    return None;
  }

  // ---- the node's identity ----

  /** A sub as the seed's userinfo returns it; an empty one is an error. */
  function Sub(userinfo: string -> Option<string>, bearer: string): Option<string> {
    var sub := userinfo(bearer);
    if sub == Some("") then None else sub
  }

  class Credentials {
    var clusterToken: string
    var joinCredential: string
    var leaveOnStop: bool

    constructor (token: string)
      ensures clusterToken == token && joinCredential == "" && !leaveOnStop
    {
      clusterToken, joinCredential, leaveOnStop := token, "", false;
    }

    /** The head of joinViaDiscovery: the token is presented to the seed, kept as the join credential, and
        replaced by the sub it stands for; from then on the node leaves the cluster when it stops. */
    method Identify(userinfo: string -> Option<string>) returns (sub: Option<string>)
      modifies this
      ensures sub == if old(clusterToken) == "" then None else Sub(userinfo, old(clusterToken))
      ensures sub.Some? ==> clusterToken == sub.value && joinCredential == old(clusterToken) && leaveOnStop
      ensures sub.None? ==> unchanged(this)
    {
      var jwt := clusterToken;
      if jwt == "" { return None; }
      sub := Sub(userinfo, jwt);
      if sub == None { return; }
      joinCredential := jwt;
      leaveOnStop := true;
      clusterToken := sub.value;
    }
  }

  /** A second discovery join on the same handle presents the sub in place of the token: it gets past the
      seed exactly if the seed takes a bare sub for a token. */
  method RetryPresentsTheSub(token: string, userinfo: string -> Option<string>) returns (first: Option<string>, second: Option<string>)
    ensures first == if token == "" then None else Sub(userinfo, token)
    ensures first.Some? ==> second == Sub(userinfo, first.value)
  {
    var c := new Credentials(token);
    first := c.Identify(userinfo);
    second := c.Identify(userinfo);
  }

  /** A seed that knows one token and nothing else. */
  function OneToken(token: string, sub: string): string -> Option<string> {
    bearer => if bearer == token then Some(sub) else None
  }

  /** With a seed that accepts tokens only, the second call on a handle is turned away. */
  method RetryTurnedAway(token: string, sub: string) returns (first: Option<string>, second: Option<string>)
    requires token != "" && sub != "" && token != sub
    ensures Sub(OneToken(token, sub), token) == Some(sub) && Sub(OneToken(token, sub), sub) == None
    ensures first == Some(sub) && second == None
  {
    first, second := RetryPresentsTheSub(token, OneToken(token, sub));
  }
}
