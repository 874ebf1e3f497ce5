/** The once-guarded listener accessors and the minting of the server, interleaved with the setters
    (v0alpha0/server.go, v0alpha0/builder.go, v0alpha0/util.go). The mutex is explicit: a mutation takes it,
    reads the latch and the materialised flag, and releases it when it is done. */
module Listeners {
  import opened Text
  import opened Urls
  import opened Builder

  datatype Side = ClientSide | PeerSide

  /** The body of one side's once-guarded accessor. */
  datatype Acc =
    | Idle
    | Flagged                     // the materialised flag is set
    | Got(f: Factory)             // the factory was read, no cause was latched
    | Opened(l: Listener)         // the factory ran
    | Committing(l: Listener)     // its mutation holds the mutex
    | Done

  datatype Mint = NotYet | Reading(cfg: ServerConfig) | Minted(cfg: ServerConfig) | NotMinted

  /** A mutation holding the mutex, and whether it found the builder latched. */
  datatype Holder = Holder(e: Edit, stopped: bool)

  datatype Sys = Sys(b: State, held: Option<Holder>, client: Acc, peer: Acc, mint: Mint)

  datatype Step =
    | Acquire(e: Edit)                          // a setter enters mutate
    | Release                                   // the mutation finishes
    | Begin(side: Side)                         // the first call of an accessor
    | ReadFactory(side: Side)
    | Open(side: Side, l: Option<Listener>)     // the factory's result
    | Commit(side: Side)                        // the accessor enters mutate
    | ReadConfig                                // Server(), once both accessors have returned
    | NewServer(ok: bool)

  function AccOf(s: Sys, side: Side): Acc {
    if side == ClientSide then s.client else s.peer
  }

  function WithAcc(s: Sys, side: Side, a: Acc): Sys {
    if side == ClientSide then s.(client := a) else s.(peer := a)
  }

  function FactoryOf(c: Core, side: Side): Factory {
    if side == ClientSide then c.clientFactory else c.peerFactory
  }

  /** The setter's function as it reads the materialised flag. */
  function Seen(s: Sys, e: Edit): Edit {
    match e
    case Client(lis, _) => Client(lis, s.client != Idle)
    case Peer(lis, adv, _) => Peer(lis, adv, s.peer != Idle)
    case _ => e
  }

  function Bound(side: Side, l: Listener): Edit {
    if side == ClientSide then ClientBound(l) else PeerBound(l)
  }

  /** context.CancelCauseFunc keeps the first cause. */
  function Cancelled(b: State, x: Error): State {
    if b.cause.Some? then b else b.(cause := Some(x))
  }

  function Finish(env: Etcd, b: State, h: Holder): State {
    if h.stopped then b
    else
      var (core, r) := Attempt(env, b.core, h.e);
      match r
      case Ok(sc) => b.(core := core, srvcfg := sc)
      case Err(x) => Cancelled(b.(core := core), x)
  }

  predicate Enabled(s: Sys, step: Step) {
    match step
    case Acquire(e) => s.held == None && !e.ClientBound? && !e.PeerBound?
    case Release => s.held.Some?
    case Begin(side) => AccOf(s, side) == Idle
    case ReadFactory(side) => s.held == None && AccOf(s, side) == Flagged
    case Open(side, l) =>
      var a := AccOf(s, side);
      a.Got? && (a.f.Hands? ==> l == Some(a.f.l))
    case Commit(side) => s.held == None && AccOf(s, side).Opened?
    case ReadConfig => s.held == None && s.client == Done && s.peer == Done && s.mint == NotYet
    case NewServer(_) => s.mint.Reading?
  }

  function Do(env: Etcd, s: Sys, step: Step): Sys
    requires Enabled(s, step)
  {
    match step
    case Acquire(e) => s.(held := Some(Holder(Seen(s, e), s.b.cause.Some?)))
    case Release =>
      var e := s.held.value.e;
      s.(b := Finish(env, s.b, s.held.value), held := None,
         client := if e.ClientBound? then Done else s.client, peer := if e.PeerBound? then Done else s.peer)
    case Begin(side) => WithAcc(s, side, Flagged)
    case ReadFactory(side) =>
      var f := FactoryOf(s.b.core, side);
      WithAcc(s, side, if f == Nothing || s.b.cause.Some? then Done else Got(f))
    case Open(side, l) =>
      if l == None then WithAcc(s, side, Done).(b := Cancelled(s.b, Environment))
      else WithAcc(s, side, Opened(l.value))
    case Commit(side) =>
      var l := AccOf(s, side).l;
      WithAcc(s, side, Committing(l)).(held := Some(Holder(Bound(side, l), s.b.cause.Some?)))
    case ReadConfig => s.(mint := if s.b.cause.Some? then NotMinted else Reading(s.b.srvcfg))
    case NewServer(ok) =>
      if ok then s.(mint := Minted(s.mint.cfg)) else s.(mint := NotMinted, b := Cancelled(s.b, Environment))
  }

  // ---- what holds throughout ----

  /** The client URLs a core must have once its side has materialised. */
  function ClientUrls(c: Core): seq<Url> {
    if c.clientListener.Some? then [ListenerUrl(c.clientListener.value)] else []
  }

  /** The surviving override, if any; else the bound listener's URL. */
  function PeerUrls(c: Core): seq<Url> {
    if c.peerAdvertise != [] then c.peerAdvertise
    else if c.peerListener.Some? then [ListenerUrl(c.peerListener.value)]
    else []
  }

  predicate ClientOk(c: Core, a: Acc) {
    match a
    case Idle | Flagged => c.clientListener == None && (c.clientFactory == Nothing ==> c.cfg.advertiseClient == [])
    case Done => c.cfg.advertiseClient == ClientUrls(c)
    case _ => true
  }

  predicate PeerOk(c: Core, a: Acc) {
    match a
    case Idle | Flagged =>
      && c.peerListener == None
      && (c.peerFactory == Nothing ==> c.peerAdvertise != [] && c.cfg.advertisePeer == c.peerAdvertise)
    case Done => c.cfg.advertisePeer == PeerUrls(c) != []
    case _ => true
  }

  predicate Early(a: Acc) {
    a == Idle || a == Flagged
  }

  /** A setter that read a clear flag still holds the mutex only while the accessor has not read the factory. */
  predicate HolderOk(s: Sys) {
    match s.held
    case None => !s.client.Committing? && !s.peer.Committing?
    case Some(h) =>
      && (h.stopped ==> s.b.cause.Some?)
      && (h.e.Client? && !h.e.late ==> Early(s.client))
      && (h.e.Peer? && !h.e.late ==> Early(s.peer))
      && (if h.e.ClientBound? then s.client == Committing(h.e.bound) else !s.client.Committing?)
      && (if h.e.PeerBound? then s.peer == Committing(h.e.bound) else !s.peer.Committing?)
  }

  predicate Agrees(c: Core, cfg: ServerConfig) {
    cfg.clientURLs == ClientUrls(c) && cfg.peerURLs == PeerUrls(c) != []
  }

  predicate MintOk(s: Sys) {
    s.mint.Reading? || s.mint.Minted? ==> s.client == Done && s.peer == Done && Agrees(s.b.core, s.mint.cfg)
  }

  predicate CoreOk(env: Etcd, s: Sys) {
    s.b.cause == None ==>
      ClientOk(s.b.core, s.client) && PeerOk(s.b.core, s.peer) && Derive(env, s.b.core.cfg) == Ok(s.b.srvcfg)
  }

  predicate Inv(env: Etcd, s: Sys) {
    HolderOk(s) && CoreOk(env, s) && MintOk(s)
  }

  lemma ClientFields(env: Etcd, c: Core, e: Edit)
    ensures var c' := Attempt(env, c, e).0;
      if e.Client? && !e.late then
        && c'.clientListener == c.clientListener
        && c'.clientFactory == (if e.lis.Some? then Hands(e.lis.value) else Nothing)
        && (e.lis.None? ==> c'.cfg.advertiseClient == [])
      else if e.ClientBound? then
        && c'.clientListener == Some(e.bound) && c'.cfg.advertiseClient == [ListenerUrl(e.bound)]
      else
        && c'.clientListener == c.clientListener && c'.clientFactory == c.clientFactory
        && c'.cfg.advertiseClient == c.cfg.advertiseClient
  {
    hide SingleMember, Derive, ListenerUrl;
  }

  lemma PeerFields(env: Etcd, c: Core, e: Edit)
    ensures var c', r := Attempt(env, c, e).0, Attempt(env, c, e).1;
      if e.Peer? && !e.late then
        && c'.peerListener == c.peerListener
        && (r.Ok? && c'.peerFactory == Nothing ==> c'.peerAdvertise != [] && c'.cfg.advertisePeer == c'.peerAdvertise)
      else if e.PeerBound? then
        && c'.peerListener == Some(e.bound) && c'.peerAdvertise == c.peerAdvertise
        && c'.cfg.advertisePeer == PeerUrls(c')
      else
        && c'.peerListener == c.peerListener && c'.peerFactory == c.peerFactory
        && c'.peerAdvertise == c.peerAdvertise && c'.cfg.advertisePeer == c.cfg.advertisePeer
  {
    SyncedKeeps(if Apply(c, e).Ok? then Apply(c, e).value else c);
    hide Synced, Derive, ListenerUrl;
  }

  lemma Outcomes(env: Etcd, c: Core, e: Edit)
    ensures var (c', r) := Attempt(env, c, e);
      && (r.Ok? ==> Derive(env, c'.cfg) == r)
      && ((e.Client? || e.Peer?) && e.late ==> r.Err? && c' == c)
  {
    hide SingleMember, Synced;
  }

  lemma ReleaseInv(env: Etcd, s: Sys)
    requires Inv(env, s) && s.held.Some?
    ensures Inv(env, Do(env, s, Release))
  {
    var e := s.held.value.e;
    ClientFields(env, s.b.core, e);
    PeerFields(env, s.b.core, e);
    Outcomes(env, s.b.core, e);
    hide Attempt, Derive, ListenerUrl;
  }

  lemma InvNext(env: Etcd, s: Sys, step: Step)
    requires Inv(env, s) && Enabled(s, step)
    ensures Inv(env, Do(env, s, step))
  {
    if step.Release? {
      ReleaseInv(env, s);
    } else {
      hide Attempt, ListenerUrl, Finish;
    }
  }

  // ---- runs ----

  /** newImpl: both sides auto-bind, nothing bound, minted or latched. */
  predicate Fresh(env: Etcd, s: Sys) {
    && s.b.cause == None && Derive(env, s.b.core.cfg) == Ok(s.b.srvcfg)
    && s.b.core.clientFactory == Binds && s.b.core.peerFactory == Binds
    && s.b.core.clientListener == None && s.b.core.peerListener == None
    && s.held == None && s.client == Idle && s.peer == Idle && s.mint == NotYet
  }

  ghost predicate IsRun(env: Etcd, run: seq<Sys>, steps: seq<Step>) {
    && |run| == |steps| + 1 && Fresh(env, run[0])
    && forall i :: 0 <= i < |steps| ==> Enabled(run[i], steps[i]) && run[i + 1] == Do(env, run[i], steps[i])
  }

  lemma {:induction false} Reachable(env: Etcd, run: seq<Sys>, steps: seq<Step>, k: nat)
    requires IsRun(env, run, steps) && k < |run|
    ensures Inv(env, run[k])
  {
    if k > 0 {
      Reachable(env, run, steps, k - 1);
      InvNext(env, run[k - 1], steps[k - 1]);
      hide Inv, Do, Enabled;
    }
  }

  /** The first cause is final, and whenever the minting has failed there is one. */
  lemma {:induction false} FirstCauseStays(env: Etcd, run: seq<Sys>, steps: seq<Step>, k: nat, j: nat)
    requires IsRun(env, run, steps) && k <= j < |run|
    ensures run[k].b.cause.Some? ==> run[j].b.cause == run[k].b.cause
    ensures run[k].mint == NotMinted ==> run[k].b.cause.Some?
  {
    hide Attempt;
    if k < j {
      FirstCauseStays(env, run, steps, k, j - 1);
      CauseStep(env, run[j - 1], steps[j - 1]);
    } else if k > 0 {
      FirstCauseStays(env, run, steps, k - 1, k - 1);
      CauseStep(env, run[k - 1], steps[k - 1]);
    }
    hide Do, Enabled;
  }

  lemma CauseStep(env: Etcd, s: Sys, step: Step)
    requires Enabled(s, step)
    ensures s.b.cause.Some? ==> Do(env, s, step).b.cause == s.b.cause
    ensures (s.mint == NotMinted ==> s.b.cause.Some?) && Do(env, s, step).mint == NotMinted ==> Do(env, s, step).b.cause.Some?
  {
    hide Attempt;
  }

  /** Listener agreement: in every interleaving of setters, accessors and minting, and at every instant after
      the minting, the server's client URLs are the bound client listener's URL or both are absent, and its
      advertised peer URLs are the surviving override, or else the bound peer listener's URL; never empty. */
  lemma ListenerAgreement(env: Etcd, run: seq<Sys>, steps: seq<Step>, k: nat)
    requires IsRun(env, run, steps) && k < |run| && run[k].mint.Minted?
    ensures var c, cfg := run[k].b.core, run[k].mint.cfg;
      && cfg.clientURLs == (if c.clientListener.Some? then [ListenerUrl(c.clientListener.value)] else [])
      && cfg.peerURLs == (if c.peerAdvertise != [] then c.peerAdvertise
                          else if c.peerListener.Some? then [ListenerUrl(c.peerListener.value)] else [])
      && cfg.peerURLs != []
      && (c.clientListener.Some? ==> Print(cfg.clientURLs[0]) == (if c.clientListener.value.tls then "https://" else "http://")
                                                                 + c.clientListener.value.addr)
  {
    Reachable(env, run, steps, k);
    if run[k].b.core.clientListener.Some? { ListenerUrlText(run[k].b.core.clientListener.value); }
    hide ListenerUrl, Print;
  }

  /** A listener setter that finds its side materialised changes nothing but the cause. */
  lemma LateSetterLatches(env: Etcd, s: Sys, e: Edit)
    requires s.held == None && s.b.cause == None
    requires (e.Client? && s.client != Idle) || (e.Peer? && s.peer != Idle)
    ensures var s' := Do(env, Do(env, s, Acquire(e)), Release);
      s' == s.(b := s.b.(cause := Some(Late)))
  {
    hide SingleMember, Derive, ListenerUrl;
  }
}
