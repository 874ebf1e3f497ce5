/** The configuration builder: every setter goes through mutate, which latches the first failure
    (v0alpha0/builder.go, v0alpha0/v0alpha0.go). */
module Builder {
  import opened Text
  import opened Urls

  // ---- configuration ----

  datatype Listener = Listener(addr: string, tls: bool)

  /** listenerURL. */
  function ListenerUrl(l: Listener): Url {
    Url(if l.tls then "https" else "http", None, l.addr, "", None, "")
  }

  /** A listener's URL is its address under https if it carries TLS, under http otherwise. */
  lemma ListenerUrlText(l: Listener)
    ensures Print(ListenerUrl(l)) == (if l.tls then "https://" else "http://") + l.addr
  {
    var scheme := ListenerUrl(l).scheme;
    assert PrintRest(ListenerUrl(l)) == "//" + l.addr by {
      assert "" + l.addr == l.addr && ("//" + l.addr) + "" == "//" + l.addr;
    }
    hide PrintRest;
    assert scheme + [':'] + ("//" + l.addr) == scheme + "://" + l.addr;
  }

  /** A listener factory: none, one that hands out a given listener, or the auto-bind default. */
  datatype Factory = Nothing | Hands(l: Listener) | Binds

  datatype Config = Config(
    name: string, dir: string, token: string, initialCluster: string, existing: bool, logLevel: string,
    listenClient: seq<Url>, advertiseClient: seq<Url>, listenPeer: seq<Url>, advertisePeer: seq<Url>)

  /** What the builder guards with its mutex, besides the derived server configuration. */
  datatype Core = Core(
    cfg: Config, clusterSet: bool, peerAdvertise: seq<Url>,
    clientFactory: Factory, clientHttp: bool, clientListener: Option<Listener>,
    peerFactory: Factory, peerHttp: bool, peerListener: Option<Listener>)

  datatype ServerConfig = ServerConfig(
    name: string, dataDir: string, token: string, newCluster: bool,
    clientURLs: seq<Url>, peerURLs: seq<Url>, initialPeers: string)

  datatype Error = Late | NoPeerAddress | BadLogLevel | Invalid | Underivable | Environment

  datatype Result<+T> = Ok(value: T) | Err(error: Error)

  /** etcd's own judgement of a configuration: whether it validates, and what its initial cluster means. */
  datatype Etcd = Etcd(valid: Config -> bool, peers: Config -> Option<string>)

  function Derive(env: Etcd, cfg: Config): Result<ServerConfig> {
    match env.peers(cfg)
    case None => Err(Underivable)
    case Some(m) =>
      Ok(ServerConfig(cfg.name, cfg.dir, cfg.token, !cfg.existing, cfg.advertiseClient, cfg.advertisePeer, m))
  }

  // ---- mutations ----

  /** The function a setter, or an accessor, hands to mutate. `late` is the materialised flag as it read it. */
  datatype Edit =
    | Nop
    | Name(name: string)
    | Dir(dir: string)
    | Token(token: string)
    | Cluster(cluster: string)
    | Join                                                        // a join pins the membership
    | Log(level: string, known: bool)
    | Client(lis: Option<Listener>, late: bool)
    | Peer(lis: Option<Listener>, advertise: seq<Url>, late: bool)
    | ClientBound(bound: Listener)
    | PeerBound(bound: Listener)

  function WithClientUrls(c: Core, urls: seq<Url>): Core {
    c.(cfg := c.cfg.(listenClient := urls, advertiseClient := urls))
  }

  /** applyPeerURLs. */
  function WithPeerUrls(c: Core, l: Listener): Core {
    var u := ListenerUrl(l);
    c.(cfg := c.cfg.(listenPeer := [u], advertisePeer := if c.peerAdvertise != [] then c.peerAdvertise else [u]))
  }

  /** What stands in for a bind URL when the caller serves the peer side. */
  const PLACEHOLDER := Url("http", None, "127.0.0.1:2380", "", None, "")

  function Apply(c: Core, e: Edit): Result<Core> {
    match e
    case Nop => Ok(c)
    case Name(n) => Ok(c.(cfg := c.cfg.(name := n)))
    case Dir(d) => Ok(c.(cfg := c.cfg.(dir := d)))
    case Token(t) => Ok(c.(cfg := c.cfg.(token := t)))
    case Cluster(s) => Ok(c.(clusterSet := true, cfg := c.cfg.(initialCluster := s)))
    case Join => Ok(c.(clusterSet := true, cfg := c.cfg.(existing := true)))
    case Log(level, known) => if known then Ok(c.(cfg := c.cfg.(logLevel := level))) else Err(BadLogLevel)
    case Client(lis, late) =>
      if late then Err(Late)
      else if lis.None? then Ok(WithClientUrls(c.(clientFactory := Nothing, clientHttp := false), []))
      else Ok(WithClientUrls(c.(clientFactory := Hands(lis.value)), [ListenerUrl(lis.value)]))
    case Peer(lis, adv, late) =>
      if late then Err(Late)
      else if lis.Some? then Ok(WithPeerUrls(c.(peerFactory := Hands(lis.value), peerAdvertise := adv), lis.value))
      else if adv == [] then Err(NoPeerAddress)
      else Ok(c.(peerFactory := Nothing, peerHttp := false, peerAdvertise := adv,
                 cfg := c.cfg.(advertisePeer := adv, listenPeer := [PLACEHOLDER])))
    case ClientBound(l) => Ok(WithClientUrls(c.(clientListener := Some(l)), [ListenerUrl(l)]))
    case PeerBound(l) => Ok(WithPeerUrls(c.(peerListener := Some(l)), l))
  }

  function Parts(name: string, urls: seq<Url>): (p: seq<string>)
    ensures |p| == |urls|
  {
    seq(|urls|, i requires 0 <= i < |urls| => name + ['='] + Print(urls[i]))
  }

  function SingleMember(name: string, urls: seq<Url>): string {
    Text.Join(Parts(name, urls), ',')
  }

  /** Single-member auto-sync. */
  function Synced(c: Core): Core {
    if c.clusterSet || c.cfg.advertisePeer == [] then c
    else c.(cfg := c.cfg.(initialCluster := SingleMember(c.cfg.name, c.cfg.advertisePeer)))
  }

  datatype State = State(core: Core, srvcfg: ServerConfig, cause: Option<Error>)

  /** What one mutation makes of a core: the core it leaves, and the server configuration or the failure. */
  function Attempt(env: Etcd, c: Core, e: Edit): (Core, Result<ServerConfig>) {
    match Apply(c, e)
    case Err(x) => (c, Err(x))
    case Ok(edited) =>
      var next := Synced(edited);
      (next, if env.valid(next.cfg) then Derive(env, next.cfg) else Err(Invalid))
  }

  function Mutated(env: Etcd, s: State, e: Edit): State {
    if s.cause.Some? then s
    else
      var (core, r) := Attempt(env, s.core, e);
      match r
      case Ok(sc) => State(core, sc, None)
      case Err(x) => State(core, s.srvcfg, Some(x))
  }

  /** One assignment for every advertised URL. */
  method ListMember(name: string, urls: seq<Url>) returns (cluster: string)
    ensures cluster == SingleMember(name, urls)
  {
    hide Print;
    var parts := [];
    for i := 0 to |urls|
      invariant parts == Parts(name, urls)[..i]
    {
      parts := parts + [name + ['='] + Print(urls[i])];
    }
    assert parts == Parts(name, urls);
    hide Text.Join;
    cluster := Text.Join(parts, ',');
  }

  class EtcdImpl {
    const env: Etcd
    var core: Core
    var srvcfg: ServerConfig
    var cause: Option<Error>

    constructor (env: Etcd, core: Core, srvcfg: ServerConfig)
      ensures this.env == env && Now() == State(core, srvcfg, None)
    {
      this.env, this.core, this.srvcfg, this.cause := env, core, srvcfg, None;
    }

    function Now(): State
      reads this
    {
      State(core, srvcfg, cause)
    }

    method Mutate(e: Edit)
      modifies this
      ensures Now() == Mutated(env, old(Now()), e)
    {
      if cause.Some? { return; }
      var edited := Apply(core, e);
      if edited.Err? {
        cause := Some(edited.error);
        return;
      }
      core := edited.value;
      if !core.clusterSet && |core.cfg.advertisePeer| > 0 {
        var cluster := ListMember(core.cfg.name, core.cfg.advertisePeer);
        core := core.(cfg := core.cfg.(initialCluster := cluster));
      }
      if !env.valid(core.cfg) {
        cause := Some(Invalid);
        return;
      }
      var sc := Derive(env, core.cfg);
      if sc.Err? {
        cause := Some(sc.error);
        return;
      }
      srvcfg := sc.value;
    }
  }

  // ---- the builder refines a fold ----

  function Run(env: Etcd, s: State, edits: seq<Edit>): State {
    if edits == [] then s else Mutated(env, Run(env, s, edits[..|edits| - 1]), edits[|edits| - 1])
  }

  /** The core after edits, none of which is taken to fail. */
  function CoreAfter(env: Etcd, c: Core, edits: seq<Edit>): Core {
    if edits == [] then c else Attempt(env, CoreAfter(env, c, edits[..|edits| - 1]), edits[|edits| - 1]).0
  }

  /** How the n-th edit fares after the ones before it. */
  function Outcome(env: Etcd, c: Core, edits: seq<Edit>, n: nat): Result<ServerConfig>
    requires n < |edits|
  {
    Attempt(env, CoreAfter(env, c, edits[..n]), edits[n]).1
  }

  /** The first n edits all succeed, and the next, if there is one, fails: n is the longest such prefix. */
  predicate LongestGood(env: Etcd, c: Core, edits: seq<Edit>, n: nat) {
    && n <= |edits|
    && (forall i :: 0 <= i < n ==> Outcome(env, c, edits, i).Ok?)
    && (n < |edits| ==> Outcome(env, c, edits, n).Err?)
  }

  lemma {:induction false} LatchedIsFinal(env: Etcd, s: State, edits: seq<Edit>)
    requires s.cause.Some?
    ensures Run(env, s, edits) == s
  {
    if edits != [] {
      LatchedIsFinal(env, s, edits[..|edits| - 1]);
    }
  }

  lemma {:induction false} RunSplit(env: Etcd, s: State, a: seq<Edit>, b: seq<Edit>)
    ensures Run(env, s, a + b) == Run(env, Run(env, s, a), b)
  {
    hide Mutated;
    if b == [] {
      assert a + b == a;
    } else {
      RunSplit(env, s, a, b[..|b| - 1]);
      assert (a + b)[..|a + b| - 1] == a + b[..|b| - 1];
    }
  }

  lemma {:induction false} GoodPrefix(env: Etcd, s: State, edits: seq<Edit>, n: nat)
    requires s.cause == None && Derive(env, s.core.cfg) == Ok(s.srvcfg)
    requires n <= |edits| && forall i :: 0 <= i < n ==> Outcome(env, s.core, edits, i).Ok?
    ensures var r := Run(env, s, edits[..n]);
      r.cause == None && r.core == CoreAfter(env, s.core, edits[..n]) && Derive(env, r.core.cfg) == Ok(r.srvcfg)
  {
    if n > 0 {
      GoodPrefix(env, s, edits, n - 1);
      assert edits[..n][..n - 1] == edits[..n - 1];
      assert Outcome(env, s.core, edits, n - 1).Ok?;
      hide Apply, Synced;
    }
  }

  lemma LatchedAt(env: Etcd, s: State, edits: seq<Edit>, n: nat)
    requires s.cause == None && Derive(env, s.core.cfg) == Ok(s.srvcfg)
    requires LongestGood(env, s.core, edits, n)
    ensures Derive(env, CoreAfter(env, s.core, edits[..n]).cfg) == Ok(Run(env, s, edits).srvcfg)
    ensures Run(env, s, edits).cause == if n < |edits| then Some(Outcome(env, s.core, edits, n).error) else None
    ensures n < |edits| ==> Run(env, s, edits) == Run(env, s, edits[..n + 1])
  {
    GoodPrefix(env, s, edits, n);
    if n < |edits| {
      RunSnoc(env, s, edits, n);
      FailureLatches(env, Run(env, s, edits[..n]), edits[n]);
      hide Run, Mutated, Attempt, Derive;
      RunPast(env, s, edits, n + 1);
    } else {
      assert edits[..n] == edits;
    }
  }

  lemma RunSnoc(env: Etcd, s: State, edits: seq<Edit>, n: nat)
    requires n < |edits|
    ensures Run(env, s, edits[..n + 1]) == Mutated(env, Run(env, s, edits[..n]), edits[n])
  {
    hide Mutated;
    assert edits[..n + 1][..n] == edits[..n];
  }

  lemma RunPast(env: Etcd, s: State, edits: seq<Edit>, m: nat)
    requires m <= |edits| && Run(env, s, edits[..m]).cause.Some?
    ensures Run(env, s, edits) == Run(env, s, edits[..m])
  {
    hide *;
    assert edits == edits[..m] + edits[m..];
    RunSplit(env, s, edits[..m], edits[m..]);
    LatchedIsFinal(env, Run(env, s, edits[..m]), edits[m..]);
  }

  lemma FailureLatches(env: Etcd, s: State, e: Edit)
    requires s.cause == None && Attempt(env, s.core, e).1.Err?
    ensures Mutated(env, s, e).cause == Some(Attempt(env, s.core, e).1.error)
    ensures Mutated(env, s, e).srvcfg == s.srvcfg
  {
    hide Attempt;
  }

  lemma {:induction false} LongestExists(env: Etcd, c: Core, edits: seq<Edit>, from: nat) returns (n: nat)
    requires from <= |edits| && forall i :: 0 <= i < from ==> Outcome(env, c, edits, i).Ok?
    ensures LongestGood(env, c, edits, n)
    decreases |edits| - from
  {
    if from == |edits| || Outcome(env, c, edits, from).Err? { return from; }
    n := LongestExists(env, c, edits, from + 1);
  }

  /** The latched builder refines a fold: after any sequence of mutations, the server configuration is
      derived from the core after the longest all-successful prefix, the cause is that of the first
      failure, and whatever follows the failure has no effect at all. */
  lemma LatchedFold(env: Etcd, s: State, edits: seq<Edit>) returns (n: nat)
    requires s.cause == None && Derive(env, s.core.cfg) == Ok(s.srvcfg)
    ensures LongestGood(env, s.core, edits, n)
    ensures Derive(env, CoreAfter(env, s.core, edits[..n]).cfg) == Ok(Run(env, s, edits).srvcfg)
    ensures Run(env, s, edits).cause == if n < |edits| then Some(Outcome(env, s.core, edits, n).error) else None
    ensures n < |edits| ==> Run(env, s, edits) == Run(env, s, edits[..n + 1])
  {
    n := LongestExists(env, s.core, edits, 0);
    LatchedAt(env, s, edits, n);
    hide Run, CoreAfter, Outcome, Derive;
  }

  // ---- the initial cluster ----

  /** One assignment of an initial-cluster string, cut at its first '='. */
  function Assignment(part: string): (string, string) {
    var i := Index(part, '=');
    if i < |part| then (part[..i], part[i + 1..]) else (part, "")
  }

  function Assignments(cluster: string): seq<(string, string)> {
    var parts := Split(cluster, ',');
    seq(|parts|, i requires 0 <= i < |parts| => Assignment(parts[i]))
  }

  function Own(name: string, urls: seq<Url>): seq<(string, string)> {
    seq(|urls|, i requires 0 <= i < |urls| => (name, Print(urls[i])))
  }

  predicate Separable(name: string, urls: seq<Url>) {
    Lacks(name, ',') && Lacks(name, '=') && forall i :: 0 <= i < |urls| ==> Lacks(Print(urls[i]), ',')
  }

  lemma {:induction false} IndexAtMost(s: string, c: char, k: nat)
    requires k < |s| && s[k] == c
    ensures Index(s, c) <= k
  {
    if k > 0 && s[0] != c {
      IndexAtMost(s[1..], c, k - 1);
    }
  }

  lemma AssignmentIff(name: string, url: string)
    ensures Assignment(name + ['='] + url) == (name, url) <==> Lacks(name, '=')
  {
    var part := name + ['='] + url;
    if Lacks(name, '=') {
      Cut(name, '=', url);
    } else {
      var k :| 0 <= k < |name| && name[k] == '=';
      IndexAtMost(part, '=', k);
      assert |Assignment(part).0| < |name|;
    }
  }

  lemma PartLacks(name: string, url: string)
    ensures Lacks(name + ['='] + url, ',') <==> Lacks(name, ',') && Lacks(url, ',')
  {
    var part := name + ['='] + url;
    assert part[..|name|] == name && part[|name| + 1..] == url;
    assert forall c :: c in part <==> c in name || c == '=' || c in url;
  }

  lemma PartsLack(name: string, urls: seq<Url>)
    requires urls != []
    ensures (forall p :: p in Parts(name, urls) ==> Lacks(p, ','))
       <==> Lacks(name, ',') && forall i :: 0 <= i < |urls| ==> Lacks(Print(urls[i]), ',')
  {
    var parts := Parts(name, urls);
    forall i | 0 <= i < |urls|
      ensures Lacks(parts[i], ',') <==> Lacks(name, ',') && Lacks(Print(urls[i]), ',')
    {
      PartLacks(name, Print(urls[i]));
    }
    hide Lacks, Print;
    assert parts[0] in parts && forall i :: 0 <= i < |urls| ==> parts[i] in parts;
  }

  /** The synthesised string, split back, assigns to this name exactly its advertised URLs, all of them and
      in order; precisely when neither the name nor a URL holds a comma, nor the name an equals sign. */
  lemma SyncSplitsBack(name: string, urls: seq<Url>)
    requires urls != []
    ensures Assignments(SingleMember(name, urls)) == Own(name, urls) <==> Separable(name, urls)
  {
    var parts := Parts(name, urls);
    var back := Split(SingleMember(name, urls), ',');
    SplitJoin(parts, ',');
    PartsLack(name, urls);
    forall i | 0 <= i < |urls| ensures Assignment(parts[i]) == (name, Print(urls[i])) <==> Lacks(name, '=') {
      AssignmentIff(name, Print(urls[i]));
    }
    hide Lacks, Print, Split, Text.Join, Assignment;
    if Separable(name, urls) {
      assert back == parts;
      assert Assignments(SingleMember(name, urls)) == Own(name, urls);
    }
    if Assignments(SingleMember(name, urls)) == Own(name, urls) {
      SplitBackParts(name, urls);
      assert Assignments(SingleMember(name, urls))[0] == Own(name, urls)[0];
    }
  }

  lemma SplitBackParts(name: string, urls: seq<Url>)
    requires Assignments(SingleMember(name, urls)) == Own(name, urls)
    ensures Split(SingleMember(name, urls), ',') == Parts(name, urls)
  {
    var back := Split(SingleMember(name, urls), ',');
    assert |back| == |Assignments(SingleMember(name, urls))|;
    forall i | 0 <= i < |urls| ensures back[i] == Parts(name, urls)[i] {
      assert Assignments(SingleMember(name, urls))[i] == Own(name, urls)[i];
      PrintNotEmpty(urls[i]);
      Rejoined(back[i], name, Print(urls[i]));
    }
  }

  lemma PrintNotEmpty(u: Url)
    ensures Print(u) != ""
  {
    assert PrintRest(u) != "";
  }

  lemma Rejoined(part: string, name: string, url: string)
    requires Assignment(part) == (name, url) && url != ""
    ensures part == name + ['='] + url
  {
  }

  predicate InSync(c: Core) {
    !c.clusterSet && c.cfg.advertisePeer != [] ==>
      c.cfg.initialCluster == SingleMember(c.cfg.name, c.cfg.advertisePeer)
  }

  /** After every successful mutation of an unpinned builder, the initial cluster is this member alone,
      under every URL it advertises. */
  lemma SyncedAfter(env: Etcd, s: State, e: Edit)
    ensures Mutated(env, s, e).cause == None ==> InSync(Mutated(env, s, e).core)
  {
    hide SingleMember, Derive;
  }

  lemma SyncedKeeps(c: Core)
    ensures var c' := Synced(c); c' == c.(cfg := c.cfg.(initialCluster := c'.cfg.initialCluster))
    ensures c.clusterSet ==> Synced(c) == c
  {
    hide SingleMember;
  }

  /** Once pinned, only the explicit setter changes the initial cluster. */
  lemma PinnedStays(env: Etcd, s: State, e: Edit)
    requires s.core.clusterSet
    ensures var s' := Mutated(env, s, e);
      && s'.core.clusterSet
      && s'.core.cfg.initialCluster == (if e.Cluster? && s.cause == None then e.cluster else s.core.cfg.initialCluster)
  {
    if Apply(s.core, e).Ok? { SyncedKeeps(Apply(s.core, e).value); }
    hide Derive, Synced, ListenerUrl;
  }

  // ---- last call wins, except for serving ----

  /** edits[i] is the last client-listener call. */
  predicate LastClientCall(edits: seq<Edit>, i: int) {
    && 0 <= i < |edits| && edits[i].Client?
    && forall j :: i < j < |edits| ==> !edits[j].Client?
  }

  predicate NilClientCall(edits: seq<Edit>) {
    exists i :: 0 <= i < |edits| && edits[i].Client? && edits[i].lis == None
  }

  predicate Served(c: Core) {
    c.clientFactory != Nothing && c.clientHttp
  }

  /** Accessors have not materialised anything yet. */
  predicate Unbound(edits: seq<Edit>) {
    forall i :: 0 <= i < |edits| ==> !edits[i].ClientBound? && !edits[i].PeerBound?
  }

  lemma ClientStep(env: Etcd, s: State, e: Edit)
    requires Mutated(env, s, e).cause == None
    ensures var c, c' := s.core, Mutated(env, s, e).core;
      && s.cause == None
      && (if e.Client? then
            && c'.clientHttp == (c.clientHttp && e.lis.Some?)
            && c'.clientFactory == (if e.lis.Some? then Hands(e.lis.value) else Nothing)
            && c'.cfg.advertiseClient == (if e.lis.Some? then [ListenerUrl(e.lis.value)] else [])
          else
            && c'.clientHttp == c.clientHttp && c'.clientFactory == c.clientFactory
            && (!e.ClientBound? ==> c'.cfg.advertiseClient == c.cfg.advertiseClient))
  {
    if Apply(s.core, e).Ok? { SyncedKeeps(Apply(s.core, e).value); }
    hide Derive, Synced, ListenerUrl;
  }

  /** What an edit makes of the fields that only their own setter writes. */
  predicate FieldsSet(cfg: Config, e: Edit, cfg': Config) {
    && cfg'.name == (if e.Name? then e.name else cfg.name)
    && cfg'.dir == (if e.Dir? then e.dir else cfg.dir)
    && cfg'.token == (if e.Token? then e.token else cfg.token)
    && (cfg'.existing <==> e.Join? || cfg.existing)
    && cfg'.logLevel == (if e.Log? then e.level else cfg.logLevel)
  }

  lemma AppliedFields(c: Core, e: Edit)
    requires Apply(c, e).Ok?
    ensures FieldsSet(c.cfg, e, Apply(c, e).value.cfg)
  {
    if OnListener(e) {
      hide Apply;
      AppliedListener(c, e);
    } else {
      hide WithClientUrls, WithPeerUrls;
    }
  }

  predicate OnListener(e: Edit) {
    e.Client? || e.Peer? || e.ClientBound? || e.PeerBound?
  }

  lemma AppliedListener(c: Core, e: Edit)
    requires Apply(c, e).Ok? && OnListener(e)
    ensures var cfg' := Apply(c, e).value.cfg;
      cfg' == c.cfg.(listenClient := cfg'.listenClient, advertiseClient := cfg'.advertiseClient,
                     listenPeer := cfg'.listenPeer, advertisePeer := cfg'.advertisePeer)
  {
    hide ListenerUrl;
  }

  /** What an edit that goes through changes of the derived configuration's own fields. */
  lemma FieldStep(env: Etcd, s: State, e: Edit)
    requires Derive(env, s.core.cfg) == Ok(s.srvcfg) && Mutated(env, s, e).cause == None
    ensures var sc, s' := s.srvcfg, Mutated(env, s, e); var sc' := s'.srvcfg;
      && Derive(env, s'.core.cfg) == Ok(sc')
      && sc'.name == (if e.Name? then e.name else sc.name)
      && sc'.dataDir == (if e.Dir? then e.dir else sc.dataDir)
      && sc'.token == (if e.Token? then e.token else sc.token)
      && sc'.newCluster == (!e.Join? && sc.newCluster)
      && s'.core.cfg.logLevel == (if e.Log? then e.level else s.core.cfg.logLevel)
  {
    hide Apply, Synced;
    if Apply(s.core, e).Ok? {
      AppliedFields(s.core, e);
      SyncedKeeps(Apply(s.core, e).value);
    }
  }

  /** A joiner is configured to join, everyone else to found: the server configuration is for a new cluster
      exactly as long as no edit was a join. */
  lemma {:induction false} NewClusterIff(env: Etcd, s: State, edits: seq<Edit>)
    requires Derive(env, s.core.cfg) == Ok(s.srvcfg) && Run(env, s, edits).cause == None
    ensures Derive(env, Run(env, s, edits).core.cfg) == Ok(Run(env, s, edits).srvcfg)
    ensures Run(env, s, edits).srvcfg.newCluster
            <==> s.srvcfg.newCluster && forall i :: 0 <= i < |edits| ==> !edits[i].Join?
  {
    hide Derive, Mutated;
    if edits != [] {
      var front, e := edits[..|edits| - 1], edits[|edits| - 1];
      NotYetLatched(env, s, front, e);
      NewClusterIff(env, s, front);
      FieldStep(env, Run(env, s, front), e);
      assert forall i :: 0 <= i < |front| ==> front[i] == edits[i];
      assert forall i :: 0 <= i < |edits| ==> edits[i] == if i < |front| then front[i] else e;
    }
  }

  lemma NotYetLatched(env: Etcd, s: State, front: seq<Edit>, e: Edit)
    requires Mutated(env, Run(env, s, front), e).cause == None
    ensures Run(env, s, front).cause == None
  {
  }

  /** The last call decides: name, data directory, cluster token and log level are those of the last edit that
      set them, edits[i], whatever else was edited before, between and after. */
  lemma {:induction false} LastSetterWins(env: Etcd, s: State, edits: seq<Edit>, i: nat)
    requires Derive(env, s.core.cfg) == Ok(s.srvcfg) && Run(env, s, edits).cause == None && i < |edits|
    ensures var sc, e := Run(env, s, edits).srvcfg, edits[i];
      && (e.Name? && (forall j :: i < j < |edits| ==> !edits[j].Name?) ==> sc.name == e.name)
      && (e.Dir? && (forall j :: i < j < |edits| ==> !edits[j].Dir?) ==> sc.dataDir == e.dir)
      && (e.Token? && (forall j :: i < j < |edits| ==> !edits[j].Token?) ==> sc.token == e.token)
      && (e.Log? && (forall j :: i < j < |edits| ==> !edits[j].Log?)
          ==> Run(env, s, edits).core.cfg.logLevel == e.level && e.known)
  {
    hide Derive, Mutated;
    var front, e := edits[..|edits| - 1], edits[|edits| - 1];
    NotYetLatched(env, s, front, e);
    NewClusterIff(env, s, front);
    FieldStep(env, Run(env, s, front), e);
    WhatFails(env, Run(env, s, front), e);
    if i < |front| {
      LastSetterWins(env, s, front, i);
      assert forall j :: i < j < |front| ==> front[j] == edits[j];
    }
  }

  /** What no edit sets stays as it was. */
  lemma {:induction false} UnsetStays(env: Etcd, s: State, edits: seq<Edit>)
    requires Derive(env, s.core.cfg) == Ok(s.srvcfg) && Run(env, s, edits).cause == None
    ensures var sc := Run(env, s, edits).srvcfg;
      && ((forall i :: 0 <= i < |edits| ==> !edits[i].Name?) ==> sc.name == s.srvcfg.name)
      && ((forall i :: 0 <= i < |edits| ==> !edits[i].Dir?) ==> sc.dataDir == s.srvcfg.dataDir)
      && ((forall i :: 0 <= i < |edits| ==> !edits[i].Token?) ==> sc.token == s.srvcfg.token)
  {
    hide Derive, Mutated;
    if edits != [] {
      var front, e := edits[..|edits| - 1], edits[|edits| - 1];
      NotYetLatched(env, s, front, e);
      NewClusterIff(env, s, front);
      FieldStep(env, Run(env, s, front), e);
      UnsetStays(env, s, front);
      assert forall i :: 0 <= i < |front| ==> front[i] == edits[i];
    }
  }

  /** Which calls are refused, and as what: a listener set after its side was materialised, a peer side with
      neither listener nor address, an unknown log level. Each leaves the configuration alone. */
  lemma WhatFails(env: Etcd, s: State, e: Edit)
    requires s.cause == None
    ensures var s' := Mutated(env, s, e);
      && (s'.cause == Some(Late) <==> (e.Client? && e.late) || (e.Peer? && e.late))
      && (s'.cause == Some(NoPeerAddress) <==> e.Peer? && !e.late && e.lis.None? && e.advertise == [])
      && (s'.cause == Some(BadLogLevel) <==> e.Log? && !e.known)
      && (s'.cause == Some(Invalid) <==> Apply(s.core, e).Ok? && !env.valid(s'.core.cfg))
      && (s'.cause == Some(Underivable) <==> Apply(s.core, e).Ok? && env.valid(s'.core.cfg) && env.peers(s'.core.cfg) == None)
      && (s'.cause in {Some(Late), Some(NoPeerAddress), Some(BadLogLevel)} ==> s' == s.(cause := s'.cause))
  {
    hide Synced, ListenerUrl;
  }

  /** The last client-listener call decides the socket and the URLs, which are what the server registers. */
  lemma {:induction false} LastClientCallWins(env: Etcd, s: State, edits: seq<Edit>, i: int)
    requires Run(env, s, edits).cause == None && Unbound(edits) && LastClientCall(edits, i)
    ensures var c, lis := Run(env, s, edits).core, edits[i].lis;
      && c.clientFactory == (if lis.Some? then Hands(lis.value) else Nothing)
      && c.cfg.advertiseClient == (if lis.Some? then [ListenerUrl(lis.value)] else [])
  {
    var front, e := edits[..|edits| - 1], edits[|edits| - 1];
    ClientStep(env, Run(env, s, front), e);
    hide Mutated, ListenerUrl;
    if i < |edits| - 1 {
      LastClientCallWins(env, s, front, i);
    }
  }

  lemma AppliedPeer(c: Core, e: Edit)
    requires Apply(c, e).Ok?
    ensures var c' := Synced(Apply(c, e).value);
      if e.Peer? then
        && c'.peerFactory == (if e.lis.Some? then Hands(e.lis.value) else Nothing)
        && c'.peerHttp == (c.peerHttp && e.lis.Some?)
        && c'.cfg.listenPeer == [if e.lis.Some? then ListenerUrl(e.lis.value) else PLACEHOLDER]
        && c'.cfg.advertisePeer == (if e.advertise != [] then e.advertise else [ListenerUrl(e.lis.value)])
      else
        && c'.peerFactory == c.peerFactory && c'.peerHttp == c.peerHttp
        && (!e.PeerBound? ==>
              c'.cfg.listenPeer == c.cfg.listenPeer && c'.cfg.advertisePeer == c.cfg.advertisePeer)
  {
    hide Synced, ListenerUrl;
    SyncedKeeps(Apply(c, e).value);
  }

  /** The last peer-listener call, edits[i], decides the socket, the listen URL and what the server advertises:
      the override if it names one, else the listener's own address. */
  lemma {:induction false} LastPeerCallWins(env: Etcd, s: State, edits: seq<Edit>, i: nat)
    requires Derive(env, s.core.cfg) == Ok(s.srvcfg) && Run(env, s, edits).cause == None && Unbound(edits)
    requires i < |edits| && edits[i].Peer? && forall j :: i < j < |edits| ==> !edits[j].Peer?
    ensures (edits[i].lis.Some? || edits[i].advertise != []) && !edits[i].late
    ensures var c, lis, adv := Run(env, s, edits).core, edits[i].lis, edits[i].advertise;
      && c.peerFactory == (if lis.Some? then Hands(lis.value) else Nothing)
      && c.cfg.listenPeer == [if lis.Some? then ListenerUrl(lis.value) else PLACEHOLDER]
      && c.cfg.advertisePeer == (if adv != [] then adv else [ListenerUrl(lis.value)])
      && Run(env, s, edits).srvcfg.peerURLs == c.cfg.advertisePeer
  {
    hide Apply, Synced, Derive, ListenerUrl;
    var front, e := edits[..|edits| - 1], edits[|edits| - 1];
    var was := Run(env, s, front);
    AppliedPeer(was.core, e);
    NewClusterIff(env, s, edits);
    DerivedUrls(env, Run(env, s, edits));
    WhatFails(env, was, e);
    if i < |front| {
      LastPeerCallWins(env, s, front, i);
    }
  }

  lemma DerivedUrls(env: Etcd, s: State)
    requires Derive(env, s.core.cfg) == Ok(s.srvcfg)
    ensures s.srvcfg.peerURLs == s.core.cfg.advertisePeer && s.srvcfg.clientURLs == s.core.cfg.advertiseClient
    ensures env.peers(s.core.cfg) == Some(s.srvcfg.initialPeers)
  {
  }

  /** But it does not decide serving: from the defaults, the client side is served exactly when no call
      ever passed nil, whatever the last one passed. */
  lemma {:induction false} ServedIff(env: Etcd, s: State, edits: seq<Edit>)
    requires Run(env, s, edits).cause == None && Served(s.core)
    ensures Served(Run(env, s, edits).core) <==> !NilClientCall(edits)
    ensures Run(env, s, edits).core.clientHttp <==> !NilClientCall(edits)
  {
    if edits != [] {
      var front, e := edits[..|edits| - 1], edits[|edits| - 1];
      ClientStep(env, Run(env, s, front), e);
      hide Mutated, ListenerUrl;
      ServedIff(env, s, front);
      if NilClientCall(front) {
        var i :| 0 <= i < |front| && front[i].Client? && front[i].lis == None;
        assert edits[i] == front[i];
      }
      if NilClientCall(edits) {
        var i :| 0 <= i < |edits| && edits[i].Client? && edits[i].lis == None;
        assert i == |front| || front[i] == edits[i];
      }
    }
  }

  /** A listener set after nil is bound and advertised, and served by nobody. */
  lemma NilThenListenerWitness(env: Etcd, s: State, l: Listener)
    requires Served(s.core)
    requires Run(env, s, [Client(None, false), Client(Some(l), false)]).cause == None
    ensures var c := Run(env, s, [Client(None, false), Client(Some(l), false)]).core;
      && c.clientFactory == Hands(l) && c.cfg.advertiseClient == [ListenerUrl(l)] && !Served(c)
  {
    var edits := [Client(None, false), Client(Some(l), false)];
    LastClientCallWins(env, s, edits, 1);
    ServedIff(env, s, edits);
    assert edits[0].lis == None;
  }
}
