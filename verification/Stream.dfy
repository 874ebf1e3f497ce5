/** The raft-stream status rewriting (v0alpha0/stream/stream.go): a stream's 200 goes over the wire as 206
    when both ends agreed on it, and neither end's etcd ever sees the 206. */
module Stream {
  import opened Text

  const OK := 200
  const PARTIAL := 206

  const RAFT_STREAM_PREFIX := "/raft/stream"

  predicate IsStream(path: string) {
    RAFT_STREAM_PREFIX <= path
  }

  /** The paths of raft's streams, and no others of its transport. */
  lemma StreamPaths()
    ensures IsStream("/raft/stream/message/8e9e05c52164694d") && IsStream("/raft/stream/msgapp/8e9e05c52164694d")
    ensures !IsStream("/raft") && !IsStream("/raft/snapshot") && !IsStream("/raft/probing") && !IsStream("/members")
  {
    assert RAFT_STREAM_PREFIX[7] == 't' && "/raft/snapshot"[7] == 'n' && RAFT_STREAM_PREFIX[1] == 'r';
  }

  /** A request; `accepts` tells whether it carries the header that negotiates the 206. */
  datatype Request = Request(path: string, accepts: bool)

  // ---- the serving side ----

  /** What a handler does to its response writer. */
  datatype Action = WriteHeader(code: nat) | WriteBody | Flush

  /** The status an untouched response writer sends: the first header's, or the implicit 200 of a body or flush. */
  function Status(actions: seq<Action>): nat {
    if actions == [] || !actions[0].WriteHeader? then OK else actions[0].code
  }

  class ResponseWriter {
    var sent: Option<nat>

    constructor ()
      ensures sent == None
    {
      sent := None;
    }

    method Perform(a: Action)
      modifies this
      ensures sent == if old(sent).Some? then old(sent) else Some(Status([a]))
    {
      if sent == None { sent := Some(match a case WriteHeader(code) => code case _ => OK); }
    }
  }

  /** The status rewriter wraps a response writer: only an explicit 200 is rewritten. */
  method Rewrite(w: ResponseWriter, a: Action)
    modifies w
    ensures w.sent == if old(w.sent).Some? then old(w.sent) else Some(if a == WriteHeader(OK) then PARTIAL else Status([a]))
  {
    match a
    case WriteHeader(code) => w.Perform(WriteHeader(if code == OK then PARTIAL else code));
    case _ => w.Perform(a);
  }

  predicate Negotiated(r: Request) {
    IsStream(r.path) && r.accepts
  }

  /** The status on the wire: `wrapped` tells whether the handler is behind this package's. */
  function Wire(wrapped: bool, r: Request, actions: seq<Action>): nat {
    if wrapped && Negotiated(r) && actions != [] && actions[0] == WriteHeader(OK) then PARTIAL else Status(actions)
  }

  /** Serving a request with an inner handler that performs the given actions. */
  method Serve(wrapped: bool, r: Request, actions: seq<Action>) returns (wire: nat)
    ensures wire == Wire(wrapped, r, actions)
  {
    var w := new ResponseWriter();
    var rewriting := wrapped && IsStream(r.path) && r.accepts;
    for i := 0 to |actions|
      invariant i == 0 ==> w.sent == None
      invariant i > 0 ==> w.sent == Some(Wire(wrapped, r, actions))
    {
      if rewriting {
        Rewrite(w, actions[i]);
      } else {
        w.Perform(actions[i]);
      }
    }
    return if w.sent.Some? then w.sent.value else OK;
  }

  // ---- the dialing side ----

  /** What a dialer puts on the wire: accept206 marks its stream dials, a stock transport marks nothing. */
  function Sent(wrapped: bool, path: string): Request {
    Request(path, wrapped && IsStream(path))
  }

  /** What a dialer sees of a response's status. */
  function Observed(wrapped: bool, path: string, wire: nat): nat {
    if wrapped && wire == PARTIAL && IsStream(path) then OK else wire
  }

  /** One dial between any two nodes, each wrapped or stock. */
  function Dial(dialer: bool, server: bool, path: string, actions: seq<Action>): nat {
    Observed(dialer, path, Wire(server, Sent(dialer, path), actions))
  }

  /** Across any mix of wrapped and stock nodes and any path, the dialer sees exactly the status the handler
      meant; only a wrapped stream dial to a handler that itself writes 206 sees 200 in its place. */
  lemma DialSeesHandler(dialer: bool, server: bool, path: string, actions: seq<Action>)
    ensures Dial(dialer, server, path, actions) ==
      if dialer && IsStream(path) && Status(actions) == PARTIAL then OK else Status(actions)
  {
  }

  /** A dialer observes a 206 on a stream path exactly when it is stock and the handler wrote that 206 itself,
      which etcd's stream handler never does. */
  lemma Observes206Iff(dialer: bool, server: bool, path: string, actions: seq<Action>)
    requires IsStream(path)
    ensures Dial(dialer, server, path, actions) == PARTIAL <==> !dialer && Status(actions) == PARTIAL
  {
  }

  /** A handler's 200 crosses the wire as 206 exactly when both ends are wrapped, the path is a stream's, and
      the 200 was written out. */
  lemma Wire206Iff(dialer: bool, server: bool, path: string, actions: seq<Action>)
    requires Status(actions) == OK
    ensures Wire(server, Sent(dialer, path), actions) == PARTIAL
       <==> dialer && server && IsStream(path) && actions != [] && actions[0] == WriteHeader(OK)
  {
  }
}

/** Installing the dialing side in a running transport: stop every peer, swap the round tripper, start the
    peers again (v0alpha0/stream/stream.go Intercept). */
module Intercept {
  import opened Membership

  datatype Rt = Stock | Wrapped

  // ---- the call itself ----

  /** rafthttp's transport, as far as Intercept uses it. */
  class Transport {
    var rt: Rt
    var peers: map<Id, seq<string>>

    constructor (rt: Rt, peers: map<Id, seq<string>>)
      ensures this.rt == rt && this.peers == peers
    {
      this.rt, this.peers := rt, peers;
    }

    method RemoveAllPeers()
      modifies this`peers
      ensures peers == map[]
    {
      peers := map[];
    }

    /** Adding a peer that is already there changes nothing. */
    method AddPeer(id: Id, urls: seq<string>)
      modifies this`peers
      ensures peers == if id in old(peers) then old(peers) else old(peers)[id := urls]
    {
      if id !in peers { peers := peers[id := urls]; }
    }
  }

  datatype ListedMember = ListedMember(id: Id, urls: seq<string>)

  predicate Distinct(ms: seq<ListedMember>) {
    forall i, j :: 0 <= i < j < |ms| ==> ms[i].id != ms[j].id
  }

  /** The members whose peers were held, other than this one. */
  predicate Captured(ms: seq<ListedMember>, self: Id, peers: set<Id>, m: ListedMember) {
    m in ms && m.id != self && m.id in peers
  }

  /** `reachable` is whether the transport's field was found. Every held peer that is another member is held
      again, at that member's URLs; any other is gone. A second call changes nothing. */
  method Intercept(tr: Transport, reachable: bool, ms: seq<ListedMember>, self: Id)
    requires Distinct(ms)
    modifies tr
    ensures tr.rt == if reachable then Wrapped else old(tr.rt)
    ensures !reachable || old(tr.rt) == Wrapped ==> tr.peers == old(tr.peers)
    ensures reachable && old(tr.rt) == Stock ==>
      forall id :: id in tr.peers <==> exists m :: Captured(ms, self, old(tr.peers.Keys), m) && m.id == id
    ensures reachable && old(tr.rt) == Stock ==>
      forall m :: Captured(ms, self, old(tr.peers.Keys), m) ==> m.id in tr.peers && tr.peers[m.id] == m.urls
  {
    if !reachable { return; }
    if tr.rt == Wrapped { return; }
    ghost var held := tr.peers.Keys;
    var readd: seq<ListedMember> := [];
    for i := 0 to |ms|
      invariant tr.rt == Stock && tr.peers == old(tr.peers)
      invariant forall m :: m in readd <==> Captured(ms[..i], self, held, m)
      invariant Distinct(readd)
    {
      assert forall m :: m in ms[..i + 1] <==> m in ms[..i] || m == ms[i];
      if ms[i].id == self || ms[i].id !in tr.peers { continue; }
      forall j | 0 <= j < |readd| ensures readd[j].id != ms[i].id {
        assert readd[j] in readd;
      }
      readd := readd + [ms[i]];
    }
    assert ms[..|ms|] == ms;
    tr.RemoveAllPeers();
    tr.rt := Wrapped;
    for i := 0 to |readd|
      invariant tr.rt == Wrapped
      invariant forall id :: id in tr.peers <==> exists j :: 0 <= j < i && readd[j].id == id
      invariant forall j :: 0 <= j < i ==> readd[j].id in tr.peers && tr.peers[readd[j].id] == readd[j].urls
    {
      tr.AddPeer(readd[i].id, readd[i].urls);
    }
  }

  // ---- and the goroutines it runs beside ----

  /** A reader goroutine of a peer. An interface value is two words, read one at a time. */
  datatype Reader = Looping | HalfRead(typ: Rt) | Dialing(typ: Rt, data: Rt) | Exited

  datatype Key = Key(peer: Id, n: nat)

  datatype Pc = Before | Removing | HalfSwapped | Readding | Returned

  /** `start` is the transport's peers at the call; `others` the cluster's members besides this one. */
  datatype Setting = Setting(others: set<Id>, start: set<Id>, rt: Rt, reachable: bool)

  datatype State = State(typ: Rt, data: Rt, peers: set<Id>, stopping: set<Id>, readers: map<Key, Reader>, readd: set<Id>, pc: Pc)

  datatype Step =
    | ReadType(k: Key)
    | ReadData(k: Key)
    | Redial(k: Key)
    | Exit(k: Key)                     // only between dials, once its peer is being stopped
    | Call                             // also a second call
    | StopPeer(p: Id)
    | RemovePeer(p: Id)                // returns from peer.stop: every reader of the peer is done
    | WriteType
    | WriteData
    | AddPeer(p: Id, ns: set<nat>)     // starts fresh readers
    | Return

  predicate Is(s: State, k: Key, r: Reader) {
    k in s.readers && s.readers[k] == r
  }

  predicate AllDone(s: State, p: Id) {
    forall k :: k in s.readers && k.peer == p ==> s.readers[k] == Exited
  }

  predicate Enabled(g: Setting, s: State, step: Step) {
    match step
    case ReadType(k) => Is(s, k, Looping)
    case ReadData(k) => k in s.readers && s.readers[k].HalfRead?
    case Redial(k) => k in s.readers && s.readers[k].Dialing?
    case Exit(k) => k in s.readers && k.peer in s.stopping && (s.readers[k].Looping? || s.readers[k].Dialing?)
    case Call => s.pc == Before || s.pc == Returned
    case StopPeer(p) => s.pc == Removing && p in s.peers && p !in s.stopping
    case RemovePeer(p) => s.pc == Removing && p in s.peers && p in s.stopping && AllDone(s, p)
    case WriteType => s.pc == Removing && s.peers == {}
    case WriteData => s.pc == HalfSwapped
    case AddPeer(p, ns) => s.pc == Readding && p in s.readd && forall n :: n in ns ==> Key(p, n) !in s.readers
    case Return => s.pc == Readding && s.readd == {}
  }

  function Do(g: Setting, s: State, step: Step): State
    requires Enabled(g, s, step)
  {
    match step
    case ReadType(k) => s.(readers := s.readers[k := HalfRead(s.typ)])
    case ReadData(k) => s.(readers := s.readers[k := Dialing(s.readers[k].typ, s.data)])
    case Redial(k) => s.(readers := s.readers[k := Looping])
    case Exit(k) => s.(readers := s.readers[k := Exited])
    case Call =>
      if !g.reachable || s.typ == Wrapped then s.(pc := Returned)
      else s.(pc := Removing, readd := s.peers * g.others)
    case StopPeer(p) => s.(stopping := s.stopping + {p})
    case RemovePeer(p) => s.(peers := s.peers - {p}, stopping := s.stopping - {p})
    case WriteType => s.(typ := Wrapped, pc := HalfSwapped)
    case WriteData => s.(data := Wrapped, pc := Readding)
    case AddPeer(p, ns) =>
      s.(peers := s.peers + {p}, readd := s.readd - {p},
         readers := s.readers + map k | k in Fresh(p, ns) :: Looping)
    case Return => s.(pc := Returned)
  }

  function Fresh(p: Id, ns: set<nat>): set<Key> {
    set n | n in ns :: Key(p, n)
  }

  predicate Initial(g: Setting, s: State) {
    && s.typ == g.rt && s.data == g.rt && s.peers == g.start && s.stopping == {} && s.readd == {} && s.pc == Before
    && forall k :: k in s.readers ==> k.peer in s.peers && Sees(s.readers[k], g.rt)
  }

  /** Whatever a reader has read of the round tripper is `rt`. */
  predicate Sees(r: Reader, rt: Rt) {
    (r.HalfRead? || r.Dialing? ==> r.typ == rt) && (r.Dialing? ==> r.data == rt)
  }

  /** The round tripper as every reader sees it. */
  function Current(g: Setting, s: State): Rt {
    match s.pc
    case Readding => Wrapped
    case Returned => if g.reachable then Wrapped else g.rt
    case _ => g.rt
  }

  predicate PeersOk(g: Setting, s: State) {
    match s.pc
    case Before => s.peers == g.start
    case Removing => s.readd == g.start * g.others && g.reachable && g.rt == Stock
    case HalfSwapped => s.peers == {} && s.readd == g.start * g.others && g.reachable && g.rt == Stock
    case Readding => s.peers + s.readd == g.start * g.others && g.reachable && g.rt == Stock
    case Returned => s.peers == if g.reachable && g.rt == Stock then g.start * g.others else g.start
  }

  predicate Inv(g: Setting, s: State) {
    && PeersOk(g, s)
    && (s.typ == if s.pc == HalfSwapped then Wrapped else Current(g, s))
    && s.data == Current(g, s)
    && (forall k :: k in s.readers && s.readers[k] != Exited ==> k.peer in s.peers && Sees(s.readers[k], Current(g, s)))
  }

  lemma InvNext(g: Setting, s: State, step: Step)
    requires Inv(g, s) && Enabled(g, s, step)
    ensures Inv(g, Do(g, s, step))
  {
  }

  ghost predicate IsRun(g: Setting, run: seq<State>, steps: seq<Step>) {
    && |run| == |steps| + 1 && Initial(g, run[0])
    && forall i :: 0 <= i < |steps| ==> Enabled(g, run[i], steps[i]) && run[i + 1] == Do(g, run[i], steps[i])
  }

  lemma {:induction false} Reachable(g: Setting, run: seq<State>, steps: seq<Step>, k: nat)
    requires IsRun(g, run, steps) && k < |run|
    ensures Inv(g, run[k])
  {
    if k > 0 {
      Reachable(g, run, steps, k - 1);
      InvNext(g, run[k - 1], steps[k - 1]);
      hide Inv, Do, Enabled;
    }
  }

  predicate Reads(step: Step) {
    step.ReadType? || step.ReadData?
  }

  /** While the field is being written, no reader can read it: none is left. */
  lemma NoReadDuringSwap(g: Setting, run: seq<State>, steps: seq<Step>, k: nat)
    requires IsRun(g, run, steps) && k < |steps|
    requires run[k].pc == HalfSwapped || steps[k].WriteType? || steps[k].WriteData?
    ensures forall step :: Reads(step) ==> !Enabled(g, run[k], step)
  {
    Reachable(g, run, steps, k);
  }

  /** No dial ever goes through a torn value; before the restart every dial uses what the transport came with,
      and from then on, the wrapper. */
  lemma DialsAreWhole(g: Setting, run: seq<State>, steps: seq<Step>, k: nat, r: Key)
    requires IsRun(g, run, steps) && k < |run| && r in run[k].readers && run[k].readers[r].Dialing?
    ensures run[k].readers[r].typ == run[k].readers[r].data == Current(g, run[k])
    ensures g.reachable && (run[k].pc == Readding || run[k].pc == Returned) ==> run[k].readers[r].data == Wrapped
  {
    Reachable(g, run, steps, k);
  }

  /** The peer set is restored exactly when every held peer was another member of the cluster. */
  lemma PeersRestored(g: Setting, run: seq<State>, steps: seq<Step>, k: nat)
    requires IsRun(g, run, steps) && k < |run| && run[k].pc == Returned && g.reachable && g.rt == Stock
    ensures run[k].peers == g.start <==> g.start <= g.others
  {
    Reachable(g, run, steps, k);
  }

  /** A second call, or one that cannot reach the field, changes nothing. */
  lemma CallAgain(g: Setting, run: seq<State>, steps: seq<Step>, k: nat)
    requires IsRun(g, run, steps) && k < |steps| && steps[k].Call? && run[k].pc == Returned
    ensures run[k + 1] == run[k]
  {
    Reachable(g, run, steps, k);
  }
}
