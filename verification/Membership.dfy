/** The cluster's membership, as etcd keeps it: a fold over the committed raft log.
    etcd itself is not part of this model; this fold is what the rest assumes of it. */
module Membership {

  /** A raft member ID; 0 is no member's. */
  type Id = nat

  datatype Member = Member(name: string, clientURLs: seq<string>, peerURLs: seq<string>, isLearner: bool)

  type Members = map<Id, Member>

  datatype Entry =
    | Add(id: Id, peerURLs: seq<string>, learner: bool)
    | Promote(id: Id)
    | Remove(id: Id)
    | Publish(id: Id, name: string, clientURLs: seq<string>)  // a started member announces its attributes
    | Other                                                   // key-value, lease and lock traffic

  /** A member that has been added but whose server has not yet published itself. */
  predicate UnstartedLearner(m: Member) {
    m.isLearner && m.name == ""
  }

  function Apply(ms: Members, e: Entry): Members {
    match e
    case Add(id, urls, learner) => ms[id := Member("", [], urls, learner)]
    case Promote(id) => if id in ms then ms[id := ms[id].(isLearner := false)] else ms
    case Remove(id) => ms - {id}
    case Publish(id, name, urls) => if id in ms then ms[id := ms[id].(name := name, clientURLs := urls)] else ms
    case Other => ms
  }

  /** What one entry changes: an add brings in an unnamed member, a remove takes one out, a promote makes a voter
      of one and a publish names one; of everyone else, and of every other attribute, nothing. */
  lemma EntryEffect(ms: Members, e: Entry, id: Id)
    ensures var ms' := Apply(ms, e);
      && (id in ms' <==> (e.Add? && e.id == id) || (id in ms && e != Remove(id)))
      && (e.Add? && e.id == id ==> ms'[id] == Member("", [], e.peerURLs, e.learner))
      && (id in ms && id in ms' && !(e.Add? && e.id == id) ==>
            && ms'[id].peerURLs == ms[id].peerURLs
            && ms'[id].isLearner == (ms[id].isLearner && e != Promote(id))
            && ms'[id].name == (if e.Publish? && e.id == id then e.name else ms[id].name)
            && ms'[id].clientURLs == (if e.Publish? && e.id == id then e.clientURLs else ms[id].clientURLs))
  {
  }

  function Replay(ms: Members, log: seq<Entry>): Members {
    if log == [] then ms else Apply(Replay(ms, log[..|log| - 1]), log[|log| - 1])
  }

  /** The membership after a log. */
  function At(log: seq<Entry>): Members {
    Replay(map[], log)
  }

  lemma ReplayNext(ms: Members, log: seq<Entry>, lo: nat, hi: nat)
    requires lo <= hi < |log|
    ensures Replay(ms, log[lo..hi + 1]) == Apply(Replay(ms, log[lo..hi]), log[hi])
  {
    var part := log[lo..hi + 1];
    assert part[..|part| - 1] == log[lo..hi];
  }

  lemma AtNext(log: seq<Entry>, k: nat)
    requires k < |log|
    ensures At(log[..k + 1]) == Apply(At(log[..k]), log[k])
  {
    assert log[..k + 1][..k] == log[..k];
  }

  lemma AtAppend(log: seq<Entry>, e: Entry)
    ensures At(log + [e]) == Apply(At(log), e)
  {
    assert (log + [e])[..|log|] == log;
  }

  /** Replaying the rest of a log over the membership at a point gives the membership at the end. */
  lemma {:induction false} ReplayRest(log: seq<Entry>, s: nat, t: nat)
    requires s <= t <= |log|
    ensures Replay(At(log[..s]), log[s..t]) == At(log[..t])
  {
    hide Apply;
    if s < t {
      ReplayRest(log, s, t - 1);
      ReplayNext(At(log[..s]), log, s, t - 1);
      AtNext(log, t - 1);
    }
  }
}
