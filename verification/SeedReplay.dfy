/** A joiner's seed: the membership the add reported, anchored at the snapshot's raft index, and what
    replaying the log from there makes of it (v0alpha0/join/join.go, v0alpha0/peer.go). */
module SeedReplay {
  import opened Membership

  /** The seed's members: the leader's list, verbatim but for the joiner's own name. */
  function Seed(listed: Members, self: Id, name: string): Members {
    if self in listed then listed[self := listed[self].(name := name)] else listed
  }

  /** Equal memberships, up to the name of one member. */
  predicate Agree(a: Members, b: Members, self: Id) {
    && a.Keys == b.Keys
    && forall id :: id in a ==>
      a[id] == (if id == self then b[id].(name := a[id].name) else b[id])
  }

  lemma {:induction false} AgreeReplay(a: Members, b: Members, self: Id, log: seq<Entry>)
    requires Agree(a, b, self)
    ensures Agree(Replay(a, log), Replay(b, log), self)
    decreases |log|
  {
    if log != [] {
      AgreeReplay(a, b, self, log[..|log| - 1]);
    }
  }

  /** The last attributes a member published in a window, if it published at all. */
  function LastPublish(log: seq<Entry>, lo: nat, hi: nat, id: Id): (e: Entry)
    requires lo <= hi <= |log|
    ensures e.Publish? || e == Other
    ensures e.Publish? ==> e.id == id
  {
    if lo == hi then Other
    else if log[hi - 1].Publish? && log[hi - 1].id == id then log[hi - 1]
    else LastPublish(log, lo, hi - 1, id)
  }

  /** A promote or a remove that changes the membership it meets. */
  predicate Reconfigures(ms: Members, e: Entry) {
    (e.Promote? && e.id in ms && ms[e.id].isLearner) || (e.Remove? && e.id in ms)
  }

  predicate KeepsAttributes(m: Member, e: Entry, nameFree: bool) {
    e.Publish? ==> e.clientURLs == m.clientURLs && (nameFree || e.name == m.name)
  }

  /** No member is added, as while the join lock keeps every other add away. */
  predicate NoAdds(log: seq<Entry>, lo: nat, hi: nat)
    requires lo <= hi <= |log|
  {
    forall k :: lo <= k < hi ==> !log[k].Add?
  }

  /** Whoever is added was not a member at the start: IDs are not reused. */
  predicate FreshAdds(log: seq<Entry>, lo: nat, hi: nat)
    requires lo <= hi <= |log|
  {
    forall k :: lo <= k < hi && log[k].Add? ==> log[k].id !in At(log[..lo])
  }

  predicate NoAddOf(log: seq<Entry>, lo: nat, hi: nat, id: Id)
    requires lo <= hi <= |log|
  {
    forall k :: lo <= k < hi && log[k].Add? ==> log[k].id != id
  }

  /** No promote and no remove of a listed member takes effect, and whoever is added is gone again by the end. */
  predicate SameMembers(log: seq<Entry>, l: nat, s: nat)
    requires l <= s <= |log|
  {
    && (forall k :: l <= k < s && Reconfigures(At(log[..k]), log[k]) ==> log[k].id !in At(log[..l]))
    && At(log[..s]).Keys <= At(log[..l]).Keys
  }

  /** Whoever publishes ends with the attributes it was listed with; its name does not matter for the joiner. */
  predicate SameAttributes(log: seq<Entry>, l: nat, s: nat, self: Id)
    requires l <= s <= |log|
  {
    forall id :: id in At(log[..l]) ==> KeepsAttributes(At(log[..l])[id], LastPublish(log, l, s, id), id == self)
  }

  /** Nothing that commits between the member list and the snapshot changes what the seed says. */
  predicate QuietWindow(log: seq<Entry>, l: nat, s: nat, self: Id)
    requires l <= s <= |log|
  {
    SameMembers(log, l, s) && SameAttributes(log, l, s, self)
  }

  /** Where no member is added, the members stay the same exactly when no promote and no remove takes effect. */
  lemma SameMembersUnderLock(log: seq<Entry>, l: nat, s: nat)
    requires l <= s <= |log| && NoAdds(log, l, s)
    ensures SameMembers(log, l, s) <==> forall k :: l <= k < s ==> !Reconfigures(At(log[..k]), log[k])
  {
    OnlyLeave(log, l, s);
    forall k | l <= k < s ensures At(log[..k]).Keys <= At(log[..l]).Keys {
      OnlyLeave(log, l, k);
    }
    hide At;
  }

  lemma {:induction false} OnlyLeave(log: seq<Entry>, l: nat, s: nat)
    requires l <= s <= |log| && NoAdds(log, l, s)
    ensures At(log[..s]).Keys <= At(log[..l]).Keys
  {
    if l < s {
      AtNext(log, s - 1);
      OnlyLeave(log, l, s - 1);
      hide At;
    }
  }

  /** A member that is not added again can only disappear, or turn from a learner into a voter. */
  lemma {:induction false} OneWay(log: seq<Entry>, l: nat, s: nat, id: Id)
    requires l <= s <= |log| && NoAddOf(log, l, s, id)
    ensures id in At(log[..s]) ==>
      && id in At(log[..l])
      && (At(log[..s])[id].isLearner ==> At(log[..l])[id].isLearner)
      && At(log[..s])[id].peerURLs == At(log[..l])[id].peerURLs
    decreases s - l
  {
    if l < s {
      AtNext(log, s - 1);
      OneWay(log, l, s - 1, id);
      hide At;
    }
  }

  /** A member that is neither added again nor reconfigured keeps everything but what it last published. */
  lemma {:induction false} Unchanged(log: seq<Entry>, l: nat, s: nat, id: Id)
    requires l <= s <= |log| && NoAddOf(log, l, s, id) && id in At(log[..l])
    requires forall k :: l <= k < s && Reconfigures(At(log[..k]), log[k]) ==> log[k].id != id
    ensures id in At(log[..s])
    ensures var m, e := At(log[..l])[id], LastPublish(log, l, s, id);
      At(log[..s])[id] == if e.Publish? then m.(name := e.name, clientURLs := e.clientURLs) else m
    decreases s - l
  {
    hide At, Apply, Reconfigures;
    if l < s {
      Unchanged(log, l, s - 1, id);
      AtNext(log, s - 1);
      UnchangedNext(At(log[..s - 1]), log[s - 1], id);
    }
  }

  lemma UnchangedNext(ms: Members, e: Entry, id: Id)
    requires id in ms && (e.Add? ==> e.id != id) && (Reconfigures(ms, e) ==> e.id != id)
    ensures id in Apply(ms, e)
    ensures Apply(ms, e)[id] == if e.Publish? && e.id == id then ms[id].(name := e.name, clientURLs := e.clientURLs) else ms[id]
  {
  }

  /** A reconfiguration of a listed member in the window still shows at its end. */
  lemma ReconfigurationShows(log: seq<Entry>, l: nat, k: nat, s: nat)
    requires l <= k < s <= |log| && Reconfigures(At(log[..k]), log[k]) && NoAddOf(log, l, s, log[k].id)
    ensures log[k].id in At(log[..l])
    ensures log[k].id in At(log[..s]) ==> At(log[..l])[log[k].id].isLearner && !At(log[..s])[log[k].id].isLearner
  {
    var id := log[k].id;
    OneWay(log, l, k, id);
    AtNext(log, k);
    OneWay(log, k + 1, s, id);
    hide At;
  }

  /** Seed replay: the seed, replayed from the snapshot's index on, agrees with the leader's membership at
      every later index exactly when the window between list and snapshot is quiet. */
  lemma SeedReplays(log: seq<Entry>, l: nat, s: nat, self: Id, name: string)
    requires l <= s <= |log| && FreshAdds(log, l, s)
    ensures (forall t :: s <= t <= |log| ==>
              Agree(Replay(Seed(At(log[..l]), self, name), log[s..t]), At(log[..t]), self))
            <==> QuietWindow(log, l, s, self)
  {
    var seed := Seed(At(log[..l]), self, name);
    if QuietWindow(log, l, s, self) {
      QuietAgrees(log, l, s, self, name);
      forall t | s <= t <= |log| ensures Agree(Replay(seed, log[s..t]), At(log[..t]), self) {
        AgreeReplay(seed, At(log[..s]), self, log[s..t]);
        ReplayRest(log, s, t);
      }
    } else {
      NoisyWindow(log, l, s, self, name);
      assert log[s..s] == [];
    }
  }

  lemma QuietAgrees(log: seq<Entry>, l: nat, s: nat, self: Id, name: string)
    requires l <= s <= |log| && FreshAdds(log, l, s) && QuietWindow(log, l, s, self)
    ensures Agree(Seed(At(log[..l]), self, name), At(log[..s]), self)
  {
    var seed := Seed(At(log[..l]), self, name);
    forall id | id in At(log[..l])
      ensures id in At(log[..s])
      ensures seed[id] == if id == self then At(log[..s])[id].(name := seed[id].name) else At(log[..s])[id]
    {
      Unchanged(log, l, s, id);
      assert KeepsAttributes(At(log[..l])[id], LastPublish(log, l, s, id), id == self);
    }
    hide At, LastPublish;
  }

  lemma NoisyWindow(log: seq<Entry>, l: nat, s: nat, self: Id, name: string)
    requires l <= s <= |log| && FreshAdds(log, l, s) && !QuietWindow(log, l, s, self)
    ensures !Agree(Seed(At(log[..l]), self, name), At(log[..s]), self)
  {
    if k :| l <= k < s && Reconfigures(At(log[..k]), log[k]) && log[k].id in At(log[..l]) {
      ReconfigurationShows(log, l, k, s);
    } else if SameMembers(log, l, s) {
      var id :| id in At(log[..l]) &&
        !KeepsAttributes(At(log[..l])[id], LastPublish(log, l, s, id), id == self);
      Unchanged(log, l, s, id);
    }
  }

  /** The voters and learners of a membership, as raft's ConfState splits them. */
  function Voters(ms: Members): set<Id> {
    set id | id in ms && !ms[id].isLearner
  }

  function Learners(ms: Members): set<Id> {
    set id | id in ms && ms[id].isLearner
  }

  /** Agreement fixes the raft configuration: the names play no part in it. */
  lemma AgreeConfState(a: Members, b: Members, self: Id)
    requires Agree(a, b, self)
    ensures Voters(a) == Voters(b) && Learners(a) == Learners(b)
  {
  }

  /** The raft configuration alone: it agrees at every later index exactly when the members stay the same,
      whatever is published. */
  lemma ConfStateReplays(log: seq<Entry>, l: nat, s: nat, self: Id, name: string)
    requires l <= s <= |log| && FreshAdds(log, l, s)
    ensures (forall t :: s <= t <= |log| ==>
              SameSplit(Replay(Seed(At(log[..l]), self, name), log[s..t]), At(log[..t])))
            <==> SameMembers(log, l, s)
  {
    var seed := Seed(At(log[..l]), self, name);
    if SameMembers(log, l, s) {
      SameSplits(log, l, s, self, name);
      forall t | s <= t <= |log| ensures SameSplit(Replay(seed, log[s..t]), At(log[..t])) {
        SplitReplay(seed, At(log[..s]), log[s..t]);
        ReplayRest(log, s, t);
      }
    } else {
      OtherSplit(log, l, s, self, name);
      assert log[s..s] == [];
    }
  }

  lemma SameSplits(log: seq<Entry>, l: nat, s: nat, self: Id, name: string)
    requires l <= s <= |log| && FreshAdds(log, l, s) && SameMembers(log, l, s)
    ensures var seed := Seed(At(log[..l]), self, name);
      && seed.Keys == At(log[..s]).Keys
      && forall id :: id in seed ==> seed[id].isLearner == At(log[..s])[id].isLearner
  {
    forall id | id in At(log[..l])
      ensures id in At(log[..s]) && At(log[..l])[id].isLearner == At(log[..s])[id].isLearner
    {
      Unchanged(log, l, s, id);
    }
    hide At, LastPublish;
  }

  lemma OtherSplit(log: seq<Entry>, l: nat, s: nat, self: Id, name: string)
    requires l <= s <= |log| && FreshAdds(log, l, s) && !SameMembers(log, l, s)
    ensures !SameSplit(Seed(At(log[..l]), self, name), At(log[..s]))
  {
    var seed := Seed(At(log[..l]), self, name);
    if k :| l <= k < s && Reconfigures(At(log[..k]), log[k]) && log[k].id in At(log[..l]) {
      ReconfigurationShows(log, l, k, s);
      var id := log[k].id;
      assert id in Voters(seed) || id in Learners(seed);
      assert id in Learners(seed) ==> At(log[..l])[id].isLearner;
    } else {
      var id :| id in At(log[..s]) && id !in At(log[..l]);
      assert id in Voters(At(log[..s])) || id in Learners(At(log[..s]));
      assert id !in Voters(seed) && id !in Learners(seed);
    }
  }

  predicate SameSplit(a: Members, b: Members) {
    Voters(a) == Voters(b) && Learners(a) == Learners(b)
  }

  lemma {:induction false} SplitReplay(a: Members, b: Members, log: seq<Entry>)
    requires a.Keys == b.Keys && forall id :: id in a ==> a[id].isLearner == b[id].isLearner
    ensures SameSplit(Replay(a, log), Replay(b, log))
    ensures Replay(a, log).Keys == Replay(b, log).Keys
    ensures forall id :: id in Replay(a, log) ==> Replay(a, log)[id].isLearner == Replay(b, log)[id].isLearner
    decreases |log|
  {
    if log != [] {
      SplitReplay(a, b, log[..|log| - 1]);
    }
  }
}
