/** Who votes, who is running, and in which order a node leaves and stops: the rollback of a failed join
    (v0alpha0/peer.go abortJoin) and the auto-leave of Stop (v0alpha0/executor.go). */
module Quorum {
  import Membership

  type Id = Membership.Id

  /** `ran` holds the nodes whose server has ever been up, `left` those that were told their removal succeeded. */
  datatype State = State(
    voters: set<Id>, learners: set<Id>, live: set<Id>, ran: set<Id>, left: set<Id>, crashes: nat, failedLeaves: nat)

  predicate Majority(voters: set<Id>, live: set<Id>) {
    2 * |voters * live| > |voters|
  }

  predicate HasQuorum(s: State) {
    Majority(s.voters, s.live)
  }

  function DeadVoters(s: State): set<Id> {
    s.voters - s.live
  }

  /** The members that were running once and no longer are. */
  function DeadMembers(s: State): set<Id> {
    (s.voters + s.learners) * s.ran - s.live
  }

  datatype Step =
    | Add(n: Id)                        // a learner is added; its server is not up yet
    | Up(n: Id)                         // its server comes up
    | Promote(n: Id)                    // commits for a learner that has caught up, even if it has crashed since
    | Remove(n: Id, confirmed: bool)    // a removal commits; its response may be lost
    | AlreadyGone(n: Id)                // a removal finds no such member, which the join resource reports as success
    | Stop(n: Id)                       // a node told of its removal is torn down
    | StopUnleft(n: Id)                 // a node is torn down without having left
    | Crash(n: Id)

  predicate IsMember(s: State, n: Id) {
    n in s.voters || n in s.learners
  }

  /** etcd commits a removal only with a live majority, and with strict reconfiguration checks refuses one
      that would leave none. */
  predicate Removable(s: State, n: Id) {
    IsMember(s, n) && HasQuorum(s) && Majority(s.voters - {n}, s.live)
  }

  predicate Enabled(s: State, step: Step) {
    match step
    case Add(n) => !IsMember(s, n) && n !in s.ran && n !in s.left
    case Up(n) => IsMember(s, n) && n !in s.ran
    case Promote(n) => n in s.learners && n in s.ran && n !in s.voters && HasQuorum(s)
    case Remove(n, _) => Removable(s, n)
    case AlreadyGone(n) => !IsMember(s, n)
    case Stop(n) => n in s.left && n in s.live
    case StopUnleft(n) => n in s.live
    case Crash(n) => n in s.live
  }

  function Do(s: State, step: Step): State
    requires Enabled(s, step)
  {
    match step
    case Add(n) => s.(learners := s.learners + {n})
    case Up(n) => s.(live := s.live + {n}, ran := s.ran + {n})
    case Promote(n) => s.(learners := s.learners - {n}, voters := s.voters + {n})
    case Remove(n, confirmed) =>
      s.(learners := s.learners - {n}, voters := s.voters - {n}, left := if confirmed then s.left + {n} else s.left)
    case AlreadyGone(n) => s.(left := s.left + {n})
    case Stop(n) => s.(live := s.live - {n})
    case StopUnleft(n) => s.(live := s.live - {n}, failedLeaves := s.failedLeaves + 1)
    case Crash(n) => s.(live := s.live - {n}, crashes := s.crashes + 1)
  }

  /** Whoever was told it left is no member; whoever runs or votes has been up. */
  predicate Sound(s: State) {
    && (forall n :: n in s.left ==> !IsMember(s, n))
    && s.live <= s.ran && s.voters <= s.ran
  }

  /** No learner has stopped running. */
  predicate LearnersRun(s: State) {
    s.learners * s.ran <= s.live
  }

  predicate Orderly(step: Step) {
    !step.StopUnleft? && !step.Crash?
  }

  lemma StepKeepsSound(s: State, step: Step)
    requires Enabled(s, step) && Sound(s)
    ensures Sound(Do(s, step))
    ensures LearnersRun(s) && Orderly(step) ==> LearnersRun(Do(s, step))
  {
  }

  /** A member is a learner or a voter and never both, and only joins as a learner; a promotion keeps it a member. */
  lemma StepKeepsRoles(s: State, step: Step, n: Id)
    requires Enabled(s, step) && s.voters !! s.learners
    ensures var s' := Do(s, step);
      && s'.voters !! s'.learners
      && (n in s'.voters <==> (n in s.voters && !(step.Remove? && step.n == n)) || step == Promote(n))
      && (IsMember(s', n) <==> (IsMember(s, n) && !(step.Remove? && step.n == n)) || step == Add(n))
      && (n in s'.live <==> (n in s.live && !(step.n == n && (step.Stop? || step.StopUnleft? || step.Crash?))) || step == Up(n))
      && (n in s'.left <==> n in s.left || step == Remove(n, true) || step == AlreadyGone(n))
  {
  }

  /** No step but a crash or a stop without a removal takes a live majority away. */
  lemma StepKeepsQuorum(s: State, step: Step)
    requires Enabled(s, step) && Sound(s) && LearnersRun(s) && HasQuorum(s) && Orderly(step)
    ensures HasQuorum(Do(s, step))
  {
    var s' := Do(s, step);
    match step {
      case Up(n) => assert s'.voters * s'.live == s.voters * s.live;
      case Promote(n) => assert s'.voters * s'.live == s.voters * s.live + {n};
      case Stop(n) => assert s'.voters * s'.live == s.voters * s.live;
      case _ =>
    }
  }

  /** One step makes at most one member dead, and only when it is counted. */
  lemma StepCountsDead(s: State, step: Step)
    requires Enabled(s, step) && Sound(s)
    ensures var s' := Do(s, step);
      |DeadMembers(s')| + s.crashes + s.failedLeaves <= |DeadMembers(s)| + s'.crashes + s'.failedLeaves
  {
    var s' := Do(s, step);
    match step {
      case Remove(n, _) => Subset(DeadMembers(s'), DeadMembers(s));
      case StopUnleft(n) => Subset(DeadMembers(s') - {n}, DeadMembers(s));
      case Crash(n) => Subset(DeadMembers(s') - {n}, DeadMembers(s));
      case _ => DeadStay(s, step);
    }
  }

  lemma DeadStay(s: State, step: Step)
    requires Enabled(s, step) && Sound(s)
    requires step.Add? || step.Up? || step.Promote? || step.AlreadyGone? || step.Stop?
    ensures DeadMembers(Do(s, step)) == DeadMembers(s)
  {
  }

  lemma Subset(a: set<Id>, b: set<Id>)
    requires a <= b
    ensures |a| <= |b|
  {
    assert b == a + (b - a);
  }

  predicate IsRun(run: seq<State>, steps: seq<Step>) {
    && |run| == |steps| + 1
    && forall i :: 0 <= i < |steps| ==> Enabled(run[i], steps[i]) && run[i + 1] == Do(run[i], steps[i])
  }

  lemma {:induction false} RunInvariants(run: seq<State>, steps: seq<Step>, k: nat)
    requires IsRun(run, steps) && Sound(run[0]) && k < |run|
    ensures Sound(run[k])
    ensures |DeadMembers(run[k])| + run[0].crashes + run[0].failedLeaves
            <= |DeadMembers(run[0])| + run[k].crashes + run[k].failedLeaves
  {
    if k > 0 {
      RunInvariants(run, steps, k - 1);
      StepKeepsSound(run[k - 1], steps[k - 1]);
      StepCountsDead(run[k - 1], steps[k - 1]);
    }
  }

  /** Quorum preservation: in every run of joins, promotions, rollbacks and departures of any number of
      nodes, in which servers stop only after a successful removal, a live majority remains one. */
  lemma {:induction false} RunKeepsQuorum(run: seq<State>, steps: seq<Step>, k: nat)
    requires IsRun(run, steps) && Sound(run[0]) && LearnersRun(run[0]) && HasQuorum(run[0]) && k < |run|
    requires forall i :: 0 <= i < k ==> Orderly(steps[i])
    ensures HasQuorum(run[k]) && LearnersRun(run[k])
  {
    if k > 0 {
      RunKeepsQuorum(run, steps, k - 1);
      RunInvariants(run, steps, k - 1);
      StepKeepsSound(run[k - 1], steps[k - 1]);
      StepKeepsQuorum(run[k - 1], steps[k - 1]);
    }
  }

  /** Auto-leave accounting: in every run from a cluster whose members are all running, dead voters never
      outnumber crashes and stops that ended without a successful removal; with neither, every voter is live. */
  lemma AutoLeaveAccounts(run: seq<State>, steps: seq<Step>, k: nat)
    requires IsRun(run, steps) && Sound(run[0]) && k < |run|
    requires DeadMembers(run[0]) == {} && run[0].crashes == 0 && run[0].failedLeaves == 0
    ensures |DeadVoters(run[k])| <= run[k].crashes + run[k].failedLeaves
    ensures run[k].crashes == 0 && run[k].failedLeaves == 0 ==> run[k].voters <= run[k].live
  {
    RunInvariants(run, steps, k);
    var s := run[k];
    Subset(DeadVoters(s), DeadMembers(s));
    assert s.voters <= s.live + DeadVoters(s);
    assert |DeadVoters(s)| == 0 ==> DeadVoters(s) == {};
  }

  // ---- stopping before the removal ----

  /** When stopping first is safe: in any state with a live majority, tearing down a running node that has not
      left keeps the majority exactly when the node does not vote or there is a live voter to spare. */
  lemma StopFirstIff(s: State, n: Id)
    requires HasQuorum(s) && n in s.live
    ensures HasQuorum(Do(s, StopUnleft(n))) <==> n !in s.voters || 2 * (|s.voters * s.live| - 1) > |s.voters|
  {
    var s' := Do(s, StopUnleft(n));
    if n in s.voters {
      assert s'.voters * s'.live == s.voters * s.live - {n};
    } else {
      assert s'.voters * s'.live == s.voters * s.live;
    }
  }

  /** At two voters it is not, and no removal can then be committed. */
  lemma StopFirstLosesQuorum(a: Id, b: Id)
    requires a != b
    ensures var s := State({a, b}, {}, {a, b}, {a, b}, {}, 0, 0);
      && HasQuorum(s) && Enabled(s, StopUnleft(b))
      && !HasQuorum(Do(s, StopUnleft(b)))
      && forall n, confirmed :: !Enabled(Do(s, StopUnleft(b)), Remove(n, confirmed))
  {
    var s := State({a, b}, {}, {a, b}, {a, b}, {}, 0, 0);
    assert s.voters * s.live == {a, b} && |{a, b}| == 2;
    StopFirstIff(s, b);
  }

  // ---- the requests of a leaving node ----

  /** What becomes of one removal request, as far as the environment decides it. */
  datatype Answer = Rejected | Committed | ResponseLost

  /** What the rest of the cluster does before a request, and the request's answer. */
  datatype Round = Round(meanwhile: seq<Step>, answer: Answer)

  /** Steps that others take: anything but what happens to the node's own server, and what it is told. */
  predicate Foreign(step: Step, self: Id) {
    match step
    case Promote(_) => true
    case Remove(n, confirmed) => n != self || !confirmed
    case _ => step.n != self
  }

  /** The steps of others that can happen, one after the other. */
  function Settled(s: State, steps: seq<Step>, self: Id): State {
    if steps == [] then s
    else
      var before, step := Settled(s, steps[..|steps| - 1], self), steps[|steps| - 1];
      if Foreign(step, self) && Enabled(before, step) then Do(before, step) else before
  }

  /** The request reports success. `gone`: a missing member counts as one. */
  predicate Succeeds(s: State, self: Id, answer: Answer, gone: bool) {
    answer == Committed && (Removable(s, self) || (gone && !IsMember(s, self)))
  }

  /** A request that etcd can serve commits even if its response is lost. */
  function Asked(s: State, self: Id, answer: Answer, gone: bool): State {
    if answer != Rejected && Removable(s, self) then Do(s, Remove(self, answer == Committed))
    else if Succeeds(s, self, answer, gone) then Do(s, AlreadyGone(self))
    else s
  }

  /** The cluster after the first i rounds. */
  function After(s: State, self: Id, rounds: seq<Round>, gone: bool, i: nat): State
    requires i <= |rounds|
    decreases i, 0
  {
    if i == 0 then s
    else Asked(At(s, self, rounds, gone, i - 1), self, rounds[i - 1].answer, gone)
  }

  /** The cluster as the i-th request meets it. */
  function At(s: State, self: Id, rounds: seq<Round>, gone: bool, i: nat): State
    requires i < |rounds|
    decreases i, 1
  {
    Settled(After(s, self, rounds, gone, i), rounds[i].meanwhile, self)
  }

  predicate SucceedsAt(s: State, self: Id, rounds: seq<Round>, gone: bool, i: nat)
    requires i < |rounds|
  {
    Succeeds(At(s, self, rounds, gone, i), self, rounds[i].answer, gone)
  }

  /** The request that succeeded was met by a cluster that could remove the node, or, where that counts, had
      already; from then on the node knows that it left. */
  lemma SuccessLeaves(s: State, self: Id, rounds: seq<Round>, gone: bool, i: nat)
    requires i < |rounds| && SucceedsAt(s, self, rounds, gone, i)
    ensures var t := After(s, self, rounds, gone, i + 1); self in t.left && !IsMember(t, self)
  {
  }

  /** When a request succeeds: it is answered, and the cluster it meets can remove the node or, in a rollback,
      no longer holds it. */
  lemma WhenSucceeds(s: State, self: Id, rounds: seq<Round>, gone: bool, i: nat)
    requires i < |rounds|
    ensures var met := At(s, self, rounds, gone, i);
      SucceedsAt(s, self, rounds, gone, i)
      <==> rounds[i].answer == Committed && (Removable(met, self) || (gone && !IsMember(met, self)))
  {
    hide At, Removable;
  }

  /** What a request can change: the node is out if the cluster could remove it and did not reject the request;
      nothing else about who is a member or running changes, and a request that does not succeed tells the
      node nothing. */
  lemma RequestEffect(s: State, self: Id, rounds: seq<Round>, gone: bool, i: nat)
    requires i < |rounds|
    ensures var met, t := At(s, self, rounds, gone, i), After(s, self, rounds, gone, i + 1);
      var out := rounds[i].answer != Rejected && Removable(met, self);
      var told := SucceedsAt(s, self, rounds, gone, i);
      && t.voters == met.voters - (if out then {self} else {})
      && t.learners == met.learners - (if out then {self} else {})
      && t.left == met.left + (if told then {self} else {})
      && t.live == met.live && t.ran == met.ran && t.crashes == met.crashes && t.failedLeaves == met.failedLeaves
  {
    hide At, Removable, HasQuorum;
    assert Removable(At(s, self, rounds, gone, i), self) ==> Enabled(At(s, self, rounds, gone, i), Remove(self, true));
  }

  lemma {:induction false} SettledOut(s: State, steps: seq<Step>, self: Id)
    requires !IsMember(s, self)
    ensures !IsMember(Settled(s, steps, self), self)
  {
    if steps != [] {
      SettledOut(s, steps[..|steps| - 1], self);
    }
  }

  /** Once a request has committed, even one whose response was lost, every later one finds the node gone. */
  lemma {:induction false} GoneAfterCommit(s: State, self: Id, rounds: seq<Round>, gone: bool, i: nat, j: nat)
    requires i < j < |rounds| && rounds[i].answer != Rejected && Removable(At(s, self, rounds, gone, i), self)
    ensures !IsMember(After(s, self, rounds, gone, j), self) && !IsMember(At(s, self, rounds, gone, j), self)
  {
    hide Asked, At, After, Settled, Removable, Succeeds, SucceedsAt;
    RequestEffect(s, self, rounds, gone, j - 1);
    if i < j - 1 {
      GoneAfterCommit(s, self, rounds, gone, i, j - 1);
    }
    AfterNext(s, self, rounds, gone, j);
    SettledOut(After(s, self, rounds, gone, j), rounds[j].meanwhile, self);
  }

  /** If no request of a rollback succeeds, none that committed is followed by an answered one. */
  lemma NothingCommitted(s: State, self: Id, rounds: seq<Round>)
    requires forall j :: 0 <= j < |rounds| ==> !SucceedsAt(s, self, rounds, true, j)
    ensures forall i, j :: 0 <= i < j < |rounds| && rounds[i].answer != Rejected && rounds[j].answer == Committed
              ==> !Removable(At(s, self, rounds, true, i), self)
  {
    hide Asked, At, After, Settled, Removable;
    forall i, j | 0 <= i < j < |rounds| && rounds[i].answer != Rejected && rounds[j].answer == Committed
      ensures !Removable(At(s, self, rounds, true, i), self)
    {
      if Removable(At(s, self, rounds, true, i), self) {
        GoneAfterCommit(s, self, rounds, true, i, j);
        WhenSucceeds(s, self, rounds, true, j);
      }
    }
  }

  /** Where a missing member is no success, no request succeeds once one has committed with its response lost. */
  lemma NoneLostBefore(s: State, self: Id, rounds: seq<Round>, j: nat)
    requires j < |rounds| && SucceedsAt(s, self, rounds, false, j)
    ensures forall i :: 0 <= i < j && rounds[i].answer == ResponseLost ==> !Removable(At(s, self, rounds, false, i), self)
  {
    hide Asked, At, After, Settled, Majority, HasQuorum;
    WhenSucceeds(s, self, rounds, false, j);
    forall i | 0 <= i < j && rounds[i].answer == ResponseLost
      ensures !Removable(At(s, self, rounds, false, i), self)
    {
      if Removable(At(s, self, rounds, false, i), self) {
        GoneAfterCommit(s, self, rounds, false, i, j);
      }
    }
  }

  lemma {:induction false} SettledLive(s: State, steps: seq<Step>, self: Id)
    ensures self in Settled(s, steps, self).live <==> self in s.live
    ensures self in s.left <==> self in Settled(s, steps, self).left
  {
    if steps != [] {
      SettledLive(s, steps[..|steps| - 1], self);
    }
  }

  // ---- the node's own code ----

  /** The cluster as one node's calls change it; `trace` and `steps` record every state passed. */
  class Cluster {
    var s: State
    ghost var trace: seq<State>
    ghost var steps: seq<Step>

    constructor (s: State)
      ensures this.s == s && trace == [s] && steps == [] && Valid()
    {
      this.s, trace, steps := s, [s], [];
    }

    ghost predicate Valid() reads this {
      IsRun(trace, steps) && trace[|steps|] == s
    }

    /** The run goes on from where it was. */
    twostate predicate Continues()
      reads this
    {
      Valid() && old(trace) <= trace && old(steps) <= steps
    }

    method Take(step: Step)
      requires Valid() && Enabled(s, step)
      modifies this
      ensures Continues() && s == Do(old(s), step)
      ensures trace == old(trace) + [s] && steps == old(steps) + [step]
    {
      s := Do(s, step);
      trace, steps := trace + [s], steps + [step];
    }

    /** What the rest of the cluster does while this node waits. */
    method Settle(others: seq<Step>, self: Id)
      requires Valid()
      modifies this
      ensures Continues() && s == Settled(old(s), others, self)
      ensures forall i :: |old(steps)| <= i < |steps| ==> steps[i] in others
    {
      for i := 0 to |others|
        invariant Continues() && s == Settled(old(s), others[..i], self)
        invariant forall k :: |old(steps)| <= k < |steps| ==> steps[k] in others
      {
        assert others[..i + 1][..i] == others[..i];
        if Foreign(others[i], self) && Enabled(s, others[i]) { Take(others[i]); }
      }
      assert others[..|others|] == others;
    }

    /** One removal request. */
    method Ask(self: Id, answer: Answer, gone: bool) returns (ok: bool)
      requires Valid()
      modifies this
      ensures Continues() && s == Asked(old(s), self, answer, gone)
      ensures ok <==> Succeeds(old(s), self, answer, gone)
      ensures forall i :: |old(steps)| <= i < |steps| ==> steps[i].Remove? || steps[i].AlreadyGone?
    {
      ok := Succeeds(s, self, answer, gone);
      if answer != Rejected && Removable(s, self) {
        Take(Remove(self, answer == Committed));
      } else if ok {
        Take(AlreadyGone(self));
      }
    }

    /** Requests one after the other, up to the first that succeeds or the end of the budget: no request
        follows a success, and none but the last of them succeeds. */
    method Leave(self: Id, rounds: seq<Round>, gone: bool) returns (ok: bool, made: nat)
      requires Valid()
      modifies this
      ensures Continues() && made <= |rounds| && s == After(old(s), self, rounds, gone, made)
      ensures forall i :: 0 <= i < made ==> (SucceedsAt(old(s), self, rounds, gone, i) <==> ok && i == made - 1)
      ensures if ok then made > 0 else made == |rounds|
      ensures forall i :: |old(steps)| <= i < |steps| ==> Requested(steps[i], rounds)
    {
      hide Asked, At, Settled, Succeeds, SucceedsAt, Requested, IsRun;
      ok, made := false, 0;
      while made < |rounds| && !ok
        invariant Continues() && made <= |rounds| && s == After(old(s), self, rounds, gone, made)
        invariant forall i :: 0 <= i < made ==> (SucceedsAt(old(s), self, rounds, gone, i) <==> ok && i == made - 1)
        invariant ok ==> made > 0
        invariant forall k :: |old(steps)| <= k < |steps| ==> Requested(steps[k], rounds)
        decreases |rounds| - made
      {
        AfterNext(old(s), self, rounds, gone, made);
        Settle(rounds[made].meanwhile, self);
        ok := Ask(self, rounds[made].answer, gone);
        made := made + 1;
      }
    }
  }

  lemma AfterNext(s: State, self: Id, rounds: seq<Round>, gone: bool, i: nat)
    requires i < |rounds|
    ensures After(s, self, rounds, gone, i + 1) == Asked(At(s, self, rounds, gone, i), self, rounds[i].answer, gone)
    ensures At(s, self, rounds, gone, i) == Settled(After(s, self, rounds, gone, i), rounds[i].meanwhile, self)
    ensures SucceedsAt(s, self, rounds, gone, i) <==> Succeeds(At(s, self, rounds, gone, i), self, rounds[i].answer, gone)
    ensures forall step :: step in rounds[i].meanwhile || step.Remove? || step.AlreadyGone? ==> Requested(step, rounds)
  {
    hide Asked, Settled, Succeeds;
  }

  /** A step of a leaving node: one of others' in its rounds, or its own removal. */
  predicate Requested(step: Step, rounds: seq<Round>) {
    step.Remove? || step.AlreadyGone? || exists i :: 0 <= i < |rounds| && step in rounds[i].meanwhile
  }

  /** A node told of its removal is torn down, if it runs at all. */
  function Downed(s: State, n: Id): State {
    if Enabled(s, Stop(n)) then Do(s, Stop(n)) else s
  }

  /** abortJoin once the member ID is known: remove first, retried while the budget lasts; stop the server
      only after a removal succeeded, otherwise leave it running. */
  method AbortJoin(cluster: Cluster, self: Id, started: bool, rounds: seq<Round>)
    returns (exhausted: bool, removed: bool, made: nat)
    requires cluster.Valid()
    modifies cluster
    ensures cluster.Continues() && exhausted == started && made <= |rounds|
    ensures forall i :: 0 <= i < made ==>
      var met := At(old(cluster.s), self, rounds, true, i);
      (removed && i == made - 1) <==> (rounds[i].answer == Committed && (Removable(met, self) || !IsMember(met, self)))
    ensures if removed then made > 0 else made == |rounds|
    ensures !removed ==> forall i, j :: 0 <= i < j < |rounds| && rounds[i].answer != Rejected && rounds[j].answer == Committed
                           ==> !Removable(At(old(cluster.s), self, rounds, true, i), self)
    ensures var end := After(old(cluster.s), self, rounds, true, made);
      cluster.s == if removed && started then Downed(end, self) else end
    ensures removed ==> !IsMember(cluster.s, self) && self in cluster.s.left
    ensures self in cluster.s.live <==> self in old(cluster.s.live) && !(removed && started)
    ensures forall i :: |old(cluster.steps)| <= i < |cluster.steps| ==>
      cluster.steps[i] == Stop(self) || Requested(cluster.steps[i], rounds)
  {
    hide Asked, At, After, Settled, IsRun;
    exhausted := started;
    removed, made := cluster.Leave(self, rounds, true);
    AfterLive(old(cluster.s), self, rounds, true, made);
    forall i | 0 <= i < made
      ensures var met := At(old(cluster.s), self, rounds, true, i);
        (removed && i == made - 1) <==> (rounds[i].answer == Committed && (Removable(met, self) || !IsMember(met, self)))
    {
      WhenSucceeds(old(cluster.s), self, rounds, true, i);
    }
    if !removed {
      NothingCommitted(old(cluster.s), self, rounds);
      return;
    }
    SuccessLeaves(old(cluster.s), self, rounds, true, made - 1);
    if started && self in cluster.s.live { cluster.Take(Stop(self)); }
  }

  /** Every state a rollback passes through, whatever others do meanwhile short of crashing, keeps the live
      majority it began with. In the end the node is removed and down, or neither. */
  method RollbackKeepsQuorum(s: State, self: Id, started: bool, rounds: seq<Round>)
    returns (removed: bool, made: nat, ghost passed: seq<State>, ghost steps: seq<Step>)
    requires Sound(s) && LearnersRun(s) && HasQuorum(s)
    requires forall i, step :: 0 <= i < |rounds| && step in rounds[i].meanwhile ==> Orderly(step)
    ensures IsRun(passed, steps) && passed[0] == s && made <= |rounds|
    ensures forall k :: 0 <= k < |steps| ==> steps[k] == Stop(self) || Requested(steps[k], rounds)
    ensures forall k :: 0 <= k < |passed| ==> HasQuorum(passed[k])
    ensures forall i :: 0 <= i < made ==>
      var met := At(s, self, rounds, true, i);
      (removed && i == made - 1) <==> (rounds[i].answer == Committed && (Removable(met, self) || !IsMember(met, self)))
    ensures if removed then made > 0 else made == |rounds|
    ensures var end := After(s, self, rounds, true, made);
      passed[|passed| - 1] == if removed && started then Downed(end, self) else end
    ensures removed ==> !IsMember(passed[|passed| - 1], self)
    ensures self in passed[|passed| - 1].live <==> self in s.live && !(removed && started)
  {
    var cluster := new Cluster(s);
    var exhausted;
    exhausted, removed, made := AbortJoin(cluster, self, started, rounds);
    passed, steps := cluster.trace, cluster.steps;
    forall k | 0 <= k < |passed| ensures HasQuorum(passed[k]) {
      RunKeepsQuorum(cluster.trace, cluster.steps, k);
    }
  }

  /** Stop of a started node: with auto-leave, removal requests come first, and the teardown follows
      whether or not one succeeded. A missing member does not count as a successful leave here. */
  method StopNode(cluster: Cluster, self: Id, leaveOnStop: bool, rounds: seq<Round>) returns (left: bool, made: nat)
    requires cluster.Valid() && self in cluster.s.live
    modifies cluster
    ensures cluster.Continues() && made <= |rounds|
    ensures forall i :: 0 <= i < made ==>
      ((left && i == made - 1) <==>
       (rounds[i].answer == Committed && Removable(At(old(cluster.s), self, rounds, false, i), self)))
    ensures if left then leaveOnStop && made > 0 else made == if leaveOnStop then |rounds| else 0
    ensures left ==> forall i :: 0 <= i < made - 1 && rounds[i].answer == ResponseLost
                       ==> !Removable(At(old(cluster.s), self, rounds, false, i), self)
    ensures var end := After(old(cluster.s), self, rounds, false, made);
      var stop := if left then Stop(self) else StopUnleft(self);
      Enabled(end, stop) && cluster.s == Do(end, stop)
  {
    hide Asked, At, Settled, SucceedsAt, IsRun;
    left, made := false, 0;
    if leaveOnStop {
      left, made := cluster.Leave(self, rounds, false);
      AfterLive(old(cluster.s), self, rounds, false, made);
      forall i | 0 <= i < made
        ensures (left && i == made - 1) <==>
                (rounds[i].answer == Committed && Removable(At(old(cluster.s), self, rounds, false, i), self))
      {
        WhenSucceeds(old(cluster.s), self, rounds, false, i);
      }
      if left {
        SuccessLeaves(old(cluster.s), self, rounds, false, made - 1);
        NoneLostBefore(old(cluster.s), self, rounds, made - 1);
      }
    }
    cluster.Take(if left then Stop(self) else StopUnleft(self));
  }

  lemma {:induction false} AfterLive(s: State, self: Id, rounds: seq<Round>, gone: bool, i: nat)
    requires i <= |rounds|
    ensures self in After(s, self, rounds, gone, i).live <==> self in s.live
  {
    if i > 0 {
      AfterLive(s, self, rounds, gone, i - 1);
      SettledLive(After(s, self, rounds, gone, i - 1), rounds[i - 1].meanwhile, self);
    }
  }
}
