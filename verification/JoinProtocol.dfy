/** The peer-port join protocol as a whole: any number of joiners, any number of requests each, served step
    by step by any peers over one replicated membership log. A request may be delivered late or never, and
    may commit without its response arriving. */
module JoinProtocol {
  import opened Text
  import opened Membership
  import opened SeedReplay
  import opened JoinServer
  import R = Restore

  type Joiner = nat

  /** Who joins, with which advertised URLs, and what the cluster committed before. */
  datatype Setting = Setting(urls: map<Joiner, seq<string>>, founding: seq<Entry>)

  ghost predicate WellFormed(c: Setting) {
    && (forall j :: j in c.urls ==> c.urls[j] != [])
    && (forall j, k, u :: j in c.urls && k in c.urls && u in c.urls[j] && u in c.urls[k] ==> j == k)
    && (forall i, j :: 0 <= i < |c.founding| && c.founding[i].Add? && j in c.urls ==>
          forall u :: u in c.founding[i].peerURLs ==> u !in c.urls[j])
  }

  /** One request at the member that serves it. */
  datatype Task =
    | AddQueued(j: Joiner)                              // the join lock is not yet held
    | AddLocked(j: Joiner)                              // locked; the member-add is next
    | AddStray(j: Joiner)                               // cancelled while proposing: unlocked, may still commit
    | AddExists(j: Joiner)                              // locked; refused, a URL is held: the member list is next
    | AddListed(j: Joiner, id: Id, at: nat)             // locked; member list as of log index `at`
    | AddStreaming(j: Joiner, id: Id, at: nat, sn: nat) // locked; answered with the snapshot of log index `sn`
    | SweepQueued(j: Joiner)                            // remove by peer URLs; the member list is next
    | SweepFound(j: Joiner, id: Id)                     // an unstarted learner was found; its removal is next
    | SweepOk(j: Joiner)
    | RemoveQueued(j: Joiner, id: Id)
    | RemoveOk(j: Joiner, id: Id)
    | PromoteQueued(j: Joiner, id: Id)
    | Ended

  datatype Reply = Reply(j: Joiner, id: Id, at: nat, sn: nat)

  /** `owner` records which joiner's request added a member, `strays` the log indices of the adds that committed
      outside the lock; no step reads either. */
  datatype State = State(log: seq<Entry>, used: set<Id>, owner: map<Id, Joiner>, strays: set<nat>, lock: Option<nat>,
                         tasks: map<nat, Task>, replies: set<Reply>)

  datatype Step =
    | SendAdd(t: nat, j: Joiner) | Acquire(t: nat) | AddCommit(t: nat, id: Id) | AddRefused(t: nat)
    | AddRecover(t: nat, id: Id) | AddConflict(t: nat) | Snapshot(t: nat) | Release(t: nat)
    | Stray(t: nat) | StrayCommit(t: nat, id: Id)
    | SendSweep(t: nat, j: Joiner) | SweepRead(t: nat, found: Option<Id>) | SweepRemove(t: nat)
    | SendRemove(t: nat, r: Reply) | RemoveExec(t: nat)
    | SendPromote(t: nat, r: Reply) | PromoteExec(t: nat)
    | Lose(t: nat)                                      // a request, its handler or its response is lost
    | Publishes(id: Id, name: string, clientURLs: seq<string>)
    | Operator(e: Entry)                                // a promote or remove from outside the protocol
    | Traffic

  function Initial(c: Setting): State {
    State(c.founding, set i | 0 <= i < |c.founding| && c.founding[i].Add? :: c.founding[i].id, map[], {}, None, map[], {})
  }

  predicate IsTask(s: State, t: nat, task: Task) {
    t in s.tasks && s.tasks[t] == task
  }

  function Put(s: State, t: nat, task: Task): State {
    s.(tasks := s.tasks[t := task])
  }

  function Commit(s: State, e: Entry): State {
    s.(log := s.log + [e])
  }

  predicate HoldsLock(task: Task) {
    task.AddLocked? || task.AddExists? || task.AddListed? || task.AddStreaming?
  }

  /** A request that may still add a member for the joiner. */
  predicate Outstanding(s: State, j: Joiner) {
    exists t :: t in s.tasks && (s.tasks[t] == AddQueued(j) || s.tasks[t] == AddLocked(j) || s.tasks[t] == AddStray(j))
  }

  function Unlock(s: State, t: nat): State {
    if s.lock == Some(t) then s.(lock := None) else s
  }

  /** Removing a member that is not there commits nothing. */
  function RemoveMember(s: State, id: Id): State {
    if id in At(s.log) then Commit(s, Membership.Remove(id)) else s
  }

  /** What a step makes of a state; None where it cannot happen. */
  ghost function Do(c: Setting, s: State, step: Step): Option<State> {
    match step
    case SendAdd(t, j) => if t in s.tasks || j !in c.urls then None else Some(Put(s, t, AddQueued(j)))
    case Acquire(t) =>
      if t !in s.tasks || !s.tasks[t].AddQueued? || s.lock != None then None
      else Some(Put(s, t, AddLocked(s.tasks[t].j)).(lock := Some(t)))
    case AddCommit(t, id) =>
      if t !in s.tasks || !s.tasks[t].AddLocked? || id == 0 || id in s.used then None
      else
        var j := s.tasks[t].j;
        if j !in c.urls || Held(At(s.log), c.urls[j]) then None
        else
          Some(Put(Commit(s, Add(id, c.urls[j], true)), t, AddListed(j, id, |s.log| + 1))
               .(used := s.used + {id}, owner := s.owner[id := j]))
    case Stray(t) =>
      if t !in s.tasks || !s.tasks[t].AddLocked? then None else Some(Unlock(Put(s, t, AddStray(s.tasks[t].j)), t))
    case StrayCommit(t, id) =>
      if t !in s.tasks || !s.tasks[t].AddStray? || id == 0 || id in s.used then None
      else
        var j := s.tasks[t].j;
        if j !in c.urls || Held(At(s.log), c.urls[j]) then None
        else
          Some(Put(Commit(s, Add(id, c.urls[j], true)), t, Ended)
               .(used := s.used + {id}, owner := s.owner[id := j], strays := s.strays + {|s.log|}))
    case AddRefused(t) =>
      if t !in s.tasks || !s.tasks[t].AddLocked? || s.tasks[t].j !in c.urls then None
      else if !Held(At(s.log), c.urls[s.tasks[t].j]) then None
      else Some(Put(s, t, AddExists(s.tasks[t].j)))
    case AddRecover(t, id) =>
      if t !in s.tasks || !s.tasks[t].AddExists? || s.tasks[t].j !in c.urls then None
      else if !Resolves(At(s.log), c.urls[s.tasks[t].j], id) then None
      else Some(Put(s, t, AddListed(s.tasks[t].j, id, |s.log|)))
    case AddConflict(t) =>
      if t !in s.tasks || !s.tasks[t].AddExists? || s.tasks[t].j !in c.urls then None
      else if exists id :: Resolves(At(s.log), c.urls[s.tasks[t].j], id) then None
      else Some(Unlock(Put(s, t, Ended), t))
    case Snapshot(t) =>
      if t !in s.tasks || !s.tasks[t].AddListed? then None
      else
        var AddListed(j, id, at) := s.tasks[t];
        Some(Put(s, t, AddStreaming(j, id, at, |s.log|)).(replies := s.replies + {Reply(j, id, at, |s.log|)}))
    case Release(t) =>
      if t !in s.tasks || !s.tasks[t].AddStreaming? then None else Some(Unlock(Put(s, t, Ended), t))
    case SendSweep(t, j) => if t in s.tasks || j !in c.urls then None else Some(Put(s, t, SweepQueued(j)))
    case SweepRead(t, found) =>
      if t !in s.tasks || !s.tasks[t].SweepQueued? || s.tasks[t].j !in c.urls then None
      else
        var j := s.tasks[t].j;
        if found.Some? then
          if Resolves(At(s.log), c.urls[j], found.value) then Some(Put(s, t, SweepFound(j, found.value))) else None
        else if exists id :: Resolves(At(s.log), c.urls[j], id) then None
        else Some(Put(s, t, SweepOk(j)))
    case SweepRemove(t) =>
      if t !in s.tasks || !s.tasks[t].SweepFound? then None
      else Some(Put(RemoveMember(s, s.tasks[t].id), t, SweepOk(s.tasks[t].j)))
    case SendRemove(t, r) => if t in s.tasks || r !in s.replies then None else Some(Put(s, t, RemoveQueued(r.j, r.id)))
    case RemoveExec(t) =>
      if t !in s.tasks || !s.tasks[t].RemoveQueued? then None
      else Some(Put(RemoveMember(s, s.tasks[t].id), t, RemoveOk(s.tasks[t].j, s.tasks[t].id)))
    case SendPromote(t, r) => if t in s.tasks || r !in s.replies then None else Some(Put(s, t, PromoteQueued(r.j, r.id)))
    case PromoteExec(t) =>
      if t !in s.tasks || !s.tasks[t].PromoteQueued? then None
      else Some(Put(Commit(s, Membership.Promote(s.tasks[t].id)), t, Ended))
    case Lose(t) => if t !in s.tasks then None else Some(Unlock(Put(s, t, Ended), t))
    case Publishes(id, name, clientURLs) => if name == "" then None else Some(Commit(s, Publish(id, name, clientURLs)))
    case Operator(e) => if e.Promote? || e.Remove? then Some(Commit(s, e)) else None
    case Traffic => Some(Commit(s, Other))
  }

  ghost predicate Next(c: Setting, s: State, s': State) {
    exists step :: Do(c, s, step) == Some(s')
  }

  /** A run: every state follows from the one before by some step. */
  ghost predicate IsRun(c: Setting, run: seq<State>) {
    && |run| > 0 && run[0] == Initial(c)
    && forall i :: 0 <= i < |run| - 1 ==> Next(c, run[i], run[i + 1])
  }

  // ---- what every step keeps ----

  /** The answer to an add is right: at log index `at` the member is an unstarted learner with the joiner's
      URLs, added for the joiner, and nobody else holds any of them. */
  ghost predicate Answer(c: Setting, s: State, j: Joiner, id: Id, at: nat) {
    && at <= |s.log| && j in c.urls && id in s.owner && s.owner[id] == j
    && Resolves(At(s.log[..at]), c.urls[j], id)
    && (forall m :: m in At(s.log[..at]) && HoldsAny(At(s.log[..at])[m], c.urls[j]) ==> m == id)
    && (forall m :: m in At(s.log[..at]) && m in s.owner && s.owner[m] == j ==> m == id)
    && At(s.log[..at]).Keys <= s.used
  }

  /** Between list and snapshot, members were added only outside the lock, and under IDs not yet used. */
  predicate AddsApart(s: State, at: nat, sn: nat)
    requires at <= sn <= |s.log|
  {
    FreshAdds(s.log, at, sn) && forall k :: at <= k < sn && s.log[k].Add? ==> k in s.strays
  }

  ghost predicate AnswerUpTo(c: Setting, s: State, j: Joiner, id: Id, at: nat, sn: nat) {
    Answer(c, s, j, id, at) && at <= sn <= |s.log| && AddsApart(s, at, sn)
  }

  ghost predicate TaskOk(c: Setting, s: State, task: Task) {
    match task
    case AddQueued(j) => j in c.urls
    case AddLocked(j) => j in c.urls
    case AddStray(j) => j in c.urls
    case AddExists(j) => j in c.urls
    case AddListed(j, id, at) => AnswerUpTo(c, s, j, id, at, |s.log|)
    case AddStreaming(j, id, at, sn) => AnswerUpTo(c, s, j, id, at, sn)
    case SweepQueued(j) => j in c.urls
    case SweepFound(j, id) => j in c.urls && id in s.owner && s.owner[id] == j
    case SweepOk(j) => j in c.urls
    case RemoveQueued(j, id) => j in c.urls && id in s.owner && s.owner[id] == j
    case RemoveOk(j, id) => id in s.used && id !in At(s.log)
    case PromoteQueued(j, id) => true
    case Ended => true
  }

  /** Every member is a founder, with no joiner's URL, or a joiner's, with exactly its URLs; no joiner has two. */
  ghost predicate MembersOk(c: Setting, s: State) {
    && At(s.log).Keys <= s.used && s.owner.Keys <= s.used
    && (forall id :: id in s.owner ==> s.owner[id] in c.urls)
    && (forall id :: id in At(s.log) && id in s.owner ==> At(s.log)[id].peerURLs == c.urls[s.owner[id]])
    && (forall id, j :: id in At(s.log) && id !in s.owner && j in c.urls ==> !HoldsAny(At(s.log)[id], c.urls[j]))
    && (forall a, b :: a in At(s.log) && b in At(s.log) && a in s.owner && b in s.owner && s.owner[a] == s.owner[b] ==> a == b)
  }

  ghost predicate LockOk(s: State) {
    forall t :: t in s.tasks && HoldsLock(s.tasks[t]) ==> s.lock == Some(t)
  }

  ghost predicate Inv(c: Setting, s: State) {
    && MembersOk(c, s) && LockOk(s)
    && (forall t :: t in s.tasks ==> TaskOk(c, s, s.tasks[t]))
    && (forall r :: r in s.replies ==> AnswerUpTo(c, s, r.j, r.id, r.at, r.sn))
  }

  /** Only the owner of a URL holds it. */
  lemma HolderIsOwner(c: Setting, s: State, j: Joiner, id: Id)
    requires WellFormed(c) && MembersOk(c, s) && j in c.urls && id in At(s.log)
    ensures HoldsAny(At(s.log)[id], c.urls[j]) <==> id in s.owner && s.owner[id] == j
  {
    if id in s.owner {
      var k := s.owner[id];
      if k == j { assert c.urls[j][0] in c.urls[j]; }
    }
  }

  lemma HolderIsUnique(c: Setting, s: State, j: Joiner, a: Id, b: Id)
    requires WellFormed(c) && MembersOk(c, s) && j in c.urls && a in At(s.log) && b in At(s.log)
    requires HoldsAny(At(s.log)[a], c.urls[j]) && HoldsAny(At(s.log)[b], c.urls[j])
    ensures a == b
  {
    HolderIsOwner(c, s, j, a);
    HolderIsOwner(c, s, j, b);
  }

  /** What was true of a prefix of the log stays true when the log grows and new IDs get owners. */
  lemma AnswerStable(c: Setting, s: State, s': State, j: Joiner, id: Id, at: nat, sn: nat)
    requires AnswerUpTo(c, s, j, id, at, sn)
    requires s.log <= s'.log && s.used <= s'.used && s.strays <= s'.strays
    requires forall m :: m in s.owner ==> m in s'.owner && s'.owner[m] == s.owner[m]
    requires forall m :: m in s'.owner && m !in s.owner ==> m !in s.used
    ensures AnswerUpTo(c, s', j, id, at, sn)
  {
    assert s'.log[..at] == s.log[..at];
    assert forall k :: at <= k < sn ==> s'.log[k] == s.log[k];
  }

  /** An entry that adds nobody keeps the membership in order. */
  lemma MembersAfter(c: Setting, s: State, s': State, e: Entry)
    requires MembersOk(c, s) && !e.Add? && s'.log == s.log + [e] && s'.owner == s.owner && s'.used == s.used
    ensures MembersOk(c, s')
    ensures At(s'.log).Keys <= At(s.log).Keys
    ensures forall id :: id in At(s'.log) ==> At(s'.log)[id].peerURLs == At(s.log)[id].peerURLs
  {
    AtAppend(s.log, e);
  }

  /** An add of an unused ID with the URLs of a joiner who holds none. */
  lemma MembersAfterAdd(c: Setting, s: State, s': State, j: Joiner, id: Id)
    requires WellFormed(c) && MembersOk(c, s) && j in c.urls && id !in s.used && !Held(At(s.log), c.urls[j])
    requires s'.log == s.log + [Add(id, c.urls[j], true)] && s'.owner == s.owner[id := j] && s'.used == s.used + {id}
    ensures MembersOk(c, s') && Answer(c, s', j, id, |s'.log|)
  {
    AtAppend(s.log, Add(id, c.urls[j], true));
    forall a | a in At(s.log) && a in s.owner ensures s.owner[a] != j {
      HolderIsOwner(c, s, j, a);
    }
    assert MembersOk(c, s');
    assert s'.log[..|s'.log|] == s'.log;
    assert c.urls[j][0] in c.urls[j];
    forall m | m in At(s'.log) && HoldsAny(At(s'.log)[m], c.urls[j]) ensures m == id {
      HolderIsUnique(c, s', j, m, id);
    }
    forall m | m in At(s'.log) && m in s'.owner && s'.owner[m] == j ensures m == id {
      HolderIsOwner(c, s', j, m);
    }
  }

  predicate Adds(step: Step) {
    step.AddCommit? || step.StrayCommit?
  }

  predicate IsTaskStep(step: Step) {
    !step.Publishes? && !step.Operator? && !step.Traffic?
  }

  /** A step of one request touches that request alone, and the lock only as its holder. */
  lemma TaskStepShape(c: Setting, s: State, s': State, step: Step)
    requires Do(c, s, step) == Some(s') && IsTaskStep(step)
    ensures step.t in s'.tasks && s'.tasks == s.tasks[step.t := s'.tasks[step.t]]
    ensures !Adds(step) ==> s'.owner == s.owner && s'.used == s.used && s'.strays == s.strays
    ensures s'.replies == s.replies || (step.Snapshot? && s.tasks[step.t].AddListed?)
  {
    hide At, Held, Resolves;
  }

  lemma LockStep(c: Setting, s: State, s': State, step: Step)
    requires Do(c, s, step) == Some(s') && LockOk(s)
    ensures LockOk(s')
  {
    hide At, Held, Resolves;
  }

  /** The member found for a joiner's URLs is the joiner's, and the only one holding them. */
  lemma FoundIsAnswer(c: Setting, s: State, j: Joiner, id: Id)
    requires WellFormed(c) && MembersOk(c, s) && j in c.urls && Resolves(At(s.log), c.urls[j], id)
    ensures id in s.owner && s.owner[id] == j && AnswerUpTo(c, s, j, id, |s.log|, |s.log|)
  {
    HolderIsOwner(c, s, j, id);
    assert s.log[..|s.log|] == s.log;
    forall m | m in At(s.log) && HoldsAny(At(s.log)[m], c.urls[j]) ensures m == id {
      HolderIsUnique(c, s, j, m, id);
    }
  }

  /** The steps that look a member up by its URLs. */
  predicate Finds(step: Step) {
    step.AddRecover? || step.SweepRead?
  }

  predicate Removes(step: Step) {
    step.SendRemove? || step.RemoveExec? || step.SweepRemove?
  }

  lemma QuietFind(c: Setting, s: State, s': State, step: Step)
    requires WellFormed(c) && Inv(c, s) && Do(c, s, step) == Some(s') && s'.log == s.log && Finds(step)
    ensures step.t in s'.tasks && TaskOk(c, s, s'.tasks[step.t])
  {
    hide MembersOk, LockOk, AnswerUpTo, Resolves, Held;
    assert TaskOk(c, s, s.tasks[step.t]);
    match step {
      case AddRecover(t, id) => FoundIsAnswer(c, s, s.tasks[t].j, id);
      case SweepRead(t, found) => if found.Some? { FoundIsAnswer(c, s, s.tasks[t].j, found.value); }
    }
  }

  lemma QuietRemove(c: Setting, s: State, s': State, step: Step)
    requires WellFormed(c) && Inv(c, s) && Do(c, s, step) == Some(s') && s'.log == s.log && Removes(step)
    ensures step.t in s'.tasks && TaskOk(c, s, s'.tasks[step.t])
  {
    hide MembersOk, LockOk, AnswerUpTo, Resolves, Held;
    match step {
      case SendRemove(t, r) => assert AnswerUpTo(c, s, r.j, r.id, r.at, r.sn); AnswerOwner(c, s, r);
      case SweepRemove(t) => assert TaskOk(c, s, s.tasks[t]);
      case RemoveExec(t) =>
        assert TaskOk(c, s, s.tasks[t]);
        assert s.tasks[t].id !in At(s.log);
        OwnedIsUsed(c, s, s.tasks[t].id);
    }
  }

  lemma QuietTask(c: Setting, s: State, s': State, step: Step)
    requires WellFormed(c) && Inv(c, s) && Do(c, s, step) == Some(s') && s'.log == s.log && IsTaskStep(step)
    ensures step.t in s'.tasks && TaskOk(c, s, s'.tasks[step.t])
  {
    if Finds(step) {
      QuietFind(c, s, s', step);
    } else if Removes(step) {
      QuietRemove(c, s, s', step);
    } else {
      if step.t in s.tasks { assert TaskOk(c, s, s.tasks[step.t]); }
      hide MembersOk, LockOk, AnswerUpTo, Resolves, Held, At;
    }
  }

  lemma AnswerOwner(c: Setting, s: State, r: Reply)
    requires AnswerUpTo(c, s, r.j, r.id, r.at, r.sn)
    ensures r.j in c.urls && r.id in s.owner && s.owner[r.id] == r.j
  {
  }

  lemma OwnedIsUsed(c: Setting, s: State, id: Id)
    requires MembersOk(c, s) && id in s.owner
    ensures id in s.used
  {
  }

  /** A step that leaves the log alone. */
  lemma QuietStep(c: Setting, s: State, s': State, step: Step)
    requires WellFormed(c) && Inv(c, s) && Do(c, s, step) == Some(s') && s'.log == s.log && IsTaskStep(step)
    ensures Inv(c, s')
  {
    TaskStepShape(c, s, s', step);
    LockStep(c, s, s', step);
    QuietTask(c, s, s', step);
    if step.Snapshot? { assert TaskOk(c, s, s.tasks[step.t]); }
    QuietRest(c, s, s', step);
  }

  lemma QuietRest(c: Setting, s: State, s': State, step: Step)
    requires Inv(c, s) && LockOk(s') && s'.log == s.log && s'.owner == s.owner && s'.used == s.used && s'.strays == s.strays
    requires IsTaskStep(step) && step.t in s'.tasks && s'.tasks == s.tasks[step.t := s'.tasks[step.t]]
    requires TaskOk(c, s, s'.tasks[step.t])
    requires forall r :: r in s'.replies && r !in s.replies ==> AnswerUpTo(c, s, r.j, r.id, r.at, r.sn)
    ensures Inv(c, s')
  {
    assert MembersOk(c, s');
    forall r | r in s'.replies ensures AnswerUpTo(c, s', r.j, r.id, r.at, r.sn) {
      AnswerStable(c, s, s', r.j, r.id, r.at, r.sn);
    }
    forall t | t in s'.tasks ensures TaskOk(c, s', s'.tasks[t]) {
      assert TaskOk(c, s, s'.tasks[t]);
    }
  }

  /** The request behind a committed promote or remove is well when it is done. */
  lemma CommittedShape(c: Setting, s: State, s': State, step: Step, e: Entry)
    requires Do(c, s, step) == Some(s') && s'.log == s.log + [e] && !Adds(step)
    ensures s'.owner == s.owner && s'.used == s.used && s'.strays == s.strays && s'.replies == s.replies && s'.lock == s.lock
  {
    assert |s'.log| != |s.log|;
    hide At;
  }

  lemma CommittedTask(c: Setting, s: State, s': State, step: Step, e: Entry)
    requires Inv(c, s) && Do(c, s, step) == Some(s') && s'.log == s.log + [e] && !Adds(step)
    ensures forall t :: t in s'.tasks && !(t in s.tasks && s'.tasks[t] == s.tasks[t]) ==> TaskOk(c, s', s'.tasks[t])
  {
    assert |s'.log| != |s.log|;
    if IsTaskStep(step) {
      assert TaskOk(c, s, s.tasks[step.t]);
      match step {
        case RemoveExec(t) =>
          AtAppend(s.log, e);
          OwnedIsUsed(c, s, s.tasks[t].id);
          assert e == Membership.Remove(s.tasks[t].id);
        case _ => hide At;
      }
    }
  }

  /** A step that commits an entry other than an add. */
  lemma CommitStep(c: Setting, s: State, s': State, step: Step, e: Entry)
    requires WellFormed(c) && Inv(c, s) && Do(c, s, step) == Some(s') && s'.log == s.log + [e] && !e.Add?
    requires !Adds(step)
    ensures Inv(c, s')
  {
    CommittedShape(c, s, s', step, e);
    CommittedTask(c, s, s', step, e);
    LockStep(c, s, s', step);
    hide Do;
    MembersAfter(c, s, s', e);
    hide MembersOk, LockOk, WellFormed;
    CommitRest(c, s, s');
  }

  lemma CommitRest(c: Setting, s: State, s': State)
    requires Inv(c, s) && s.log < s'.log && |s'.log| == |s.log| + 1 && !s'.log[|s.log|].Add?
    requires s'.owner == s.owner && s'.used == s.used && s'.strays == s.strays && s'.replies == s.replies
    requires At(s'.log).Keys <= At(s.log).Keys
    requires forall t :: t in s'.tasks && !(t in s.tasks && s'.tasks[t] == s.tasks[t]) ==> TaskOk(c, s', s'.tasks[t])
    ensures forall r :: r in s'.replies ==> AnswerUpTo(c, s', r.j, r.id, r.at, r.sn)
    ensures forall t :: t in s'.tasks ==> TaskOk(c, s', s'.tasks[t])
  {
    hide MembersOk, LockOk, At;
    forall r | r in s'.replies ensures AnswerUpTo(c, s', r.j, r.id, r.at, r.sn) {
      AnswerStable(c, s, s', r.j, r.id, r.at, r.sn);
    }
    forall t | t in s'.tasks ensures TaskOk(c, s', s'.tasks[t]) {
      if t in s.tasks && s'.tasks[t] == s.tasks[t] {
        TaskAfter(c, s, s', s.tasks[t]);
      }
    }
  }

  lemma TaskAfter(c: Setting, s: State, s': State, task: Task)
    requires TaskOk(c, s, task) && s.log < s'.log && |s'.log| == |s.log| + 1 && !s'.log[|s.log|].Add?
    requires s'.owner == s.owner && s'.used == s.used && s'.strays == s.strays && At(s'.log).Keys <= At(s.log).Keys
    ensures TaskOk(c, s', task)
  {
    match task
    case AddListed(j, id, at) =>
      AnswerStable(c, s, s', j, id, at, |s.log|);
      AddsApartNext(s, s', at);
    case AddStreaming(j, id, at, sn) => AnswerStable(c, s, s', j, id, at, sn);
    case _ =>
  }

  lemma AddsApartNext(s: State, s': State, at: nat)
    requires at <= |s.log| < |s'.log| == |s.log| + 1 && s.log < s'.log && s.strays <= s'.strays
    requires AddsApart(s, at, |s.log|) && At(s.log[..at]).Keys <= s.used
    requires s'.log[|s.log|].Add? ==> s'.log[|s.log|].id !in s.used && |s.log| in s'.strays
    ensures AddsApart(s', at, |s'.log|)
  {
    assert s'.log[..at] == s.log[..at];
    hide At;
  }

  /** A step that adds a member. Under the lock no other add has listed and not yet taken its snapshot; outside
      it the add is a stray, and counts as one. */
  lemma AddStep(c: Setting, s: State, s': State, step: Step)
    requires WellFormed(c) && Inv(c, s) && Do(c, s, step) == Some(s') && Adds(step)
    ensures Inv(c, s')
  {
    AddShape(c, s, s', step);
    LockStep(c, s, s', step);
    hide Do, LockOk;
    MembersAfterAdd(c, s, s', s.tasks[step.t].j, step.id);
    OwnedWereUsed(c, s, step.id);
    hide WellFormed, MembersOk, At;
    forall r | r in s'.replies ensures AnswerUpTo(c, s', r.j, r.id, r.at, r.sn) {
      AnswerStable(c, s, s', r.j, r.id, r.at, r.sn);
    }
    forall u | u in s'.tasks ensures TaskOk(c, s', s'.tasks[u]) {
      if u == step.t {
        assert FreshAdds(s'.log, |s'.log|, |s'.log|);
      } else {
        OtherTaskAfterAdd(c, s, s', step, u);
      }
    }
  }

  lemma OwnedWereUsed(c: Setting, s: State, id: Id)
    requires MembersOk(c, s) && id !in s.used
    ensures id !in s.owner
  {
  }

  lemma AddShape(c: Setting, s: State, s': State, step: Step)
    requires Do(c, s, step) == Some(s') && Adds(step)
    ensures step.t in s.tasks && (s.tasks[step.t].AddLocked? || s.tasks[step.t].AddStray?)
    ensures var j := s.tasks[step.t].j;
      && j in c.urls && step.id !in s.used && !Held(At(s.log), c.urls[j])
      && s'.log == s.log + [Add(step.id, c.urls[j], true)]
      && s'.owner == s.owner[step.id := j] && s'.used == s.used + {step.id} && s'.replies == s.replies
      && s'.tasks == s.tasks[step.t := if step.AddCommit? then AddListed(j, step.id, |s'.log|) else Ended]
      && s'.strays == (if step.AddCommit? then s.strays else s.strays + {|s.log|})
      && (step.AddCommit? ==> s.tasks[step.t].AddLocked?)
  {
    hide At, Held;
  }

  lemma OtherTaskAfterAdd(c: Setting, s: State, s': State, step: Step, u: nat)
    requires Inv(c, s) && Do(c, s, step) == Some(s') && Adds(step) && u in s.tasks && u != step.t
    ensures TaskOk(c, s', s.tasks[u])
  {
    AddShape(c, s, s', step);
    hide Do;
    var task := s.tasks[u];
    assert TaskOk(c, s, task);
    assert step.AddCommit? ==> HoldsLock(s.tasks[step.t]);
    assert step.AddCommit? ==> !HoldsLock(task);
    match task {
      case AddListed(j, id, at) =>
        if step.StrayCommit? {
          AddsApartNext(s, s', at);
          AnswerStable(c, s, s', j, id, at, |s.log|);
        }
      case AddStreaming(j, id, at, sn) => AnswerStable(c, s, s', j, id, at, sn);
      case RemoveOk(j, id) => AtAppend(s.log, s'.log[|s.log|]);
      case _ =>
    }
  }

  lemma QuietIsTask(c: Setting, s: State, s': State, step: Step)
    requires Do(c, s, step) == Some(s') && s'.log == s.log
    ensures IsTaskStep(step)
  {
    hide At;
    assert IsTaskStep(step) || |s'.log| == |s.log| + 1;
  }

  lemma InvNext(c: Setting, s: State, s': State)
    requires WellFormed(c) && Inv(c, s) && Next(c, s, s')
    ensures Inv(c, s')
  {
    hide Inv, WellFormed, Do;
    var step :| Do(c, s, step) == Some(s');
    if s'.log == s.log {
      QuietIsTask(c, s, s', step);
      QuietStep(c, s, s', step);
    } else if Adds(step) {
      AddStep(c, s, s', step);
    } else {
      var e := CommittedEntry(c, s, s', step);
      CommitStep(c, s, s', step, e);
    }
  }

  lemma {:induction false} FoundersOnly(c: Setting, n: nat)
    requires WellFormed(c) && n <= |c.founding|
    ensures forall id, j :: id in At(c.founding[..n]) && j in c.urls ==> !HoldsAny(At(c.founding[..n])[id], c.urls[j])
    ensures At(c.founding[..n]).Keys <= Initial(c).used
  {
    if n > 0 {
      FoundersOnly(c, n - 1);
      AtNext(c.founding, n - 1);
    }
  }

  lemma {:induction false} Reachable(c: Setting, run: seq<State>, k: nat)
    requires WellFormed(c) && IsRun(c, run) && k < |run|
    ensures Inv(c, run[k])
  {
    if k == 0 {
      FoundersOnly(c, |c.founding|);
      assert c.founding[..|c.founding|] == c.founding;
    } else {
      Reachable(c, run, k - 1);
      InvNext(c, run[k - 1], run[k]);
    }
  }

  // ---- results over every run ----

  /** Lost-response idempotence. In every state of every run, each joiner's URLs are held by at most one
      member; every successful answer to an add names the one member that held them when the list was
      read, never another joiner's; and two answers to one joiner name the same member unless the first
      was removed in between. */
  lemma LostResponses(c: Setting, run: seq<State>, k: nat)
    requires WellFormed(c) && IsRun(c, run) && k < |run|
    ensures var s := run[k];
      && (forall j, a, b ::
            (j in c.urls && a in At(s.log) && b in At(s.log)
             && HoldsAny(At(s.log)[a], c.urls[j]) && HoldsAny(At(s.log)[b], c.urls[j])) ==> a == b)
      && (forall r :: r in s.replies ==>
            && r.at <= |s.log| && r.j in c.urls && Resolves(At(s.log[..r.at]), c.urls[r.j], r.id)
            && forall m :: m in At(s.log[..r.at]) && HoldsAny(At(s.log[..r.at])[m], c.urls[r.j]) ==> m == r.id)
      && (forall r, q :: r in s.replies && q in s.replies && r.j != q.j ==> r.id != q.id)
      && (forall r, q :: r in s.replies && q in s.replies && r.j == q.j && r.id != q.id && r.at <= q.at <= |s.log|
            ==> r.id !in At(s.log[..q.at]))
  {
    Reachable(c, run, k);
    var s := run[k];
    forall j, a, b | j in c.urls && a in At(s.log) && b in At(s.log)
      && HoldsAny(At(s.log)[a], c.urls[j]) && HoldsAny(At(s.log)[b], c.urls[j]) ensures a == b
    {
      HolderIsUnique(c, s, j, a, b);
    }
  }

  /** No joiner but the one whose server it is ever had the member added: whatever a rollback removes was
      the joiner's own, with exactly its URLs. */
  lemma RollbackRemovesOnlyItsOwn(c: Setting, run: seq<State>, k: nat, step: Step)
    requires WellFormed(c) && IsRun(c, run) && k + 1 < |run| && Do(c, run[k], step) == Some(run[k + 1])
    requires step.SweepRemove? || step.RemoveExec?
    ensures var s, s' := run[k], run[k + 1]; var task := s.tasks[step.t];
      && task.j in c.urls
      && At(s'.log) == At(s.log) - {task.id}
      && (task.id in At(s.log) ==> At(s.log)[task.id].peerURLs == c.urls[task.j])
      && forall id, j :: id in At(s.log) && j in c.urls && j != task.j && HoldsAny(At(s.log)[id], c.urls[j])
            ==> id in At(s'.log) && At(s'.log)[id] == At(s.log)[id]
  {
    Reachable(c, run, k);
    var s := run[k];
    RemovalStep(c, s, run[k + 1], step);
    var task := s.tasks[step.t];
    assert TaskOk(c, s, task);
    AtAppend(s.log, Membership.Remove(task.id));
    hide Do, IsRun;
    forall id, j | id in At(s.log) && j in c.urls && j != task.j && HoldsAny(At(s.log)[id], c.urls[j]) ensures id != task.id {
      HolderIsOwner(c, s, j, id);
    }
  }

  lemma RemovalStep(c: Setting, s: State, s': State, step: Step)
    requires Do(c, s, step) == Some(s') && (step.SweepRemove? || step.RemoveExec?)
    ensures step.t in s.tasks && (s.tasks[step.t].SweepFound? || s.tasks[step.t].RemoveQueued?)
    ensures var id := s.tasks[step.t].id;
      s'.log == if id in At(s.log) then s.log + [Membership.Remove(id)] else s.log
  {
    hide At;
  }

  /** Removal by ID leaves no zombie: from the state in which it reports success on, in every later state, the
      ID is no member's. */
  lemma RemovedForGood(c: Setting, run: seq<State>, a: nat, b: nat, t: nat)
    requires WellFormed(c) && IsRun(c, run) && a <= b < |run| && t in run[a].tasks && run[a].tasks[t].RemoveOk?
    ensures run[a].tasks[t].id !in At(run[b].log)
  {
    hide Next;
    Reachable(c, run, a);
    assert TaskOk(c, run[a], run[a].tasks[t]);
    hide *;
    NeverBack(c, run, a, b, run[a].tasks[t].id);
  }

  lemma {:induction false} NeverBack(c: Setting, run: seq<State>, a: nat, b: nat, id: Id)
    requires IsRun(c, run) && a <= b < |run| && id in run[a].used && id !in At(run[a].log)
    ensures id in run[b].used && id !in At(run[b].log)
  {
    hide Next, At;
    if a < b {
      NeverBack(c, run, a, b - 1, id);
      StaysRemoved(c, run[b - 1], run[b], id);
    }
  }

  lemma StaysRemoved(c: Setting, s: State, s': State, id: Id)
    requires Next(c, s, s') && id in s.used && id !in At(s.log)
    ensures id in s'.used && id !in At(s'.log)
  {
    hide Do;
    var step :| Do(c, s, step) == Some(s');
    UsedGrows(c, s, s', step);
    if s'.log != s.log {
      var e := CommittedEntry(c, s, s', step);
      AtAppend(s.log, e);
      hide At;
    }
  }

  lemma UsedGrows(c: Setting, s: State, s': State, step: Step)
    requires Do(c, s, step) == Some(s')
    ensures s.used <= s'.used && (Adds(step) ==> step.id !in s.used)
  {
    hide At, Held, Resolves;
  }

  /** While no add of a joiner is outstanding, no step makes a new unstarted learner with its URLs. */
  lemma NoNewZombie(c: Setting, s: State, s': State, j: Joiner, id: Id)
    requires WellFormed(c) && Inv(c, s) && Next(c, s, s') && j in c.urls && !Outstanding(s, j)
    requires Resolves(At(s'.log), c.urls[j], id)
    ensures Resolves(At(s.log), c.urls[j], id)
  {
    var step :| Do(c, s, step) == Some(s');
    if s'.log != s.log {
      var e := CommittedEntry(c, s, s', step);
      AtAppend(s.log, e);
      if Adds(step) {
        var k := s.tasks[step.t].j;
        assert AddLocked(k).j != j && AddStray(k).j != j;
        assert id != step.id;
      } else {
        hide Do, Inv, WellFormed, At;
        KeptResolves(At(s.log), c.urls[j], e, id);
      }
    }
  }

  lemma CommittedEntry(c: Setting, s: State, s': State, step: Step) returns (e: Entry)
    requires Do(c, s, step) == Some(s') && s'.log != s.log
    ensures s'.log == s.log + [e] && (e.Publish? ==> e.name != "")
    ensures if Adds(step) then
        step.t in s.tasks && (s.tasks[step.t].AddLocked? || s.tasks[step.t].AddStray?) && s.tasks[step.t].j in c.urls
        && e == Add(step.id, c.urls[s.tasks[step.t].j], true)
      else !e.Add?
  {
    e := s'.log[|s.log|];
  }

  lemma KeptResolves(ms: Members, urls: seq<string>, e: Entry, id: Id)
    requires !e.Add? && (e.Publish? ==> e.name != "") && Resolves(Apply(ms, e), urls, id)
    ensures Resolves(ms, urls, id)
  {
  }

  /** What a sweep has established, as long as no add of its joiner was outstanding. */
  ghost predicate SweepHolds(c: Setting, s: State, t: nat, j: Joiner) {
    && t in s.tasks && j in c.urls
    && match s.tasks[t]
       case SweepQueued(k) => k == j
       case SweepFound(k, id) => k == j && forall m :: Resolves(At(s.log), c.urls[j], m) ==> m == id
       case SweepOk(k) => k == j && forall m :: !Resolves(At(s.log), c.urls[j], m)
       case Ended => true
       case _ => false
  }

  lemma SweepNext(c: Setting, s: State, s': State, t: nat, j: Joiner)
    requires WellFormed(c) && Inv(c, s) && Next(c, s, s') && !Outstanding(s, j) && SweepHolds(c, s, t, j)
    ensures SweepHolds(c, s', t, j)
  {
    var step :| Do(c, s, step) == Some(s');
    if !(IsTaskStep(step) && step.t == t) { OtherTaskStays(c, s, s', step, t); }
    hide Inv, WellFormed, Outstanding, Resolves, At, Do;
    forall m | Resolves(At(s'.log), c.urls[j], m) ensures Resolves(At(s.log), c.urls[j], m) {
      NoNewZombie(c, s, s', j, m);
    }
    if IsTaskStep(step) && step.t == t {
      SweepStep(c, s, s', step, j);
    }
  }

  lemma OtherTaskStays(c: Setting, s: State, s': State, step: Step, t: nat)
    requires Do(c, s, step) == Some(s') && t in s.tasks && !(IsTaskStep(step) && step.t == t)
    ensures t in s'.tasks && s'.tasks[t] == s.tasks[t]
  {
    hide At;
  }

  lemma SweepStep(c: Setting, s: State, s': State, step: Step, j: Joiner)
    requires WellFormed(c) && Inv(c, s) && Do(c, s, step) == Some(s') && IsTaskStep(step)
    requires SweepHolds(c, s, step.t, j)
    ensures SweepHolds(c, s', step.t, j)
  {
    hide Inv, Resolves, Held;
    match step {
      case SweepRead(t, found) =>
        if found.Some? {
          forall m | Resolves(At(s.log), c.urls[j], m) ensures m == found.value {
            ResolvedIsUnique(c, s, j, m, found.value);
          }
        }
      case SweepRemove(t) =>
        var id := s.tasks[t].id;
        AtAppend(s.log, Membership.Remove(id));
        forall m ensures !Resolves(At(s'.log), c.urls[j], m) {
          RemovedResolves(At(s.log), c.urls[j], id, m);
        }
      case _ =>
    }
  }

  lemma ResolvedIsUnique(c: Setting, s: State, j: Joiner, a: Id, b: Id)
    requires WellFormed(c) && Inv(c, s) && j in c.urls
    requires Resolves(At(s.log), c.urls[j], a) && Resolves(At(s.log), c.urls[j], b)
    ensures a == b
  {
    HolderIsUnique(c, s, j, a, b);
  }

  lemma RemovedResolves(ms: Members, urls: seq<string>, id: Id, m: Id)
    requires forall k :: Resolves(ms, urls, k) ==> k == id
    ensures !Resolves(ms - {id}, urls, m) && (id !in ms ==> !Resolves(ms, urls, m))
  {
    if Resolves(ms - {id}, urls, m) { assert Resolves(ms, urls, m); }
  }

  /** The sweep leaves no zombie: when removal by URL reports success, and from the moment it was sent no
      add of the joiner was outstanding, no unstarted learner with the joiner's URLs is left. */
  lemma SweptClean(c: Setting, run: seq<State>, t: nat, j: Joiner, a: nat, b: nat)
    requires WellFormed(c) && IsRun(c, run) && a <= b < |run| && j in c.urls
    requires IsTask(run[a], t, SweepQueued(j)) && IsTask(run[b], t, SweepOk(j))
    requires forall k :: a <= k <= b ==> !Outstanding(run[k], j)
    ensures forall id :: !Resolves(At(run[b].log), c.urls[j], id)
  {
    SweepAlong(c, run, t, j, a, b);
  }

  lemma {:induction false} SweepAlong(c: Setting, run: seq<State>, t: nat, j: Joiner, a: nat, b: nat)
    requires WellFormed(c) && IsRun(c, run) && a <= b < |run| && j in c.urls && IsTask(run[a], t, SweepQueued(j))
    requires forall k :: a <= k <= b ==> !Outstanding(run[k], j)
    ensures SweepHolds(c, run[b], t, j)
    decreases b
  {
    hide Inv, Do, Outstanding, WellFormed, Next;
    if a < b {
      hide SweepHolds;
      SweepAlong(c, run, t, j, a, b - 1);
      Reachable(c, run, b - 1);
      SweepNext(c, run[b - 1], run[b], t, j);
    }
  }

  /** Every answered add was listed and snapshotted with no other add in between but strays. Its seed replays to
      the leader's membership at every later index exactly when the window was quiet; where no stray fell into
      it, that is when no promote or remove took effect and nobody changed what it publishes. */
  lemma AnsweredSeeds(c: Setting, run: seq<State>, k: nat, r: Reply, name: string)
    requires WellFormed(c) && IsRun(c, run) && k < |run| && r in run[k].replies
    ensures var log := run[k].log;
      && r.at <= r.sn <= |log|
      && (forall i :: r.at <= i < r.sn && log[i].Add? ==> i in run[k].strays)
      && ((forall t :: r.sn <= t <= |log| ==>
             Agree(Replay(Seed(At(log[..r.at]), r.id, name), log[r.sn..t]), At(log[..t]), r.id))
          <==> QuietWindow(log, r.at, r.sn, r.id))
      && (NoAdds(log, r.at, r.sn) ==>
            (QuietWindow(log, r.at, r.sn, r.id) <==>
               (forall i :: r.at <= i < r.sn ==> !Reconfigures(At(log[..i]), log[i])) && SameAttributes(log, r.at, r.sn, r.id)))
  {
    Reachable(c, run, k);
    SeedReplays(run[k].log, r.at, r.sn, r.id, name);
    if NoAdds(run[k].log, r.at, r.sn) { SameMembersUnderLock(run[k].log, r.at, r.sn); }
  }

  /** The join's seed, end to end: a directory restored from the list an answered add reported, the joiner's
      name filled in, and from the backend of the log index its snapshot was taken at, replays to the leader's
      membership at every later index exactly when the window between list and snapshot was quiet. */
  lemma AnsweredDirectoryReplays(c: Setting, run: seq<State>, k: nat, r: Reply, infos: seq<R.MemberInfo>,
                                 dir: R.DataDir, cfg: R.RestoreConfig, source: R.Db)
    requires WellFormed(c) && IsRun(c, run) && k < |run| && r in run[k].replies
    requires r.at <= |run[k].log| && R.Lists(infos, At(run[k].log[..r.at]))
    requires R.SeedsFrom(dir, cfg, source) && source.index == r.sn && cfg.selfID == r.id
    requires R.ClusterOf(cfg.members) == Seed(R.ClusterOf(infos), r.id, cfg.name)
    ensures var log, snap := run[k].log, dir.snap.value;
      && r.at <= snap.index == r.sn <= |log|
      && ((forall t :: snap.index <= t <= |log| ==>
             Agree(Replay(snap.members, log[snap.index..t]), At(log[..t]), r.id))
          <==> QuietWindow(log, r.at, r.sn, r.id))
  {
    Reachable(c, run, k);
    R.SeededDirectoryReplays(dir, cfg, source, run[k].log, r.at, infos);
  }
}
