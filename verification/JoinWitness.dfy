/** Runs of the join protocol that show where its promises need their hypotheses. */
module JoinWitness {
  import opened Text
  import opened Membership
  import opened SeedReplay
  import opened JoinServer
  import opened JoinProtocol

  /** A cluster of one founder, and two joiners of one URL each. */
  function TwoJoiners(f: string, a: string, b: string): Setting {
    Setting(map[1 := [a], 2 := [b]], [Add(1, [f], false)])
  }

  function Last(run: seq<State>): State
    requires run != []
  {
    run[|run| - 1]
  }

  lemma Stepped(c: Setting, run: seq<State>, step: Step) returns (longer: seq<State>)
    requires IsRun(c, run) && Do(c, Last(run), step).Some?
    ensures longer == run + [Do(c, Last(run), step).value] && IsRun(c, longer)
  {
    var s' := Do(c, Last(run), step).value;
    longer := run + [s'];
    assert Next(c, Last(run), s');
    forall i | 0 <= i < |longer| - 1 ensures Next(c, longer[i], longer[i + 1]) {
      if i < |run| - 1 { assert Next(c, run[i], run[i + 1]); }
    }
  }

  lemma Started(c: Setting) returns (run: seq<State>)
    ensures run == [Initial(c)] && IsRun(c, run)
  {
    run := [Initial(c)];
  }

  /** A joiner's add from request to response, in a state in which nobody holds the lock. */
  lemma Added(c: Setting, run: seq<State>, t: nat, j: Joiner, id: Id) returns (longer: seq<State>)
    requires IsRun(c, run)
    requires t !in Last(run).tasks && Last(run).lock == None && j in c.urls && id != 0 && id !in Last(run).used
    requires !Held(At(Last(run).log), c.urls[j])
    ensures |longer| > |run| && IsRun(c, longer)
    ensures var s, s' := Last(run), Last(longer);
      && s'.strays == s.strays && s'.log == s.log + [Add(id, c.urls[j], true)] && s'.used == s.used + {id} && s'.lock == Some(t)
      && s'.tasks == s.tasks[t := AddListed(j, id, |s.log| + 1)] && s'.replies == s.replies
  {
    longer := Stepped(c, run, SendAdd(t, j));
    longer := Stepped(c, longer, Acquire(t));
    longer := Stepped(c, longer, AddCommit(t, id));
  }

  lemma Answered(c: Setting, run: seq<State>, t: nat) returns (longer: seq<State>)
    requires IsRun(c, run)
    requires t in Last(run).tasks && Last(run).tasks[t].AddListed? && Last(run).lock == Some(t)
    ensures |longer| > |run| && IsRun(c, longer)
    ensures var s, s' := Last(run), Last(longer); var task := s.tasks[t];
      && s'.log == s.log && s'.used == s.used && s'.lock == None && s'.tasks == s.tasks[t := Ended]
      && s'.replies == s.replies + {Reply(task.j, task.id, task.at, |s.log|)}
  {
    longer := Stepped(c, run, JoinProtocol.Snapshot(t));
    longer := Stepped(c, longer, Release(t));
  }

  lemma FounderMembers(f: string)
    ensures At([Add(1, [f], false)]) == map[1 := Member("", [], [f], false)]
  {
    AtAppend([], Add(1, [f], false));
    assert [] + [Add(1, [f], false)] == [Add(1, [f], false)];
  }

  /** Joiner 1's add answered, joiner 2's add committed and listed, then joiner 1 promoted. */
  lemma PromotedMeanwhile(f: string, a: string, b: string) returns (run: seq<State>)
    requires f != a && f != b && a != b
    ensures run != [] && IsRun(TwoJoiners(f, a, b), run)
    ensures var s := Last(run);
      && s.log == [Add(1, [f], false), Add(2, [a], true), Add(3, [b], true), Membership.Promote(2)]
      && IsTask(s, 1, AddListed(2, 3, 3)) && s.lock == Some(1)
  {
    var c := TwoJoiners(f, a, b);
    FounderMembers(f);
    run := Started(c);
    run := Added(c, run, 0, 1, 2);
    run := Answered(c, run, 0);
    AtAppend([Add(1, [f], false)], Add(2, [a], true));
    assert Last(run).log == [Add(1, [f], false), Add(2, [a], true)];
    run := Added(c, run, 1, 2, 3);
    assert Reply(1, 2, 2, 2) in Last(run).replies;
    hide At, Held, Resolves;
    run := Stepped(c, run, SendPromote(2, Reply(1, 2, 2, 2)));
    run := Stepped(c, run, PromoteExec(2));
  }

  lemma PromotedLog(f: string, a: string, b: string, name: string)
    ensures var log := [Add(1, [f], false), Add(2, [a], true), Add(3, [b], true), Membership.Promote(2)];
      && !QuietWindow(log, 3, 4, 3)
      && 2 in Learners(Seed(At(log[..3]), 3, name)) && 2 !in Learners(At(log[..4]))
  {
    var log := [Add(1, [f], false), Add(2, [a], true), Add(3, [b], true), Membership.Promote(2)];
    FounderMembers(f);
    assert log[..1] == [Add(1, [f], false)];
    AtNext(log, 1);
    AtNext(log, 2);
    AtNext(log, 3);
    hide At, Replay;
    assert Reconfigures(At(log[..3]), log[3]);
  }

  /** Only adds take the join lock: a promote can commit between an add's member list and its snapshot,
      and then the answered seed shows a learner where the leader has a voter. */
  lemma PromoteInTheWindow(f: string, a: string, b: string, name: string) returns (run: seq<State>, r: Reply)
    requires f != a && f != b && a != b
    ensures var c := TwoJoiners(f, a, b);
      && WellFormed(c) && run != [] && IsRun(c, run) && r in Last(run).replies && r.at <= r.sn <= |Last(run).log|
      && !QuietWindow(Last(run).log, r.at, r.sn, r.id)
      && Learners(Seed(At(Last(run).log[..r.at]), r.id, name)) != Learners(At(Last(run).log[..r.sn]))
  {
    var c := TwoJoiners(f, a, b);
    assert WellFormed(c);
    run := PromotedMeanwhile(f, a, b);
    hide At, IsRun, QuietWindow, WellFormed, Learners, Seed;
    run := Answered(c, run, 1);
    r := Reply(2, 3, 3, 4);
    PromotedLog(f, a, b, name);
  }

  /** An add sent, and a sweep of the same joiner sent after it, served first and done. */
  lemma SweptFirst(f: string, a: string, b: string) returns (run: seq<State>)
    requires f != a && f != b && a != b
    ensures run != [] && IsRun(TwoJoiners(f, a, b), run)
    ensures var s := Last(run);
      && s.log == [Add(1, [f], false)] && s.lock == None && 2 !in s.used
      && IsTask(s, 0, AddQueued(1)) && IsTask(s, 1, SweepOk(1))
  {
    var c := TwoJoiners(f, a, b);
    FounderMembers(f);
    run := Started(c);
    hide At;
    run := Stepped(c, run, SendAdd(0, 1));
    run := Stepped(c, run, SendSweep(1, 1));
    run := Stepped(c, run, SweepRead(1, None));
  }

  /** A sweep that runs ahead of an add of the same joiner reports success, and the add then leaves an
      unstarted learner behind. */
  lemma LateAddOutlivesTheSweep(f: string, a: string, b: string) returns (run: seq<State>, t: nat, id: Id)
    requires f != a && f != b && a != b
    ensures var c := TwoJoiners(f, a, b);
      && WellFormed(c) && IsRun(c, run) && IsTask(Last(run), t, SweepOk(1))
      && Resolves(At(Last(run).log), c.urls[1], id)
  {
    var c := TwoJoiners(f, a, b);
    t, id := 1, 2;
    FounderMembers(f);
    assert WellFormed(c);
    run := SweptFirst(f, a, b);
    hide IsRun, WellFormed;
    run := Stepped(c, run, Acquire(0));
    run := Stepped(c, run, AddCommit(0, 2));
    AtAppend([Add(1, [f], false)], Add(2, [a], true));
    assert a in c.urls[1];
  }

  /** Joiner 1's add is cancelled while proposing and commits only once joiner 2's add, under the lock, has been
      listed. */
  lemma StrayedMeanwhile(f: string, a: string, b: string) returns (run: seq<State>)
    requires f != a && f != b && a != b
    ensures run != [] && IsRun(TwoJoiners(f, a, b), run)
    ensures var s := Last(run);
      && s.log == [Add(1, [f], false), Add(2, [b], true), Add(3, [a], true)] && s.strays == {2}
      && IsTask(s, 1, AddListed(2, 2, 2)) && s.lock == Some(1)
  {
    var c := TwoJoiners(f, a, b);
    FounderMembers(f);
    run := Started(c);
    run := Stepped(c, run, SendAdd(0, 1));
    run := Stepped(c, run, Acquire(0));
    run := Stepped(c, run, Stray(0));
    run := Added(c, run, 1, 2, 2);
    AtAppend([Add(1, [f], false)], Add(2, [b], true));
    assert Last(run).log == [Add(1, [f], false), Add(2, [b], true)];
    assert !Held(At(Last(run).log), [a]);
    hide At, Held, Resolves;
    run := Stepped(c, run, StrayCommit(0, 3));
  }

  lemma StrayedLog(f: string, a: string, b: string, name: string)
    ensures var log := [Add(1, [f], false), Add(2, [b], true), Add(3, [a], true)];
      && !QuietWindow(log, 2, 3, 2)
      && 3 !in Learners(Seed(At(log[..2]), 2, name)) && 3 in Learners(At(log[..3]))
  {
    var log := [Add(1, [f], false), Add(2, [b], true), Add(3, [a], true)];
    FounderMembers(f);
    assert log[..1] == [Add(1, [f], false)];
    AtNext(log, 1);
    AtNext(log, 2);
    assert log[..3] == log;
    assert At(log[..2]) == map[1 := Member("", [], [f], false), 2 := Member("", [], [b], true)];
    hide At, Replay;
    assert 3 in At(log[..3]) && 3 !in At(log[..2]);
    assert !SameMembers(log, 2, 3);
  }

  /** An add whose handler was cancelled, and the lock with it released, may commit inside another joiner's
      window: the lock orders handlers, not proposals. The answered seed then lacks a member. */
  lemma StrayInTheWindow(f: string, a: string, b: string, name: string) returns (run: seq<State>, r: Reply)
    requires f != a && f != b && a != b
    ensures var c := TwoJoiners(f, a, b);
      && WellFormed(c) && run != [] && IsRun(c, run) && r in Last(run).replies && r.at <= r.sn <= |Last(run).log|
      && !QuietWindow(Last(run).log, r.at, r.sn, r.id)
      && Learners(Seed(At(Last(run).log[..r.at]), r.id, name)) != Learners(At(Last(run).log[..r.sn]))
  {
    var c := TwoJoiners(f, a, b);
    assert WellFormed(c);
    run := StrayedMeanwhile(f, a, b);
    hide At, IsRun, QuietWindow, WellFormed, Learners, Seed;
    run := Answered(c, run, 1);
    r := Reply(2, 2, 2, 3);
    StrayedLog(f, a, b, name);
  }

  // ---- adds that outlive a sweep ----

  lemma {:induction false} Unused(used: set<Id>) returns (id: Id)
    ensures id != 0 && forall u :: u in used ==> u < id
    decreases used
  {
    if used == {} { return 1; }
    var u :| u in used;
    var rest := Unused(used - {u});
    id := if rest <= u then u + 1 else rest;
    forall v | v in used ensures v < id {
      assert v == u || v in used - {u};
    }
  }

  /** An add that can still commit: proposed, or queued with the lock free. */
  predicate CanCommit(s: State, t: nat, j: Joiner) {
    IsTask(s, t, AddLocked(j)) || IsTask(s, t, AddStray(j)) || (IsTask(s, t, AddQueued(j)) && s.lock == None)
  }

  lemma Proposed(c: Setting, run: seq<State>, t: nat, j: Joiner) returns (longer: seq<State>)
    requires IsRun(c, run) && CanCommit(Last(run), t, j)
    ensures longer != [] && run <= longer && IsRun(c, longer)
    ensures var s, s' := Last(run), Last(longer);
      && s'.log == s.log && s'.used == s.used && (IsTask(s', t, AddLocked(j)) || IsTask(s', t, AddStray(j)))
      && s'.tasks == s.tasks[t := s'.tasks[t]]
  {
    assert run != [];
    hide IsRun, At;
    longer := run;
    if IsTask(Last(run), t, AddQueued(j)) { longer := Stepped(c, run, Acquire(t)); }
  }

  lemma Committed(c: Setting, run: seq<State>, t: nat, j: Joiner, id: Id) returns (longer: seq<State>)
    requires IsRun(c, run) && (IsTask(Last(run), t, AddLocked(j)) || IsTask(Last(run), t, AddStray(j)))
    requires j in c.urls && id != 0 && id !in Last(run).used && !Held(At(Last(run).log), c.urls[j])
    ensures longer != [] && run <= longer && IsRun(c, longer)
    ensures var s, s' := Last(run), Last(longer);
      && s'.log == s.log + [Add(id, c.urls[j], true)] && t in s'.tasks && s'.tasks == s.tasks[t := s'.tasks[t]]
  {
    assert run != [];
    hide IsRun, At, Held;
    longer := Stepped(c, run, if IsTask(Last(run), t, AddStray(j)) then StrayCommit(t, id) else AddCommit(t, id));
  }

  /** The condition of a clean sweep is needed: from any state in which the joiner's URLs are free and an add of
      it can still commit, whatever sweeps have already reported success, some run goes on to an unstarted
      learner with its URLs, and every other request stands where it stood. */
  lemma OutstandingAddLeavesZombie(c: Setting, run: seq<State>, t: nat, j: Joiner) returns (longer: seq<State>, id: Id)
    requires WellFormed(c) && IsRun(c, run) && j in c.urls
    requires CanCommit(Last(run), t, j) && !Held(At(Last(run).log), c.urls[j])
    ensures longer != [] && run <= longer && IsRun(c, longer)
    ensures forall u, task :: u != t && IsTask(Last(run), u, task) ==> IsTask(Last(longer), u, task)
    ensures Resolves(At(Last(longer).log), c.urls[j], id)
  {
    id := Unused(Last(run).used);
    longer := Proposed(c, run, t, j);
    longer := Committed(c, longer, t, j, id);
    AddedResolves(Last(run).log, id, c.urls[j]);
    hide IsRun, At, Held;
  }

  lemma AddedResolves(log: seq<Entry>, id: Id, urls: seq<string>)
    requires urls != []
    ensures Resolves(At(log + [Add(id, urls, true)]), urls, id)
  {
    AtAppend(log, Add(id, urls, true));
    assert urls[0] in urls;
  }
}
