/** The join resource refines the protocol: whatever a member answers to an add, a remove or a promote, and
    whatever it commits, some steps of the protocol do as well (v0alpha0/join/join.go). */
module JoinRefinement {
  import opened Text
  import opened Membership
  import opened JoinServer
  import R = Restore
  import P = JoinProtocol

  /** States that follow one from another by steps of the protocol. */
  ghost predicate IsPath(c: P.Setting, path: seq<P.State>) {
    path != [] && forall i :: 0 <= i < |path| - 1 ==> P.Next(c, path[i], path[i + 1])
  }

  function Last(path: seq<P.State>): P.State
    requires path != []
  {
    path[|path| - 1]
  }

  ghost predicate Leads(c: P.Setting, s: P.State, path: seq<P.State>) {
    IsPath(c, path) && path[0] == s
  }

  /** What the rest of the cluster does from a state on while request t waits: `meanwhile` is what it commits. */
  ghost predicate Waits(c: P.Setting, s: P.State, t: nat, path: seq<P.State>, meanwhile: seq<Entry>) {
    && Leads(c, s, path) && Last(path).log == s.log + meanwhile
    && t in s.tasks && P.IsTask(Last(path), t, s.tasks[t])
  }

  lemma OneStep(c: P.Setting, s: P.State, step: P.Step, s': P.State)
    requires P.Do(c, s, step) == Some(s')
    ensures Leads(c, s, [s, s'])
  {
    assert P.Next(c, s, s');
  }

  lemma Chain(c: P.Setting, s: P.State, a: seq<P.State>, b: seq<P.State>)
    requires Leads(c, s, a) && b != [] && Leads(c, Last(a), b)
    ensures Leads(c, s, a + b[1..]) && Last(a + b[1..]) == Last(b)
  {
    hide P.Next;
    var path := a + b[1..];
    forall i | 0 <= i < |path| - 1 ensures P.Next(c, path[i], path[i + 1]) {
      if i >= |a| - 1 {
        assert path[i] == b[i - (|a| - 1)] && path[i + 1] == b[i + 1 - (|a| - 1)];
      }
    }
  }

  /** An add, from the moment its handler holds the join lock to its answer. An answer names the member, and
      lists the membership, that the protocol's task then holds; any other status ends the task. */
  method ServeAdd(c: P.Setting, s: P.State, t: nat, j: P.Joiner, id: Id, v: Verdict, listable: bool, clusterID: nat,
                  order: Order, meanwhile: seq<Entry>, ghost others: seq<P.State>)
    returns (out: R.AddResult, status: int, log: seq<Entry>, ghost path: seq<P.State>)
    requires j in c.urls && P.IsTask(s, t, P.AddLocked(j)) && id != 0 && id !in s.used && Enumerates(order)
    requires Waits(c, P.Put(s, t, P.AddExists(j)), t, others, meanwhile)
    ensures Leads(c, s, path) && Last(path).log == log
    ensures if status == OK then P.IsTask(Last(path), t, P.AddListed(j, out.selfID, |log|)) && R.Lists(out.members, At(log))
            else P.IsTask(Last(path), t, P.Ended)
  {
    var cli := new Cluster(s.log);
    out, status := AddLearner(cli, c.urls[j], id, v, meanwhile, listable, clusterID, order);
    log := cli.log;
    path := AddPath(c, s, t, j, id, v, listable, meanwhile, others, out.selfID, status);
  }

  lemma AddPath(c: P.Setting, s: P.State, t: nat, j: P.Joiner, id: Id, v: Verdict, listable: bool,
                meanwhile: seq<Entry>, others: seq<P.State>, named: Id, status: int)
    returns (path: seq<P.State>)
    requires j in c.urls && P.IsTask(s, t, P.AddLocked(j)) && id != 0 && id !in s.used
    requires Waits(c, P.Put(s, t, P.AddExists(j)), t, others, meanwhile)
    requires v == Proposed && !Held(At(s.log), c.urls[j]) ==> status == OK && named == id
    requires v != Proposed ==> status != OK
    requires v == Proposed && Held(At(s.log), c.urls[j]) ==>
      && (status == OK ==> Resolves(At(s.log + meanwhile), c.urls[j], named))
      && (listable && status != OK ==> forall m :: !Resolves(At(s.log + meanwhile), c.urls[j], m))
      && (!listable ==> status != OK)
    ensures Leads(c, s, path)
    ensures Last(path).log ==
      if v != Proposed then s.log
      else if !Held(At(s.log), c.urls[j]) then s.log + [Add(id, c.urls[j], true)] else s.log + meanwhile
    ensures if status == OK then P.IsTask(Last(path), t, P.AddListed(j, named, |Last(path).log|))
            else P.IsTask(Last(path), t, P.Ended)
  {
    hide Held, Resolves, At;
    if v != Proposed {
      path := [s, P.Unlock(P.Put(s, t, P.Ended), t)];
      OneStep(c, s, P.Lose(t), path[1]);
    } else if !Held(At(s.log), c.urls[j]) {
      path := [s, P.Do(c, s, P.AddCommit(t, id)).value];
      OneStep(c, s, P.AddCommit(t, id), path[1]);
    } else {
      path := RefusedPath(c, s, t, j, listable, meanwhile, others, named, status);
    }
  }

  lemma RefusedPath(c: P.Setting, s: P.State, t: nat, j: P.Joiner, listable: bool, meanwhile: seq<Entry>,
                    others: seq<P.State>, named: Id, status: int)
    returns (path: seq<P.State>)
    requires j in c.urls && P.IsTask(s, t, P.AddLocked(j)) && Held(At(s.log), c.urls[j])
    requires Waits(c, P.Put(s, t, P.AddExists(j)), t, others, meanwhile)
    requires status == OK ==> Resolves(At(s.log + meanwhile), c.urls[j], named)
    requires listable && status != OK ==> forall m :: !Resolves(At(s.log + meanwhile), c.urls[j], m)
    ensures Leads(c, s, path) && Last(path).log == s.log + meanwhile
    ensures P.IsTask(Last(path), t, if status == OK then P.AddListed(j, named, |Last(path).log|) else P.Ended)
  {
    hide Held, Resolves, At, P.Next;
    var refused := [s, P.Put(s, t, P.AddExists(j))];
    OneStep(c, s, P.AddRefused(t), refused[1]);
    Chain(c, s, refused, others);
    var waited := refused + others[1..];
    var now := Last(waited);
    var step := if status == OK then P.AddRecover(t, named) else if listable then P.AddConflict(t) else P.Lose(t);
    var next := P.Do(c, now, step).value;
    OneStep(c, now, step, next);
    Chain(c, s, waited, [now, next]);
    path := waited + [now, next][1..];
  }

  /** A remove by member ID. Success is the protocol's RemoveOk. */
  method ServeRemove(c: P.Setting, s: P.State, t: nat, j: P.Joiner, id: Id, v: Verdict, order: Order)
    returns (status: int, log: seq<Entry>, ghost path: seq<P.State>)
    requires P.IsTask(s, t, P.RemoveQueued(j, id)) && Enumerates(order)
    ensures Leads(c, s, path) && Last(path).log == log
    ensures P.IsTask(Last(path), t, if status == OK then P.RemoveOk(j, id) else P.Ended)
  {
    var cli := new Cluster(s.log);
    status := JoinServer.Remove(cli, ById(id), true, [], v, order);
    log := cli.log;
    hide At;
    var step := if status == OK then P.RemoveExec(t) else P.Lose(t);
    path := [s, P.Do(c, s, step).value];
    OneStep(c, s, step, path[1]);
  }

  /** A remove by peer URLs that have no blanks around them, as a joiner's have none. Success is SweepOk. */
  method ServeSweep(c: P.Setting, s: P.State, t: nat, j: P.Joiner, listable: bool, v: Verdict, order: Order,
                    meanwhile: seq<Entry>, ghost others: map<Id, seq<P.State>>)
    returns (status: int, log: seq<Entry>, ghost path: seq<P.State>)
    requires j in c.urls && P.IsTask(s, t, P.SweepQueued(j)) && Enumerates(order) && Trimmed(c.urls[j]) == c.urls[j]
    requires forall m :: Resolves(At(s.log), c.urls[j], m) ==>
      m in others && Waits(c, P.Put(s, t, P.SweepFound(j, m)), t, others[m], meanwhile)
    ensures Leads(c, s, path) && Last(path).log == log
    ensures P.IsTask(Last(path), t, if status == OK then P.SweepOk(j) else P.Ended)
  {
    var cli := new Cluster(s.log);
    status := JoinServer.Remove(cli, ByUrls(c.urls[j]), listable, meanwhile, v, order);
    log := cli.log;
    path := SweepPath(c, s, t, j, listable, v, meanwhile, others, log, status);
  }

  lemma SweepPath(c: P.Setting, s: P.State, t: nat, j: P.Joiner, listable: bool, v: Verdict, meanwhile: seq<Entry>,
                  others: map<Id, seq<P.State>>, log: seq<Entry>, status: int)
    returns (path: seq<P.State>)
    requires j in c.urls && P.IsTask(s, t, P.SweepQueued(j))
    requires forall m :: Resolves(At(s.log), c.urls[j], m) ==>
      m in others && Waits(c, P.Put(s, t, P.SweepFound(j, m)), t, others[m], meanwhile)
    requires !listable ==> status != OK && log == s.log
    requires listable ==>
      if forall m :: !Resolves(At(s.log), c.urls[j], m) then status == OK && log == s.log
      else exists m :: Resolves(At(s.log), c.urls[j], m) && RemovedAfter(s.log, meanwhile, m, v, log, status)
    ensures Leads(c, s, path) && Last(path).log == log
    ensures P.IsTask(Last(path), t, if status == OK then P.SweepOk(j) else P.Ended)
  {
    hide Resolves, At;
    if !listable {
      path := [s, P.Unlock(P.Put(s, t, P.Ended), t)];
      OneStep(c, s, P.Lose(t), path[1]);
    } else if forall m :: !Resolves(At(s.log), c.urls[j], m) {
      path := [s, P.Put(s, t, P.SweepOk(j))];
      OneStep(c, s, P.SweepRead(t, None), path[1]);
    } else {
      var m :| Resolves(At(s.log), c.urls[j], m) && RemovedAfter(s.log, meanwhile, m, v, log, status);
      path := FoundPath(c, s, t, j, m, v, meanwhile, others[m], log, status);
    }
  }

  lemma FoundPath(c: P.Setting, s: P.State, t: nat, j: P.Joiner, m: Id, v: Verdict, meanwhile: seq<Entry>,
                  others: seq<P.State>, log: seq<Entry>, status: int)
    returns (path: seq<P.State>)
    requires j in c.urls && P.IsTask(s, t, P.SweepQueued(j)) && Resolves(At(s.log), c.urls[j], m)
    requires Waits(c, P.Put(s, t, P.SweepFound(j, m)), t, others, meanwhile)
    requires RemovedAfter(s.log, meanwhile, m, v, log, status)
    ensures Leads(c, s, path) && Last(path).log == log
    ensures P.IsTask(Last(path), t, if status == OK then P.SweepOk(j) else P.Ended)
  {
    hide Resolves, At, P.Next;
    var found := [s, P.Put(s, t, P.SweepFound(j, m))];
    OneStep(c, s, P.SweepRead(t, Some(m)), found[1]);
    Chain(c, s, found, others);
    var waited := found + others[1..];
    var now := Last(waited);
    var step := if status == OK then P.SweepRemove(t) else P.Lose(t);
    var next := P.Do(c, now, step).value;
    OneStep(c, now, step, next);
    Chain(c, s, waited, [now, next]);
    path := waited + [now, next][1..];
  }

  lemma PromoteAgain(log: seq<Entry>, id: Id)
    requires id in At(log) && !At(log)[id].isLearner
    ensures At(log + [Membership.Promote(id)]) == At(log)
  {
    AtAppend(log, Membership.Promote(id));
    assert At(log)[id].(isLearner := false) == At(log)[id];
    hide At;
  }

  /** A promote. Its commit of a member that is a voter already, or gone, changes no membership. */
  method ServePromote(c: P.Setting, s: P.State, t: nat, j: P.Joiner, id: Id, v: Verdict)
    returns (status: int, log: seq<Entry>, ghost path: seq<P.State>)
    requires P.IsTask(s, t, P.PromoteQueued(j, id))
    ensures Leads(c, s, path) && At(Last(path).log) == At(log)
    ensures P.IsTask(Last(path), t, P.Ended)
  {
    var cli := new Cluster(s.log);
    status := JoinServer.Promote(cli, Some(id), v);
    log := cli.log;
    if status == OK && !At(s.log)[id].isLearner { PromoteAgain(s.log, id); }
    hide At;
    var step := if status == OK then P.PromoteExec(t) else P.Lose(t);
    path := [s, P.Do(c, s, step).value];
    OneStep(c, s, step, path[1]);
  }
}
