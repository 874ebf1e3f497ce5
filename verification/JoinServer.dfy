/** The three verbs of the join resource, as one member serves them (v0alpha0/join/join.go). */
module JoinServer {
  import opened Text
  import opened Membership
  import opened Restore

  const OK := 200
  const BAD_REQUEST := 400
  const NOT_FOUND := 404
  const CONFLICT := 409

  /** How etcd answers a membership request that it does not refuse for what the membership holds. */
  datatype Verdict = Proposed | Unavailable | TooManyLearners | PermissionDenied | UserEmpty

  predicate HoldsAny(m: Member, urls: seq<string>) {
    exists u :: u in m.peerURLs && u in urls
  }

  /** Some member holds one of the URLs: etcd refuses to add them again. */
  predicate Held(ms: Members, urls: seq<string>) {
    exists id :: id in ms && HoldsAny(ms[id], urls)
  }

  /** The member is the shape a half-committed join leaves: an unstarted learner with one of the URLs. */
  predicate Resolves(ms: Members, urls: seq<string>, id: Id) {
    id in ms && UnstartedLearner(ms[id]) && HoldsAny(ms[id], urls)
  }

  /** etcd seen through a member's in-process client. */
  class Cluster {
    var log: seq<Entry>

    constructor (log: seq<Entry>)
      ensures this.log == log
    {
      this.log := log;
    }

    method MemberAddAsLearner(urls: seq<string>, id: Id, v: Verdict) returns (added: bool, taken: bool)
      modifies this
      ensures added <==> v == Proposed && !Held(At(old(log)), urls)
      ensures taken <==> v == Proposed && Held(At(old(log)), urls)
      ensures log == if added then old(log) + [Add(id, urls, true)] else old(log)
    {
      if v != Proposed { return false, false; }
      taken := Held(At(log), urls);
      added := !taken;
      if added { log := log + [Add(id, urls, true)]; }
    }

    method MemberRemove(id: Id, v: Verdict) returns (removed: bool, notFound: bool)
      modifies this
      ensures removed <==> v == Proposed && id in At(old(log))
      ensures notFound <==> v == Proposed && id !in At(old(log))
      ensures log == if removed then old(log) + [Membership.Remove(id)] else old(log)
    {
      if v != Proposed { return false, false; }
      removed := id in At(log);
      notFound := !removed;
      if removed { log := log + [Membership.Remove(id)]; }
    }

    method MemberPromote(id: Id, v: Verdict) returns (promoted: bool, notFound: bool, notLearner: bool)
      modifies this
      ensures promoted <==> v == Proposed && id in At(old(log)) && At(old(log))[id].isLearner
      ensures notFound <==> v == Proposed && id !in At(old(log))
      ensures notLearner <==> v == Proposed && id in At(old(log)) && !At(old(log))[id].isLearner
      ensures log == if promoted then old(log) + [Membership.Promote(id)] else old(log)
    {
      if v != Proposed { return false, false, false; }
      notFound := id !in At(log);
      notLearner := !notFound && !At(log)[id].isLearner;
      promoted := !notFound && !notLearner;
      if promoted { log := log + [Membership.Promote(id)]; }
    }

    /** What other members commit while this one waits between two of its calls. */
    method Meanwhile(entries: seq<Entry>)
      modifies this
      ensures log == old(log) + entries
    {
      log := log + entries;
    }
  }

  /** The order in which a member list comes back. */
  type Order = Members -> seq<Id>

  ghost predicate Enumerates(order: Order) {
    forall ms: Members ::
      && (forall id :: id in order(ms) <==> id in ms)
      && (forall i, j :: 0 <= i < j < |order(ms)| ==> order(ms)[i] != order(ms)[j])
  }

  /** The first unstarted learner of a list that holds one of the URLs, as given. */
  method FirstHolder(list: seq<MemberInfo>, urls: seq<string>) returns (found: Option<Id>)
    ensures found == None <==> forall i :: 0 <= i < |list| ==> !Matches(list[i].member, urls)
    ensures found.Some? ==> exists i :: FirstMatch(list, urls, i) && list[i].id == found.value
  {
    var want := set u | u in urls;
    for i := 0 to |list|
      invariant forall k :: 0 <= k < i ==> !Matches(list[k].member, urls)
    {
      var m := list[i].member;
      if !m.isLearner || m.name != "" { continue; }
      for j := 0 to |m.peerURLs|
        invariant forall k :: 0 <= k < j ==> m.peerURLs[k] !in urls
      {
        if m.peerURLs[j] in want {
          assert Matches(m, urls);
          assert FirstMatch(list, urls, i);
          return Some(list[i].id);
        }
      }
    }
    return None;
  }

  /** Each URL without surrounding blanks. */
  function Trimmed(urls: seq<string>): seq<string> {
    seq(|urls|, i requires 0 <= i < |urls| => TrimSpace(urls[i]))
  }

  /** URLs that neither begin nor end with a blank, such as a joiner sends, are wanted as they are. */
  lemma TrimmedClean(urls: seq<string>)
    requires forall u :: u in urls && u != "" ==> !IsSpace(u[0]) && !IsSpace(u[|u| - 1])
    ensures Trimmed(urls) == urls
  {
    forall i | 0 <= i < |urls| ensures TrimSpace(urls[i]) == urls[i] {
      assert urls[i] in urls;
    }
  }

  /** findUnstartedLearner: the first unstarted learner of a list that holds one of the trimmed URLs. */
  method FindUnstartedLearner(list: seq<MemberInfo>, urls: seq<string>) returns (found: Option<Id>)
    ensures found == None <==> forall i :: 0 <= i < |list| ==> !Matches(list[i].member, Trimmed(urls))
    ensures found.Some? ==> exists i :: FirstMatch(list, Trimmed(urls), i) && list[i].id == found.value
  {
    var want: seq<string> := [];
    for i := 0 to |urls|
      invariant want == Trimmed(urls)[..i]
    {
      want := want + [TrimSpace(urls[i])];
    }
    found := FirstHolder(list, want);
  }

  predicate FirstMatch(list: seq<MemberInfo>, urls: seq<string>, i: int) {
    && 0 <= i < |list| && Matches(list[i].member, urls)
    && forall k :: 0 <= k < i ==> !Matches(list[k].member, urls)
  }

  predicate Matches(m: Member, urls: seq<string>) {
    UnstartedLearner(m) && HoldsAny(m, urls)
  }

  /** Over a complete list, the search finds a member exactly when one resolves. */
  lemma SearchResolves(list: seq<MemberInfo>, ms: Members, urls: seq<string>)
    requires Lists(list, ms)
    ensures (forall i :: 0 <= i < |list| ==> !Matches(list[i].member, urls)) <==> forall id :: !Resolves(ms, urls, id)
    ensures forall i :: 0 <= i < |list| && Matches(list[i].member, urls) ==> Resolves(ms, urls, list[i].id)
  {
    forall id | Resolves(ms, urls, id) ensures exists i :: 0 <= i < |list| && Matches(list[i].member, urls) {
      var i :| 0 <= i < |list| && list[i].id == id;
      assert Matches(list[i].member, urls);
    }
    forall i | 0 <= i < |list| && Matches(list[i].member, urls) ensures Resolves(ms, urls, list[i].id) {
      assert list[i].id in ms && list[i].member == ms[list[i].id];
    }
  }

  /** addLearner: add the URLs as a learner, or recover an earlier add of them whose response was lost. */
  method AddLearner(cli: Cluster, urls: seq<string>, id: Id, v: Verdict, meanwhile: seq<Entry>, listable: bool,
                    clusterID: nat, order: Order)
    returns (out: AddResult, status: int)
    requires Enumerates(order)
    modifies cli
    ensures var before := At(old(cli.log));
      && (v == Proposed && !Held(before, urls) ==>
            cli.log == old(cli.log) + [Add(id, urls, true)] && status == OK && out.selfID == id)
      && (v != Proposed ==> 
            cli.log == old(cli.log)
            && status == if v == TooManyLearners || v == PermissionDenied || v == UserEmpty then NOT_FOUND else CONFLICT)
      && (v == Proposed && Held(before, urls) ==>
            && cli.log == old(cli.log) + meanwhile
            && (!listable ==> status == CONFLICT)
            && (listable ==> (status == OK <==> exists m :: Resolves(At(cli.log), urls, m)))
            && (listable ==> status == OK || status == NOT_FOUND)
            && (listable && status == OK ==> Resolves(At(cli.log), urls, out.selfID)))
    ensures status == OK ==> Lists(out.members, At(cli.log)) && out.clusterID == clusterID
  {
    var none := AddResult(0, 0, []);
    var added, taken := cli.MemberAddAsLearner(urls, id, v);
    if added {
      var members := ToMemberInfos(At(cli.log), order(At(cli.log)));
      return AddResult(id, clusterID, members), OK;
    }
    if taken {
      cli.Meanwhile(meanwhile);
      if !listable { return none, CONFLICT; }
      var list := ToMemberInfos(At(cli.log), order(At(cli.log)));
      var found := FirstHolder(list, urls);
      SearchResolves(list, At(cli.log), urls);
      match found
      case Some(m) => return AddResult(m, clusterID, list), OK;
      case None => return none, NOT_FOUND;
    }
    if v == TooManyLearners || v == PermissionDenied || v == UserEmpty { return none, NOT_FOUND; }
    return none, CONFLICT;
  }

  /** The query of a DELETE: a member ID, or the peer URLs of a join whose response was lost. */
  datatype Selector = ById(id: Id) | ByUrls(urls: seq<string>) | Neither

  /** remove: the rollback. By URL it first resolves the unstarted learner; resolving none is success. */
  method Remove(cli: Cluster, sel: Selector, listable: bool, meanwhile: seq<Entry>, v: Verdict, order: Order)
    returns (status: int)
    requires Enumerates(order)
    modifies cli
    ensures status == OK || status == CONFLICT || status == BAD_REQUEST
    ensures status == BAD_REQUEST <==> sel == Neither
    ensures sel.ById? ==>
      && cli.log == (if v == Proposed && sel.id in At(old(cli.log)) then old(cli.log) + [Membership.Remove(sel.id)] else old(cli.log))
      && (status == OK <==> v == Proposed)
    // Success by ID: the member is gone.
    ensures sel.ById? && status == OK ==> sel.id !in At(cli.log)
    ensures sel.ByUrls? && !listable ==> status == CONFLICT && cli.log == old(cli.log)
    ensures sel.ByUrls? && listable ==>
      if forall m :: !Resolves(At(old(cli.log)), Trimmed(sel.urls), m) then status == OK && cli.log == old(cli.log)
      else exists m :: Resolves(At(old(cli.log)), Trimmed(sel.urls), m) && RemovedAfter(old(cli.log), meanwhile, m, v, cli.log, status)
    ensures sel == Neither ==> cli.log == old(cli.log)
  {
    var id: Id;
    match sel {
      case ById(given) => id := given;
      case Neither => return BAD_REQUEST;
      case ByUrls(urls) =>
        if !listable { return CONFLICT; }
        var list := ToMemberInfos(At(cli.log), order(At(cli.log)));
        var found := FindUnstartedLearner(list, urls);
        SearchResolves(list, At(cli.log), Trimmed(urls));
        if found.None? { return OK; }
        id := found.value;
        cli.Meanwhile(meanwhile);
    }
    ghost var before := cli.log;
    var removed, notFound := cli.MemberRemove(id, v);
    AtAppend(before, Membership.Remove(id));
    status := if removed || notFound then OK else CONFLICT;
    assert sel.ByUrls? ==> RemovedAfter(old(cli.log), meanwhile, id, v, cli.log, status);
  }

  /** A member resolved from one log is removed from a longer one, if it is still there. */
  ghost predicate RemovedAfter(log: seq<Entry>, meanwhile: seq<Entry>, id: Id, v: Verdict, log': seq<Entry>, status: int) {
    var now := log + meanwhile;
    && log' == (if v == Proposed && id in At(now) then now + [Membership.Remove(id)] else now)
    && (status == OK <==> v == Proposed)
    && (status == OK ==> id !in At(log'))
  }

  /** reconfig with a promote: a member that is already a voter counts as promoted. */
  method Promote(cli: Cluster, id: Option<Id>, v: Verdict) returns (status: int)
    modifies cli
    ensures status == BAD_REQUEST <==> id == None
    ensures status == OK <==> id.Some? && v == Proposed && id.value in At(old(cli.log))
    ensures status == OK ==> id.value in At(cli.log) && !At(cli.log)[id.value].isLearner
    ensures status == NOT_FOUND <==> id.Some? && v == Proposed && id.value !in At(old(cli.log))
    ensures status != OK ==> cli.log == old(cli.log)
    ensures status == OK ==>
      cli.log == if At(old(cli.log))[id.value].isLearner then old(cli.log) + [Membership.Promote(id.value)] else old(cli.log)
  {
    if id.None? { return BAD_REQUEST; }
    var promoted, notFound, notLearner := cli.MemberPromote(id.value, v);
    AtAppend(old(cli.log), Membership.Promote(id.value));
    if promoted || notLearner { return OK; }
    if notFound { return NOT_FOUND; }
    return CONFLICT;
  }
}
