/** The retry loops of a join: retryUntil, and the member-add over every peer (v0alpha0/peer.go). What each
    attempt would meet is given; where the list ends, so does the context. */
module Retry {

  datatype Attempt = Done | Permanent | Transient

  datatype Outcome = Succeeded | GaveUp | Expired(last: Attempt)

  /** attempts[i] is the first that is not transient. */
  predicate Decides(attempts: seq<Attempt>, i: int) {
    && 0 <= i < |attempts| && attempts[i] != Transient
    && forall j :: 0 <= j < i ==> attempts[j] == Transient
  }

  /** The first attempt is always made. Nothing is tried after a success or a permanent error; the deadline
      ends the loop only after nothing but transient errors. */
  method RetryUntil(attempts: seq<Attempt>) returns (r: Outcome, made: nat)
    requires |attempts| > 0
    ensures 0 < made <= |attempts|
    ensures r == Succeeded <==> Decides(attempts, made - 1) && attempts[made - 1] == Done
    ensures r == GaveUp <==> Decides(attempts, made - 1) && attempts[made - 1] == Permanent
    ensures r.Expired? <==> made == |attempts| && forall j :: 0 <= j < |attempts| ==> attempts[j] == Transient
    ensures r.Expired? ==> r.last == attempts[made - 1]
  {
    made := 0;
    while true
      invariant 0 <= made < |attempts|
      invariant forall j :: 0 <= j < made ==> attempts[j] == Transient
      decreases |attempts| - made
    {
      var a := attempts[made];
      made := made + 1;
      if a == Done { return Succeeded, made; }
      if a == Permanent { return GaveUp, made; }
      if made == |attempts| { return Expired(a), made; }
    }
  }

  /** What a peer would answer to the member-add. */
  datatype Reply = Joined(id: nat) | Rejected | Failed

  predicate FirstJoined(replies: seq<Reply>, i: int) {
    && 0 <= i < |replies| && replies[i].Joined?
    && forall j :: 0 <= j < i ==> !replies[j].Joined?
  }

  predicate AnyRejected(replies: seq<Reply>) {
    Rejected in replies
  }

  predicate AnyJoined(replies: seq<Reply>) {
    exists i :: 0 <= i < |replies| && replies[i].Joined?
  }

  datatype Added = Added(peer: nat, id: nat) | NoneAdded(permanent: bool)

  /** joinAddToAny: the peers in turn up to the first that answers; no peer after it is asked. A failed
      round is permanent if any peer's error was. */
  method JoinAddToAny(replies: seq<Reply>) returns (r: Added, asked: nat)
    ensures asked <= |replies|
    ensures r.Added? ==> FirstJoined(replies, r.peer) && r.id == replies[r.peer].id && asked == r.peer + 1
    ensures r.NoneAdded? ==> asked == |replies| && !AnyJoined(replies) && (r.permanent <==> AnyRejected(replies))
  {
    var permanent := false;
    for i := 0 to |replies|
      invariant forall j :: 0 <= j < i ==> !replies[j].Joined?
      invariant permanent <==> Rejected in replies[..i]
    {
      match replies[i] {
        case Joined(id) => return Added(i, id), i + 1;
        case Rejected => permanent := true;
        case Failed =>
      }
      assert replies[..i + 1] == replies[..i] + [replies[i]];
    }
    assert replies[..|replies|] == replies;
    return NoneAdded(permanent), |replies|;
  }

  predicate Undecided(replies: seq<Reply>) {
    !AnyJoined(replies) && !AnyRejected(replies)
  }

  /** rounds[i] is the first round in which some peer answers or permanently refuses. */
  predicate DecidingRound(rounds: seq<seq<Reply>>, i: int) {
    && 0 <= i < |rounds| && !Undecided(rounds[i])
    && forall j :: 0 <= j < i ==> Undecided(rounds[j])
  }

  datatype JoinAdd = Answered(round: nat, peer: nat, id: nat) | Refused(round: nat) | Deadline

  /** The add loop of joinResolved. A round with both an answer and a permanent refusal is an answer. */
  method AddSelf(rounds: seq<seq<Reply>>) returns (r: JoinAdd)
    ensures r.Answered? ==> DecidingRound(rounds, r.round) && FirstJoined(rounds[r.round], r.peer)
                            && rounds[r.round][r.peer] == Joined(r.id)
    ensures r.Refused? ==> DecidingRound(rounds, r.round) && !AnyJoined(rounds[r.round])
    ensures r == Deadline <==> forall i :: 0 <= i < |rounds| ==> Undecided(rounds[i])
  {
    for i := 0 to |rounds|
      invariant forall j :: 0 <= j < i ==> Undecided(rounds[j])
    {
      var a, asked := JoinAddToAny(rounds[i]);
      match a {
        case Added(peer, id) =>
          assert AnyJoined(rounds[i]);
          return Answered(i, peer, id);
        case NoneAdded(permanent) => if permanent { return Refused(i); }
      }
    }
    return Deadline;
  }
}
