/** The join handle: the single-flight gate and the exhausted latch of joinResolved (v0alpha0/peer.go),
    for any number of concurrent calls. Every load, store and compare-and-swap of
    the two flags is a step of its own. */
module Handle {
  type Call = nat

  /** Where a call is. The deferred rollback runs before the deferred gate release. */
  datatype Pc =
    | Called                      // about to load `exhausted`
    | Loaded                      // about to swap `joining`
    | Refused
    | Preparing                   // past the gate, nothing asked of the cluster
    | Adding                      // the member-add has been sent
    | Starting                    // p.Start has been called
    | Aborting                    // failed after Start; the latch is next
    | Unwinding(started: bool)    // failed; about to load `exhausted` for the release
    | Releasing                   // about to store false into `joining`
    | Failed(started: bool)
    | Succeeded

  datatype State = State(joining: bool, exhausted: bool, calls: map<Call, Pc>)

  const FRESH := State(false, false, map[])

  datatype Step =
    | Enter(c: Call)
    | LoadExhausted(c: Call)
    | Swap(c: Call)
    | MemberAdd(c: Call)       // also a retry of it
    | Start(c: Call)
    | Fail(c: Call)            // any error: configuration, add, seeding, start, promote or confirm
    | Latch(c: Call)
    | CheckExhausted(c: Call)
    | Release(c: Call)
    | Succeed(c: Call)

  predicate At(s: State, c: Call, pc: Pc) {
    c in s.calls && s.calls[c] == pc
  }

  predicate Enabled(s: State, step: Step) {
    match step
    case Enter(c) => c !in s.calls
    case LoadExhausted(c) => At(s, c, Called)
    case Swap(c) => At(s, c, Loaded)
    case MemberAdd(c) => At(s, c, Preparing) || At(s, c, Adding)
    case Start(c) => At(s, c, Adding)
    case Fail(c) => At(s, c, Preparing) || At(s, c, Adding) || At(s, c, Starting)
    case Latch(c) => At(s, c, Aborting)
    case CheckExhausted(c) => At(s, c, Unwinding(false)) || At(s, c, Unwinding(true))
    case Release(c) => At(s, c, Releasing)
    case Succeed(c) => At(s, c, Starting)
  }

  function Goto(s: State, c: Call, pc: Pc): State {
    s.(calls := s.calls[c := pc])
  }

  function Do(s: State, step: Step): State
    requires Enabled(s, step)
  {
    match step
    case Enter(c) => Goto(s, c, Called)
    case LoadExhausted(c) => Goto(s, c, if s.exhausted then Refused else Loaded)
    case Swap(c) => if s.joining then Goto(s, c, Refused) else Goto(s, c, Preparing).(joining := true)
    case MemberAdd(c) => Goto(s, c, Adding)
    case Start(c) => Goto(s, c, Starting)
    case Fail(c) => Goto(s, c, if s.calls[c] == Starting then Aborting else Unwinding(false))
    case Latch(c) => Goto(s, c, Unwinding(true)).(exhausted := true)
    case CheckExhausted(c) => Goto(s, c, if s.exhausted then Failed(s.calls[c].started) else Releasing)
    case Release(c) => Goto(s, c, Failed(false)).(joining := false)
    case Succeed(c) => Goto(s, c, Succeeded)
  }

  /** Past the gate and not yet returned. */
  predicate Inside(s: State, c: Call) {
    c in s.calls && match s.calls[c]
      case Preparing | Adding | Starting | Aborting | Unwinding(_) | Releasing => true
      case _ => false
  }

  /** The call used the handle up: it succeeded, or failed after the server was started. */
  predicate UsedUp(s: State, c: Call) {
    At(s, c, Succeeded) || At(s, c, Failed(true))
  }

  predicate Owns(s: State, c: Call) {
    Inside(s, c) || UsedUp(s, c)
  }

  predicate Latched(s: State, c: Call) {
    At(s, c, Unwinding(true)) || At(s, c, Failed(true))
  }

  /** At most one call owns the gate; the flags say whether one does, and whether it started the server
      and failed. */
  ghost predicate Inv(s: State) {
    && (forall c, d :: Owns(s, c) && Owns(s, d) ==> c == d)
    && (s.joining <==> exists c :: Owns(s, c))
    && (s.exhausted <==> exists c :: Latched(s, c))
  }

  ghost predicate IsRun(run: seq<State>, steps: seq<Step>) {
    && |run| == |steps| + 1 && run[0] == FRESH
    && forall i :: 0 <= i < |steps| ==> Enabled(run[i], steps[i]) && run[i + 1] == Do(run[i], steps[i])
  }

  lemma OthersStay(s: State, step: Step, d: Call)
    requires Enabled(s, step) && d != step.c
    ensures Owns(Do(s, step), d) <==> Owns(s, d)
    ensures Latched(Do(s, step), d) <==> Latched(s, d)
    ensures UsedUp(Do(s, step), d) <==> UsedUp(s, d)
  {
  }

  /** What a step does to its own call's ownership. */
  lemma OwnStep(s: State, step: Step)
    requires Enabled(s, step)
    ensures var s', c := Do(s, step), step.c;
      && (Owns(s', c) <==> (Owns(s, c) && !step.Release? && s'.calls[c] != Failed(false))
                           || (step.Swap? && !s.joining))
      && (Latched(s', c) <==> (Latched(s, c) && s'.calls[c] != Releasing) || step.Latch?)
  {
  }

  lemma InvNext(s: State, step: Step)
    requires Inv(s) && Enabled(s, step)
    ensures Inv(Do(s, step))
  {
    var s', c := Do(s, step), step.c;
    forall d | d != c ensures (Owns(s', d) <==> Owns(s, d)) && (Latched(s', d) <==> Latched(s, d)) {
      OthersStay(s, step, d);
    }
    OwnStep(s, step);
    if step.CheckExhausted? && s.exhausted {
      var d :| Latched(s, d);
      assert Owns(s, d) && Owns(s, c);
    }
    if s.joining {
      var d :| Owns(s, d);
      assert step.Release? || Owns(s', d);
    }
    assert step.Swap? && !s.joining ==> Owns(s', c);
    assert step.Release? ==> Owns(s, c);
    forall d | Owns(s', d) ensures s'.joining {
      assert d == c || Owns(s, d);
    }
    if s.exhausted {
      var d :| Latched(s, d);
      assert Latched(s', d);
    }
    assert step.Latch? ==> Latched(s', c);
  }

  lemma {:induction false} Reachable(run: seq<State>, steps: seq<Step>, k: nat)
    requires IsRun(run, steps) && k < |run|
    ensures Inv(run[k])
  {
    if k == 0 {
      assert forall c :: !Owns(FRESH, c) && !Latched(FRESH, c);
    } else {
      Reachable(run, steps, k - 1);
      InvNext(run[k - 1], steps[k - 1]);
    }
  }

  // ---- what the steps of a run say ----

  /** One of the first k steps is the call's Start. */
  predicate Issued(steps: seq<Step>, c: Call, k: nat)
    requires k <= |steps|
  {
    exists i :: 0 <= i < k && steps[i] == Start(c)
  }

  predicate HasStarted(s: State, c: Call) {
    At(s, c, Starting) || At(s, c, Aborting) || At(s, c, Unwinding(true)) || At(s, c, Failed(true)) || At(s, c, Succeeded)
  }

  predicate HasFailed(s: State, c: Call) {
    c in s.calls && s.calls[c].Failed?
  }

  predicate Returned(s: State, c: Call) {
    HasFailed(s, c) || At(s, c, Succeeded)
  }

  lemma StartedStep(s: State, step: Step, c: Call)
    requires Inv(s) && Enabled(s, step)
    ensures HasStarted(Do(s, step), c) <==> HasStarted(s, c) || step == Start(c)
  {
    if At(s, c, Unwinding(true)) { assert Latched(s, c); }
  }

  /** A call has got past Start exactly if the run holds its Start. */
  lemma {:induction false} StartedIff(run: seq<State>, steps: seq<Step>, c: Call, k: nat)
    requires IsRun(run, steps) && k < |run|
    ensures HasStarted(run[k], c) <==> Issued(steps, c, k)
  {
    hide HasStarted, Issued, Inv, Do, Enabled;
    if k == 0 {
      NothingStarted(steps, c);
    } else {
      StartedIff(run, steps, c, k - 1);
      Reachable(run, steps, k - 1);
      StartedStep(run[k - 1], steps[k - 1], c);
      IssuedNext(steps, c, k - 1);
    }
  }

  lemma NothingStarted(steps: seq<Step>, c: Call)
    ensures !HasStarted(FRESH, c) && !Issued(steps, c, 0)
  {
  }

  lemma IssuedNext(steps: seq<Step>, c: Call, k: nat)
    requires k < |steps|
    ensures Issued(steps, c, k + 1) <==> Issued(steps, c, k) || steps[k] == Start(c)
  {
    if Issued(steps, c, k + 1) {
      var i :| 0 <= i < k + 1 && steps[i] == Start(c);
      assert i == k || Issued(steps, c, k);
    }
    if Issued(steps, c, k) {
      var i :| 0 <= i < k && steps[i] == Start(c);
      assert 0 <= i < k + 1;
    }
  }

  /** At any instant at most one call is past the gate, and the gate is closed exactly while some call is
      past it or the server has ever been started; no two calls ever start it; a latched handle is closed. */
  lemma SingleFlight(run: seq<State>, steps: seq<Step>, k: nat)
    requires IsRun(run, steps) && k < |run|
    ensures forall c, d :: Inside(run[k], c) && Inside(run[k], d) ==> c == d
    ensures forall c, d :: Issued(steps, c, k) && Issued(steps, d, k) ==> c == d
    ensures run[k].joining <==> exists c :: Inside(run[k], c) || Issued(steps, c, k)
    ensures run[k].exhausted ==> run[k].joining
  {
    Reachable(run, steps, k);
    forall c ensures Owns(run[k], c) <==> Inside(run[k], c) || Issued(steps, c, k) {
      StartedIff(run, steps, c, k);
    }
    if run[k].exhausted {
      var c :| Latched(run[k], c);
      assert Owns(run[k], c);
    }
  }

  lemma UsedUpStep(s: State, step: Step, c: Call)
    requires Enabled(s, step) && UsedUp(s, c)
    ensures UsedUp(Do(s, step), c)
  {
    if step.c != c { OthersStay(s, step, c); }
  }

  lemma NoneInside(s: State, c: Call)
    requires Inv(s) && UsedUp(s, c)
    ensures s.joining && forall d :: !Inside(s, d)
  {
    assert Owns(s, c);
    forall d ensures !Inside(s, d) {
      assert Owns(s, d) ==> d == c;
    }
  }

  lemma {:induction false} UsedUpStays(run: seq<State>, steps: seq<Step>, c: Call, k: nat, j: nat)
    requires IsRun(run, steps) && k <= j < |run| && UsedUp(run[k], c)
    ensures UsedUp(run[j], c) && run[j].joining
    ensures forall d :: !Inside(run[j], d)
  {
    if k < j {
      UsedUpStays(run, steps, c, k, j - 1);
      UsedUpStep(run[j - 1], steps[j - 1], c);
    }
    Reachable(run, steps, j);
    NoneInside(run[j], c);
  }

  /** Once a call that started the server has returned, whether it succeeded or failed, no call ever reaches
      the member-add again: none gets past the gate. If it failed, the handle is latched as well. */
  lemma NoAddOnceUsedUp(run: seq<State>, steps: seq<Step>, c: Call, k: nat, j: nat)
    requires IsRun(run, steps) && k <= j < |run| && Issued(steps, c, k) && Returned(run[k], c)
    ensures run[j].joining && (HasFailed(run[k], c) ==> run[j].exhausted)
    ensures j < |steps| ==> !steps[j].MemberAdd? && !steps[j].Start?
    ensures j < |steps| && steps[j].Swap? ==> At(run[j + 1], steps[j].c, Refused)
  {
    StartedIff(run, steps, c, k);
    UsedUpStays(run, steps, c, k, j);
    if HasFailed(run[k], c) {
      Reachable(run, steps, k);
      assert Latched(run[k], c);
      ExhaustedStays(run, steps, k, j);
    }
    assert j < |steps| ==> !Inside(run[j], steps[j].c);
  }

  /** Once latched, always latched: the gate stays closed and no new call gets past it. */
  lemma {:induction false} ExhaustedStays(run: seq<State>, steps: seq<Step>, k: nat, j: nat)
    requires IsRun(run, steps) && k <= j < |run| && run[k].exhausted
    ensures run[j].exhausted && run[j].joining
    ensures j < |steps| ==> !steps[j].MemberAdd? && !steps[j].Start?
    ensures j < |steps| && steps[j].Swap? ==> At(run[j + 1], steps[j].c, Refused)
    ensures j < |steps| && steps[j].LoadExhausted? ==> At(run[j + 1], steps[j].c, Refused)
  {
    if k < j { ExhaustedStays(run, steps, k, j - 1); }
    Reachable(run, steps, j);
    var d :| Latched(run[j], d);
    assert Owns(run[j], d);
    if j < |steps| && Inside(run[j], steps[j].c) {
      assert Owns(run[j], steps[j].c);
    }
  }

  /** A call that fails without having started the server leaves the gate open and the latch clear as it
      returns, and the next call to swap gets past the gate. */
  lemma PreStartFailureReopens(run: seq<State>, steps: seq<Step>, c: Call, k: nat)
    requires IsRun(run, steps) && k < |steps| && !HasFailed(run[k], c) && HasFailed(run[k + 1], c)
    requires !Issued(steps, c, k)
    ensures !run[k + 1].joining && !run[k + 1].exhausted
    ensures forall d :: At(run[k + 1], d, Loaded) ==> At(Do(run[k + 1], Swap(d)), d, Preparing)
  {
    Reachable(run, steps, k);
    StartedIff(run, steps, c, k);
    var s := run[k];
    assert steps[k].c == c && Owns(s, c);
    if s.exhausted {
      var d :| Latched(s, d);
      assert Owns(s, d);
    }
  }

  /** Which failures keep the gate: exactly those of a call that started the server. */
  lemma FailureKeepsGate(run: seq<State>, steps: seq<Step>, c: Call, k: nat)
    requires IsRun(run, steps) && k < |steps| && !HasFailed(run[k], c) && HasFailed(run[k + 1], c)
    ensures run[k + 1].joining <==> Issued(steps, c, k)
    ensures run[k + 1].exhausted <==> Issued(steps, c, k)
  {
    StartedIff(run, steps, c, k);
    if Issued(steps, c, k) {
      Reachable(run, steps, k);
      StartedStep(run[k], steps[k], c);
      Reachable(run, steps, k + 1);
      assert Latched(run[k + 1], c) && Owns(run[k + 1], c);
    } else {
      PreStartFailureReopens(run, steps, c, k);
    }
  }
}
