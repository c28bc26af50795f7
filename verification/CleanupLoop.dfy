/** Recovery after a scenario: a loop bounded by a deadline, over faults, traffic and health checks. */
module CleanupLoop {
  import opened Numbers

  type Fault = nat

  /** The `recovered` field of a result: exactly True, something else that counts as true, or not. */
  datatype Flag = IsTrue | Truthy | IsFalse

  /** `hopeless` is `retryable` given as exactly False. */
  datatype Item = NotADict | Item(recovered: Flag, hopeless: bool)

  datatype Results = Absent | NotAList | Listed(items: seq<Item>)

  // ---------------------------------------------------------------- the injector

  /** What becomes of one fault. */
  datatype Answer = UnknownType | Raised | Answered(recovered: Flag, hopeless: bool)

  function ItemOf(a: Answer): Item {
    match a
    case Answered(recovered, hopeless) => Item(recovered, hopeless)
    case _ => Item(IsFalse, false)
  }

  predicate Gone(a: Answer) { a.Answered? && a.recovered != IsFalse }

  function ItemsOf(faults: seq<Fault>, answers: Fault -> Answer): (r: seq<Item>)
    ensures |r| == |faults|
  {
    seq(|faults|, i requires 0 <= i < |faults| => ItemOf(answers(faults[i])))
  }

  /** The faults that stay, in their order. */
  function Staying(faults: seq<Fault>, answers: Fault -> Answer): seq<Fault> {
    if faults == [] then []
    else
      var last := faults[|faults| - 1];
      Staying(faults[..|faults| - 1], answers) + if Gone(answers(last)) then [] else [last]
  }

  /** `sub` is obtained from `all` by dropping exactly the elements `dropped` says. */
  ghost predicate Subsequence(sub: seq<Fault>, all: seq<Fault>, at: seq<nat>) {
    && |at| == |sub|
    && (forall i :: 0 <= i < |at| ==> at[i] < |all| && sub[i] == all[at[i]])
    && (forall i, j :: 0 <= i < j < |at| ==> at[i] < at[j])
  }

  /** The indices are those of the faults that are not gone. */
  ghost predicate Marks(at: seq<nat>, faults: seq<Fault>, answers: Fault -> Answer) {
    forall k :: 0 <= k < |faults| ==> (k in at <==> !Gone(answers(faults[k])))
  }

  /** The staying faults are the unrecovered ones, each exactly where it was relative to the others. */
  lemma {:induction false} StayingIsSubsequence(faults: seq<Fault>, answers: Fault -> Answer) returns (at: seq<nat>)
    ensures Subsequence(Staying(faults, answers), faults, at)
    ensures Marks(at, faults, answers)
  {
    hide Subsequence;
    hide Marks;
    hide Gone;
    at := [];
    if faults == [] {
      NothingMarked(answers);
    } else {
      var n := |faults| - 1;
      var front := StayingIsSubsequence(faults[..n], answers);
      var before := Staying(faults[..n], answers);
      assert Staying(faults, answers) == if Gone(answers(faults[n])) then before else before + [faults[n]];
      SubsequencePush(before, faults, front);
      MarksPush(front, faults, answers);
      at := if Gone(answers(faults[n])) then front else front + [n];
    }
  }

  lemma NothingMarked(answers: Fault -> Answer)
    ensures Subsequence([], [], []) && Marks([], [], answers)
  {
  }

  lemma MarksPush(at: seq<nat>, faults: seq<Fault>, answers: Fault -> Answer)
    requires faults != [] && Marks(at, faults[..|faults| - 1], answers) && |faults| - 1 !in at
    ensures Marks(if Gone(answers(faults[|faults| - 1])) then at else at + [|faults| - 1], faults, answers)
  {
    assert forall k :: 0 <= k < |faults| - 1 ==> faults[..|faults| - 1][k] == faults[k];
    hide Gone;
  }

  lemma SubsequencePush(sub: seq<Fault>, all: seq<Fault>, at: seq<nat>)
    requires all != [] && Subsequence(sub, all[..|all| - 1], at)
    ensures Subsequence(sub, all, at) && |all| - 1 !in at
    ensures Subsequence(sub + [all[|all| - 1]], all, at + [|all| - 1])
  {
  }

  lemma {:induction false} NoneStay(faults: seq<Fault>, answers: Fault -> Answer)
    ensures AllRecovered(Listed(ItemsOf(faults, answers))) ==> Staying(faults, answers) == []
  {
    if faults != [] {
      var front := faults[..|faults| - 1];
      NoneStay(front, answers);
      var items := ItemsOf(faults, answers);
      assert items[..|front|] == ItemsOf(front, answers);
      if AllRecovered(Listed(items)) {
        assert items[|front|].recovered == IsTrue;
        forall i | 0 <= i < |front| ensures Good(ItemsOf(front, answers)[i]) { assert Good(items[i]); }
      }
    }
  }

  class FaultInjector {
    var activeFaults: seq<Fault>

    constructor (faults: seq<Fault>)
      ensures activeFaults == faults
    {
      activeFaults := faults;
    }

    method RecoverAll(answers: Fault -> Answer) returns (results: seq<Item>)
      modifies this
      ensures results == ItemsOf(old(activeFaults), answers)
      ensures activeFaults == Staying(old(activeFaults), answers)
    {
      results := [];
      var remaining := [];
      for i := 0 to |activeFaults|
        invariant results == ItemsOf(activeFaults[..i], answers)
        invariant remaining == Staying(activeFaults[..i], answers)
      {
        assert activeFaults[..i + 1][..i] == activeFaults[..i];
        var fault := activeFaults[i];
        var answer := answers(fault);
        results := results + [ItemOf(answer)];
        if !Gone(answer) {
          remaining := remaining + [fault];
        }
      }
      assert activeFaults[..|activeFaults|] == activeFaults;
      activeFaults := remaining;
    }
  }

  // ---------------------------------------------------------------- the loop

  predicate Good(item: Item) { item.Item? && item.recovered == IsTrue }

  /** `_recovery_results_succeeded`. */
  predicate AllRecovered(results: Results) {
    results.Listed? && forall i :: 0 <= i < |results.items| ==> Good(results.items[i])
  }

  predicate GivenUp(item: Item) { item.Item? && item.recovered != IsTrue && item.hopeless }

  /** `_recovery_has_terminal_failure`. */
  predicate Hopeless(results: Results) {
    results.Listed? && exists i :: 0 <= i < |results.items| && GivenUp(results.items[i])
  }

  /** Recovery is given up exactly when some fault was answered about, is not reported recovered, and is
      not to be retried; one whose recovery raised, or whose type is unknown, is tried again. */
  lemma HopelessIffGivenUp(faults: seq<Fault>, answers: Fault -> Answer)
    ensures Hopeless(Listed(ItemsOf(faults, answers))) <==>
      exists i :: 0 <= i < |faults| && IsGivenUp(answers(faults[i]))
  {
    var items := ItemsOf(faults, answers);
    assert forall i :: 0 <= i < |faults| ==> (GivenUp(items[i]) <==> IsGivenUp(answers(faults[i])));
    hide ItemsOf;
    hide GivenUp;
    hide IsGivenUp;
  }

  ghost predicate IsGivenUp(a: Answer) { a.Answered? && a.recovered != IsTrue && a.hopeless }

  /** Recovery counts as done: no fault is active, and the latest results, if any, are all good. */
  predicate IsComplete(faults: seq<Fault>, results: Results) {
    faults == [] && (results == Absent || AllRecovered(results))
  }

  /** How the world behaves during one attempt: whether the recovery call raises, what becomes of the
      faults, whether the traffic is ready, how many health and baseline errors are reported, and how
      much time the attempt and the sleep after it take beyond what is asked for. */
  datatype World = World(raises: bool, answers: Fault -> Answer, flows: bool, verified: bool,
                         healthErrors: nat, baselineErrors: nat, busy: real, late: real)

  /** Why recovery counts as not converged. */
  datatype Problem = TrafficNotReady | Unhealthy

  datatype Status =
    | Clean | RecoveredAfterRetry | BaselineFailed | TerminalFailure | ConvergenceTimeout | RecoveryTimeout

  predicate Success(s: Status) { s == Clean || s == RecoveredAfterRetry }

  predicate TimedOut(s: Status) { s == ConvergenceTimeout || s == RecoveryTimeout }

  const POLL_SECONDS: real := 5.0

  /** The active faults and the latest results after `k` attempts: an attempt that finds the recovery
      incomplete tries each remaining fault once more, unless the recovery call raises. */
  datatype Progress = Progress(faults: seq<Fault>, results: Results) {
    predicate Complete() { IsComplete(faults, results) }
  }

  function ProgressAfter(start: Progress, world: nat -> World, k: nat): Progress {
    if k == 0 then start
    else
      var before, w := ProgressAfter(start, world, k - 1), world(k - 1);
      if before.Complete() || w.raises then before
      else Progress(Staying(before.faults, w.answers), Listed(ItemsOf(before.faults, w.answers)))
  }

  /** How many of the first `k` attempts made a recovery call that returned. */
  function RecoveriesUpTo(start: Progress, world: nat -> World, k: nat): nat {
    if k == 0 then 0
    else
      RecoveriesUpTo(start, world, k - 1)
      + if ProgressAfter(start, world, k - 1).Complete() || world(k - 1).raises then 0 else 1
  }

  /** Results are those of the last recovery call that returned; nothing changes without one. */
  lemma {:induction false} RecoveriesChange(start: Progress, world: nat -> World, k: nat)
    ensures RecoveriesUpTo(start, world, k) > 0 ==> ProgressAfter(start, world, k).results.Listed?
    ensures RecoveriesUpTo(start, world, k) == 0 ==> ProgressAfter(start, world, k) == start
    ensures start.Complete() ==> RecoveriesUpTo(start, world, k) == 0
  {
    hide IsComplete;
    if k > 0 { RecoveriesChange(start, world, k - 1); }
  }

  class ScenarioExecutor {
    const injector: FaultInjector
    const timeout: real
    const postRecoveryWait: nat
    const hasController: bool
    const hasWorker: bool

    constructor (injector: FaultInjector, timeout: real, postRecoveryWait: nat, hasController: bool, hasWorker: bool)
      ensures this.injector == injector && this.timeout == timeout && this.postRecoveryWait == postRecoveryWait
      ensures this.hasController == hasController && this.hasWorker == hasWorker
    {
      this.injector, this.timeout, this.postRecoveryWait := injector, timeout, postRecoveryWait;
      this.hasController, this.hasWorker := hasController, hasWorker;
    }

    /** The convergence errors that are reported. */
    function Problems(world: World): seq<Problem> {
      (if hasController && (!world.flows || !world.verified) then [TrafficNotReady] else [])
      + if hasWorker then seq(world.healthErrors, i => Unhealthy) else []
    }

    /** The traffic is ready and all devices are healthy, as far as there are any to check. */
    ghost predicate Converged(world: World) {
      && (hasController ==> world.flows && world.verified)
      && (hasWorker ==> world.healthErrors == 0)
    }

    /** An attempt that ends like this ends the loop before the deadline: everything is recovered and has
        converged, or some fault is given up. */
    ghost predicate StopsAfter(p: Progress, world: World) {
      (p.Complete() && Converged(world)) || (!p.Complete() && !world.raises && Hopeless(p.results))
    }

    /** How many waits after recovery a run that ended like this has made. */
    ghost predicate WaitsAre(waits: nat, recoveries: nat, faults: seq<Fault>, results: Results) {
      waits == if postRecoveryWait > 0 && recoveries > 0 && IsComplete(faults, results) && results != Listed([]) then 1 else 0
    }

    /** When attempt `k` is over: the attempt that completes the recovery is followed by a wait. */
    ghost function EndOf(start: Progress, world: nat -> World, k: nat): real
      requires k > 0
      decreases k, 0
    {
      var before, now := ProgressAfter(start, world, k - 1), ProgressAfter(start, world, k);
      StartAfter(start, world, k - 1) + world(k - 1).busy
      + if !before.Complete() && now.Complete() && now.results != Listed([]) then postRecoveryWait as real else 0.0
    }

    /** When the sleep after attempt `k` is over; nothing is slept once the deadline has passed. */
    ghost function StartAfter(start: Progress, world: nat -> World, k: nat): real
      decreases k, 1
    {
      if k == 0 then 0.0
      else
        var end := EndOf(start, world, k);
        if end >= timeout then end else end + RealMin(POLL_SECONDS, timeout - end) + world(k - 1).late
    }

    /** No attempt before attempt `n` ends the loop, and each leaves time for the next one. */
    ghost predicate GoesOnBefore(start: Progress, world: nat -> World, n: nat) {
      forall k :: 1 <= k < n ==>
        && !StopsAfter(ProgressAfter(start, world, k), world(k - 1))
        && StartAfter(start, world, k) < timeout
    }

    /** The clock starts at 0 and `world(k)` is how attempt `k + 1` goes. `recoveries` counts the
        recovery calls that returned, `waits` the waits after recovery, and `clock` is the time at the
        end. */
    method CleanupAfterScenario(prior: Results, checkBaseline: bool, world: nat -> World)
      returns (status: Status, attempts: nat, results: Results,
               ghost recoveries: nat, ghost waits: nat, ghost clock: real)
      requires forall k :: world(k).busy >= 0.0 && world(k).late >= 0.0
      modifies injector
      ensures 1 <= attempts <= Max(1, RealCeil(timeout / 5.0))
      ensures Success(status) || TimedOut(status) || status == BaselineFailed || status == TerminalFailure
      ensures Success(status) ==> IsComplete(injector.activeFaults, results) && Converged(world(attempts - 1))
      ensures Success(status) && recoveries > 0 && checkBaseline ==> world(attempts - 1).baselineErrors == 0
      ensures Success(status) ==> (status == Clean <==> attempts == 1)
      ensures status == BaselineFailed ==>
        && IsComplete(injector.activeFaults, results) && Converged(world(attempts - 1))
        && recoveries > 0 && checkBaseline && world(attempts - 1).baselineErrors > 0
      ensures status == TerminalFailure ==> Hopeless(results)
      ensures status == ConvergenceTimeout ==>
        IsComplete(injector.activeFaults, results) && !Converged(world(attempts - 1))
      ensures status == RecoveryTimeout ==> !IsComplete(injector.activeFaults, results)
      ensures TimedOut(status) <==>
        !StopsAfter(ProgressAfter(Progress(old(injector.activeFaults), prior), world, attempts), world(attempts - 1))
      ensures clock ==
        if TimedOut(status) then StartAfter(Progress(old(injector.activeFaults), prior), world, attempts)
        else EndOf(Progress(old(injector.activeFaults), prior), world, attempts)
      ensures TimedOut(status) ==> clock >= timeout
      ensures WaitsAre(waits, recoveries, injector.activeFaults, results)
      ensures Progress(injector.activeFaults, results)
           == ProgressAfter(Progress(old(injector.activeFaults), prior), world, attempts)
      ensures GoesOnBefore(Progress(old(injector.activeFaults), prior), world, attempts)
      ensures recoveries == RecoveriesUpTo(Progress(old(injector.activeFaults), prior), world, attempts)
      ensures recoveries > 0 ==> results.Listed?
      ensures recoveries == 0 ==> results == prior && injector.activeFaults == old(injector.activeFaults)
      ensures old(IsComplete(injector.activeFaults, prior)) ==> recoveries == 0
    {
      hide RealCeil;
      hide IsComplete;
      hide Hopeless;
      hide Converged;
      hide ItemsOf;
      hide Staying;
      hide ProgressAfter;
      hide RecoveriesUpTo;
      hide EndOf;
      hide StartAfter;
      hide Max;
      hide StopsAfter;
      hide Problems;
      hide GoesOnBefore;
      ghost var start := Progress(injector.activeFaults, prior);
      FirstAttempt();
      StartOfProgress(start, world);
      recoveries, waits := 0, 0;
      var now := 0.0;
      attempts := 0;
      results := prior;
      var recoveryAttempted, postRecoveryWaited := false, false;
      var convergencePending, terminalRecoveryFailure := false, false;
      while attempts == 0 || now < timeout
        invariant now >= timeout || now >= POLL_SECONDS * attempts as real
        invariant attempts <= Max(1, RealCeil(timeout / POLL_SECONDS))
        invariant attempts == 0 ==> !convergencePending
        invariant attempts > 0 ==> (convergencePending <==> IsComplete(injector.activeFaults, results))
        invariant attempts > 0 && convergencePending ==> !Converged(world(attempts - 1))
        invariant !terminalRecoveryFailure
        invariant Progress(injector.activeFaults, results) == ProgressAfter(start, world, attempts)
        invariant attempts > 0 ==> !StopsAfter(ProgressAfter(start, world, attempts), world(attempts - 1))
        invariant GoesOnBefore(start, world, attempts)
        invariant now == StartAfter(start, world, attempts)
        invariant recoveryAttempted && IsComplete(injector.activeFaults, results) ==> recoveries > 0
        invariant !recoveryAttempted ==> recoveries == 0
        invariant recoveries == RecoveriesUpTo(start, world, attempts)
        invariant WaitsAre(waits, recoveries, injector.activeFaults, results)
        invariant postRecoveryWaited <==> recoveries > 0 && IsComplete(injector.activeFaults, results) && results != Listed([])
        decreases Max(1, RealCeil(timeout / POLL_SECONDS)) - attempts
      {
        if attempts > 0 { CeilingAbove(attempts, timeout); }
        var w := world(attempts);
        OneMoreAttempt(start, world, attempts);
        GoesOnFurther(start, world, attempts);
        RecoveriesChange(start, world, attempts + 1);
        attempts := attempts + 1;
        OneMoreSleep(start, world, attempts);
        var recoveryComplete := IsComplete(injector.activeFaults, results);
        if !recoveryComplete {
          recoveryAttempted := true;
          recoveries := recoveries + if w.raises then 0 else 1;
          results, recoveryComplete, terminalRecoveryFailure := TryRecovery(w, results);
        }
        StopsWhen(Progress(injector.activeFaults, results), w);
        now := now + w.busy;
        if recoveryComplete {
          if recoveryAttempted && results != Listed([]) && !postRecoveryWaited {
            if postRecoveryWait != 0 {
              now := now + postRecoveryWait as real;
              waits := waits + 1;
            }
            postRecoveryWaited := true;
          }
          NoProblems(w);
          if Problems(w) == [] {
            clock := now;
            status :=
              if recoveryAttempted && checkBaseline && w.baselineErrors > 0 then BaselineFailed
              else if attempts == 1 then Clean else RecoveredAfterRetry;
            return;
          }
          convergencePending := true;
        } else if terminalRecoveryFailure {
          break;
        }
        var remaining := timeout - now;
        if remaining <= 0.0 { break; }
        now := now + RealMin(POLL_SECONDS, remaining) + w.late;
      }
      RecoveriesChange(start, world, attempts);
      clock := now;
      status :=
        if terminalRecoveryFailure then TerminalFailure
        else if convergencePending then ConvergenceTimeout else RecoveryTimeout;
    }

    /** One recovery call on what is left; one that raises leaves everything as it was. */
    method TryRecovery(w: World, before: Results) returns (results: Results, complete: bool, terminal: bool)
      requires !IsComplete(injector.activeFaults, before)
      modifies injector
      ensures w.raises ==> results == before && injector.activeFaults == old(injector.activeFaults)
      ensures !w.raises ==>
        && injector.activeFaults == Staying(old(injector.activeFaults), w.answers)
        && results == Listed(ItemsOf(old(injector.activeFaults), w.answers))
      ensures complete <==> IsComplete(injector.activeFaults, results)
      ensures terminal <==> !w.raises && !complete && Hopeless(results)
    {
      results, complete, terminal := before, false, false;
      if !w.raises {
        var items := injector.RecoverAll(w.answers);
        results := Listed(items);
        complete := AllRecovered(results) && injector.activeFaults == [];
        if !complete { terminal := Hopeless(results); }
      }
    }

    lemma NoProblems(world: World)
      ensures Problems(world) == [] <==> Converged(world)
    {
    }

    /** Between two attempts the loop sleeps for five seconds, or up to the deadline when that is nearer. */
    lemma SleepsFiveSeconds(start: Progress, world: nat -> World, k: nat)
      requires k > 0 && EndOf(start, world, k) < timeout
      ensures StartAfter(start, world, k) - world(k - 1).late ==
        if timeout - EndOf(start, world, k) > 5.0 then EndOf(start, world, k) + 5.0 else timeout
    {
      hide ProgressAfter;
    }

    lemma StartOfProgress(start: Progress, world: nat -> World)
      ensures ProgressAfter(start, world, 0) == start && RecoveriesUpTo(start, world, 0) == 0 && StartAfter(start, world, 0) == 0.0
      ensures GoesOnBefore(start, world, 0)
    {
    }

    lemma GoesOnFurther(start: Progress, world: nat -> World, n: nat)
      requires GoesOnBefore(start, world, n)
      requires n > 0 ==> StartAfter(start, world, n) < timeout && !StopsAfter(ProgressAfter(start, world, n), world(n - 1))
      ensures GoesOnBefore(start, world, n + 1)
    {
      hide StopsAfter;
      hide ProgressAfter;
      hide StartAfter;
    }

    lemma OneMoreAttempt(start: Progress, world: nat -> World, k: nat)
      ensures var before, w := ProgressAfter(start, world, k), world(k);
        ProgressAfter(start, world, k + 1) ==
          if before.Complete() || w.raises then before
          else Progress(Staying(before.faults, w.answers), Listed(ItemsOf(before.faults, w.answers)))
      ensures RecoveriesUpTo(start, world, k + 1) == RecoveriesUpTo(start, world, k)
        + if ProgressAfter(start, world, k).Complete() || world(k).raises then 0 else 1
    {
      hide IsComplete;
    }

    lemma OneMoreSleep(start: Progress, world: nat -> World, k: nat)
      requires k > 0
      ensures var before, now := ProgressAfter(start, world, k - 1), ProgressAfter(start, world, k);
        EndOf(start, world, k) == StartAfter(start, world, k - 1) + world(k - 1).busy
          + if !before.Complete() && now.Complete() && now.results != Listed([]) then postRecoveryWait as real else 0.0
      ensures var end := EndOf(start, world, k);
        StartAfter(start, world, k)
          == if end >= timeout then end else end + RealMin(POLL_SECONDS, timeout - end) + world(k - 1).late
    {
      hide ProgressAfter;
    }

    lemma CeilingAbove(attempts: nat, timeout: real)
      requires POLL_SECONDS * attempts as real < timeout
      ensures attempts + 1 <= Max(1, RealCeil(timeout / POLL_SECONDS))
    {
    }

    lemma StopsWhen(p: Progress, w: World)
      ensures StopsAfter(p, w) <==>
        (p.Complete() && Converged(w)) || (!p.Complete() && !w.raises && Hopeless(p.results))
    {
    }

    lemma FirstAttempt()
      ensures Max(1, RealCeil(timeout / POLL_SECONDS)) >= 1
    {
    }
  }
}
