/** Polling the current-system link after a switch, and the rollback that relies on it. */
module PollLoop {
  import opened Wrappers

  const POLL_BUDGET: nat := 300 * NANOS_PER_SEC
  const POLL_INTERVAL: nat := 2 * NANOS_PER_SEC

  datatype Read = Ok(basename: string) | Err(message: string)

  datatype PollOutcome =
    | Settled
    | Timeout(lastObserved: string)
    | FlippedToUnexpected(observed: string)

  datatype VerifyPoll = VerifyPoll(
    expectedBasename: string, previousBasename: Option<string>, interval: nat, budget: nat)

  /** No previous basename, and the stock timing. */
  function NewPoll(expected: string): VerifyPoll {
    VerifyPoll(expected, None, POLL_INTERVAL, POLL_BUDGET)
  }

  /** What the outside world does: the result of the i-th read, and the clock just after it. */
  datatype World = World(start: Instant, read: nat -> Read, clock: nat -> Instant)

  /** Each sleep lasts at least the interval. */
  ghost predicate ClockRuns(w: World, interval: nat) {
    && w.start <= w.clock(0)
    && forall i: nat :: w.clock(i) + interval <= w.clock(i + 1)
  }

  function Observed(r: Read): string {
    match r
    case Ok(basename) => basename
    case Err(message) => "<read-error: " + message + ">"
  }

  /** A read that ends the poll: the expected basename, or one that is neither it nor the previous one. */
  predicate Decisive(p: VerifyPoll, r: Read) {
    r.Ok? && (r.basename == p.expectedBasename || (p.previousBasename.Some? && r.basename != p.previousBasename.value))
  }

  ghost predicate Stops(p: VerifyPoll, w: World, i: nat) {
    Decisive(p, w.read(i)) || w.start + p.budget <= w.clock(i)
  }

  /** Read `last` is the first to stop the poll, and `outcome` is what it means. */
  ghost predicate IsVerdict(p: VerifyPoll, w: World, last: nat, outcome: PollOutcome) {
    && Stops(p, w, last) && (forall i: nat :: i < last ==> !Stops(p, w, i))
    && match outcome
       case Settled => w.read(last) == Ok(p.expectedBasename)
       case FlippedToUnexpected(observed) =>
         && w.read(last) == Ok(observed) && observed != p.expectedBasename
         && p.previousBasename.Some? && observed != p.previousBasename.value
       case Timeout(lastObserved) => !Decisive(p, w.read(last)) && lastObserved == Observed(w.read(last))
  }

  function CeilDiv(a: nat, b: nat): (q: nat)
    requires b > 0
    ensures (q - 1) * b < a <= q * b || (a == 0 && q == 0)
  {
    (a + b - 1) / b
  }

  lemma {:induction false} ClockAfter(w: World, interval: nat, i: nat)
    requires ClockRuns(w, interval)
    ensures w.start + i * interval <= w.clock(i)
    decreases i
  {
    if i > 0 {
      ClockAfter(w, interval, i - 1);
      assert i * interval == (i - 1) * interval + interval;
      assert w.clock(i - 1) + interval <= w.clock(i - 1 + 1);
    }
  }

  /** By the read numbered ceil(budget / interval) the deadline has passed. */
  lemma DeadlinePasses(p: VerifyPoll, w: World)
    requires p.interval > 0 && ClockRuns(w, p.interval)
    ensures Stops(p, w, CeilDiv(p.budget, p.interval))
  {
    ClockAfter(w, p.interval, CeilDiv(p.budget, p.interval));
  }

  /**
   The poll ends, on the first stopping read; it never needs more than ceil(budget / interval) + 1
   reads, and its placeholder for "no reads completed" is never produced.
   */
  method UntilSettled(p: VerifyPoll, w: World) returns (outcome: PollOutcome)
    requires p.interval > 0 && ClockRuns(w, p.interval)
    ensures exists last: nat :: last <= CeilDiv(p.budget, p.interval) && IsVerdict(p, w, last, outcome)
  {
    var deadline := w.start + p.budget;
    var lastObserved: Option<string> := None;
    var i: nat := 0;
    DeadlinePasses(p, w);
    while true
      invariant i <= CeilDiv(p.budget, p.interval)
      invariant forall j: nat :: j < i ==> !Stops(p, w, j)
      decreases CeilDiv(p.budget, p.interval) - i
    {
      match w.read(i) {
        case Ok(basename) =>
          if basename == p.expectedBasename {
            assert IsVerdict(p, w, i, Settled);
            return Settled;
          }
          if p.previousBasename.Some? && basename != p.previousBasename.value {
            assert IsVerdict(p, w, i, FlippedToUnexpected(basename));
            return FlippedToUnexpected(basename);
          }
          lastObserved := Some(basename);
        case Err(message) =>
          lastObserved := Some("<read-error: " + message + ">");
      }
      if w.clock(i) >= deadline {
        outcome := Timeout(lastObserved.GetOr("<no-reads-completed>"));
        assert IsVerdict(p, w, i, outcome);
        return;
      }
      i := i + 1;
    }
  }

  lemma VerdictIsUnique(p: VerifyPoll, w: World, i: nat, a: PollOutcome, j: nat, b: PollOutcome)
    requires IsVerdict(p, w, i, a) && IsVerdict(p, w, j, b)
    ensures i == j && a == b
  {
    assert i == j;
  }

  /** A system that reaches the target before anything stops the poll is reported as settled. */
  lemma ReachingTargetSettles(p: VerifyPoll, w: World, k: nat, last: nat, outcome: PollOutcome)
    requires w.read(k) == Ok(p.expectedBasename) && (forall i: nat :: i < k ==> !Stops(p, w, i))
    requires IsVerdict(p, w, last, outcome)
    ensures outcome == Settled && last == k
  {
    assert IsVerdict(p, w, k, Settled);
    VerdictIsUnique(p, w, k, Settled, last, outcome);
  }

  /** Read errors never decide: the verdict is the same whatever the errors said. */
  lemma ErrorsAreNotFatal(p: VerifyPoll, w: World, w': World, last: nat, outcome: PollOutcome)
    requires w'.start == w.start && w'.clock == w.clock
    requires forall i: nat :: w.read(i) == w'.read(i) || (w.read(i).Err? && w'.read(i).Err?)
    requires IsVerdict(p, w, last, outcome)
    ensures IsVerdict(p, w', last, if outcome.Timeout? then Timeout(Observed(w'.read(last))) else outcome)
  {
    forall i: nat ensures Stops(p, w, i) <==> Stops(p, w', i) {
      assert w.read(i) == w'.read(i) || (w.read(i).Err? && w'.read(i).Err?);
    }
  }

  // ----- Rollback

  datatype RollbackOutcome =
    | FiredAndPolled(revertedToClosure: string)
    | RollbackFailed(phase: string, exitCode: Option<int>)

  /** Results of the steps before the poll: `nix-env --rollback`, the profile target, the detached switch. */
  datatype Steps = Steps(
    envExit: Option<int>, target: Option<string>, fire: Option<RollbackOutcome>, unitExit: Option<int>)

  const SUCCESS := Some(0)

  /** The outcome follows from read `last`, the first to see the target or to come after the deadline. */
  ghost predicate PolledOutcome(w: World, target: string, unitExit: Option<int>, last: nat, r: RollbackOutcome) {
    && (forall i: nat :: i < last ==> w.read(i) != Ok(target) && w.clock(i) < w.start + 300 * NANOS_PER_SEC)
    && (w.read(last) == Ok(target) || w.start + 300 * NANOS_PER_SEC <= w.clock(last))
    && r == if w.read(last) == Ok(target) then FiredAndPolled(target)
            else RollbackFailed("rollback-poll-timeout", unitExit)
  }

  /**
   A rollback that reports success has seen the rolled-back closure running; the arm for a flip to an
   unexpected basename is dead, since this poll has no previous basename.
   */
  method RollbackWith(steps: Steps, w: World) returns (r: RollbackOutcome)
    requires ClockRuns(w, 2 * NANOS_PER_SEC)
    ensures steps.envExit != Some(0) ==> r == RollbackFailed("nix-env-rollback", steps.envExit)
    ensures steps.envExit == Some(0) && steps.target.None? ==> r == RollbackFailed("discover-target", None)
    ensures steps.envExit == Some(0) && steps.target.Some? && steps.fire.Some? ==> r == steps.fire.value
    ensures steps.envExit == Some(0) && steps.target.Some? && steps.fire.None? ==>
              exists last: nat :: last <= 150 && PolledOutcome(w, steps.target.value, steps.unitExit, last, r)
  {
    if steps.envExit != SUCCESS { return RollbackFailed("nix-env-rollback", steps.envExit); }
    if steps.target.None? { return RollbackFailed("discover-target", None); }
    if steps.fire.Some? { return steps.fire.value; }
    var poll := NewPoll(steps.target.value);
    var outcome := UntilSettled(poll, w);
    ghost var last: nat :| last <= CeilDiv(poll.budget, poll.interval) && IsVerdict(poll, w, last, outcome);
    forall i: nat | i < last ensures w.read(i) != Ok(steps.target.value) && w.clock(i) < w.start + POLL_BUDGET {
      assert !Stops(poll, w, i);
    }
    match outcome {
      case Settled => r := FiredAndPolled(steps.target.value);
      case Timeout(_) => r := RollbackFailed("rollback-poll-timeout", steps.unitExit);
      case FlippedToUnexpected(_) => assert false;
    }
    assert PolledOutcome(w, steps.target.value, steps.unitExit, last, r);
  }
}
