/**
 * The two ways the simulator drives a program, written once over its step:
 * run's loop (stop at the fuel bound, at an address with no instruction, or
 * at the first exception) and a number of single steps.
 */
module Driver {
  /** What one step reports: nothing to execute, done, or an exception. */
  datatype Status<+F> = End | Executed | Failed(fault: F)

  /** Why run stopped. */
  datatype Reason<+F> = Halted | FuelExhausted | Faulted(fault: F)

  /** The state run stopped in, why, and how many instructions it completed. */
  datatype Outcome<S, +F> = Outcome(state: S, reason: Reason<F>, executed: nat)

  /** k successive steps. */
  function Steps<S, F>(step: S -> (S, Status<F>), s: S, k: nat): S
    decreases k
  {
    if k == 0 then s else Steps(step, step(s).0, k - 1)
  }

  /**
   * run's loop once `count` instructions have been completed, with at most
   * `limit` in all.
   */
  function RunFrom<S, F>(step: S -> (S, Status<F>), s: S, count: nat, limit: nat): (r: Outcome<S, F>)
    requires count <= limit
    ensures count <= r.executed <= limit
    ensures r.reason.FuelExhausted? ==> r.executed == limit
    ensures r.reason.Halted? ==> step(r.state).1 == End
    decreases limit - count
  {
    if count == limit then Outcome(s, FuelExhausted, count)
    else
      var (next, status) := step(s);
      match status
      case End => Outcome(s, Halted, count)
      case Failed(f) => Outcome(next, Faulted(f), count)
      case Executed => RunFrom(step, next, count + 1, limit)
  }

  /** A step that executes hands run's loop on to the next state. */
  lemma RunFromExecuted<S, F>(step: S -> (S, Status<F>), s: S, count: nat, limit: nat)
    requires count < limit && step(s).1 == Executed
    ensures RunFrom(step, s, count, limit) == RunFrom(step, step(s).0, count + 1, limit)
  {
  }

  /** A step that fails ends run's loop in the state it leaves, with its exception. */
  lemma RunFromFailed<S, F>(step: S -> (S, Status<F>), s: S, count: nat, limit: nat)
    requires count < limit && step(s).1.Failed?
    ensures RunFrom(step, s, count, limit) == Outcome(step(s).0, Faulted(step(s).1.fault), count)
  {
  }

  /** One step of `Steps` taken from the front; named so that callers need not unfold `Steps` themselves. */
  lemma StepsUnfold<S, F>(step: S -> (S, Status<F>), s: S, k: nat)
    ensures Steps(step, s, k + 1) == Steps(step, step(s).0, k)
  {
  }

  /**
   * run is a sequence of steps: each of the `executed - count` steps it
   * takes reports Executed, and then it stops because the fuel ran out,
   * because the next step would report End, or in the state the next step
   * leaves when it fails, with that step's exception.
   */
  lemma {:induction false} RunFromIsSteps<S, F>(step: S -> (S, Status<F>), s: S, count: nat, limit: nat)
    requires count <= limit
    ensures var r := RunFrom(step, s, count, limit);
            var k := r.executed - count;
            && (forall i :: 0 <= i < k ==> step(Steps(step, s, i)).1 == Executed)
            && (!r.reason.Faulted? ==> r.state == Steps(step, s, k))
            && (r.reason.Halted? ==> step(r.state).1 == End)
            && (r.reason.Faulted? ==> step(Steps(step, s, k)) == (r.state, Failed(r.reason.fault)))
    decreases limit - count
  {
    if count < limit && step(s).1 == Executed {
      var next := step(s).0;
      RunFromIsSteps(step, next, count + 1, limit);
      var k := RunFrom(step, next, count + 1, limit).executed - count;
      forall i | 0 < i < k
        ensures step(Steps(step, s, i)).1 == Executed
      {
        StepsUnfold(step, s, i - 1);
      }
      StepsUnfold(step, s, k - 1);
    }
  }

  /** A property every step keeps holds after any number of steps. */
  lemma {:induction false} StepsKeep<S, F>(step: S -> (S, Status<F>), inv: S -> bool, s: S, k: nat)
    requires inv(s)
    requires forall x :: inv(x) ==> inv(step(x).0)
    ensures inv(Steps(step, s, k))
    decreases k
  {
    if k > 0 {
      StepsKeep(step, inv, step(s).0, k - 1);
    }
  }

  /** A property every step keeps holds in the state run stops in. */
  lemma {:induction false} RunFromKeeps<S, F>(step: S -> (S, Status<F>), inv: S -> bool, s: S, count: nat, limit: nat)
    requires count <= limit && inv(s)
    requires forall x :: inv(x) ==> inv(step(x).0)
    ensures inv(RunFrom(step, s, count, limit).state)
    decreases limit - count
  {
    if count < limit && step(s).1 == Executed {
      RunFromKeeps(step, inv, step(s).0, count + 1, limit);
    }
  }
}
