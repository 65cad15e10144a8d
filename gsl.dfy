/** Scope guards: a function run when the guard is destroyed, unless it was
    cancelled, and a variant that runs only on (or only off) the exception
    path. */
module Gsl {

  /** The observable effect of the guarded function: how often it ran. */
  class Calls {
    var count: nat

    constructor()
      ensures count == 0
    {
      count := 0;
    }

    method Invoke()
      modifies this
      ensures count == old(count) + 1
    {
      count := count + 1;
    }
  }

  /** `final_lambda`. */
  class FinalLambda {
    const func: Calls
    var cancelled: bool

    constructor(func: Calls)
      ensures this.func == func && !cancelled
    {
      this.func := func;
      cancelled := false;
    }

    /** The move constructor: takes over the function and the cancelled flag
        and cancels the source. */
    constructor Moved(other: FinalLambda)
      modifies other
      ensures func == other.func && cancelled == old(other.cancelled)
      ensures other.cancelled
    {
      func := other.func;
      cancelled := other.cancelled;
      new;
      other.cancelled := true;
    }

    /** The destructor runs the function unless cancelled. */
    method Destroy()
      modifies func
      ensures func.count == old(func.count) + (if cancelled then 0 else 1)
    {
      if !cancelled {
        func.Invoke();
      }
    }

    method Cancel()
      modifies this
      ensures cancelled
    {
      cancelled := true;
    }

    /** `call_now`: marks the guard cancelled and runs the function at once. */
    method CallNow()
      modifies this, func
      ensures cancelled && func.count == old(func.count) + 1
    {
      cancelled := true;
      func.Invoke();
    }
  }

  /** Destroying a guard, destroying a cancelled one, running one early and
      then destroying it, and moving one and destroying both. */
  method FinalLambdaScenario() returns (plain: nat, cancelled: nat, early: nat, moved: nat)
    ensures plain == 1 && cancelled == 0 && early == 1 && moved == 1
  {
    plain := PlainGuard();
    cancelled := CancelledGuard();
    early := EarlyGuard();
    moved := MovedGuard();
  }

  /** A guard destroyed once calls its function once. */
  method PlainGuard() returns (count: nat)
    ensures count == 1
  {
    var c := new Calls();
    var g := new FinalLambda(c);
    g.Destroy();
    count := c.count;
  }

  /** A cancelled guard never calls its function. */
  method CancelledGuard() returns (count: nat)
    ensures count == 0
  {
    var c := new Calls();
    var g := new FinalLambda(c);
    g.Cancel();
    g.Destroy();
    count := c.count;
  }

  /** A guard run early is not run again when destroyed. */
  method EarlyGuard() returns (count: nat)
    ensures count == 1
  {
    var c := new Calls();
    var g := new FinalLambda(c);
    g.CallNow();
    g.Destroy();
    count := c.count;
  }

  /** A moved-from guard is disarmed; the one moved into calls once. */
  method MovedGuard() returns (count: nat)
    ensures count == 1
  {
    var c := new Calls();
    var g := new FinalLambda(c);
    var h := new FinalLambda.Moved(g);
    g.Destroy();
    h.Destroy();
    count := c.count;
  }

  /** The destructor's test: not cancelled, and "an exception is in flight
      since construction" is exactly `callOnFailure`. */
  predicate Fires(cancelled: bool, callOnFailure: bool, countAtConstruction: int, countNow: int)
  {
    !cancelled && ((countNow > countAtConstruction) == callOnFailure)
  }

  /** Of a `failure_finally` and a `success_finally` built at the same moment
      and not cancelled, exactly one runs. */
  lemma ExactlyOneOfFailureAndSuccess(atConstruction: int, now: int)
    ensures Fires(false, true, atConstruction, now) != Fires(false, false, atConstruction, now)
    ensures Fires(false, true, atConstruction, now) <==> now > atConstruction
  {
  }

  /** `conditional_final_lambda`: `std::uncaught_exceptions()` is passed in,
      at construction and at destruction. */
  class ConditionalFinalLambda {
    const func: Calls
    const callOnFailure: bool
    const countAtConstruction: int
    var cancelled: bool

    /** `failure_finally` when `callOnFailure`, `success_finally` otherwise. */
    constructor(func: Calls, callOnFailure: bool, uncaughtNow: int)
      ensures this.func == func && this.callOnFailure == callOnFailure
      ensures countAtConstruction == uncaughtNow && !cancelled
    {
      this.func := func;
      this.callOnFailure := callOnFailure;
      countAtConstruction := uncaughtNow;
      cancelled := false;
    }

    constructor Moved(other: ConditionalFinalLambda)
      modifies other
      ensures func == other.func && callOnFailure == other.callOnFailure
      ensures countAtConstruction == other.countAtConstruction && cancelled == old(other.cancelled)
      ensures other.cancelled
    {
      func := other.func;
      callOnFailure := other.callOnFailure;
      countAtConstruction := other.countAtConstruction;
      cancelled := other.cancelled;
      new;
      other.cancelled := true;
    }

    method Cancel()
      modifies this
      ensures cancelled
    {
      cancelled := true;
    }

    method Destroy(uncaughtNow: int)
      modifies func
      ensures func.count == old(func.count) +
        (if Fires(cancelled, callOnFailure, countAtConstruction, uncaughtNow) then 1 else 0)
    {
      if !cancelled && ((uncaughtNow > countAtConstruction) == callOnFailure) {
        func.Invoke();
      }
    }
  }
}
