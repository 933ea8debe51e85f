/**
 * The two bounded retry loops of the automation:
 *  - the `retry` decorator of utils/helpers.py, and
 *  - `Automatic.execute_func_with_retries` of modules/automatic.py.
 *
 * The wrapped call is an external oracle: the caller supplies the script of
 * what each successive call does (returns a value, or raises with a message).
 * A script that ends while the loop would still go on stands for a run that
 * the script does not decide; the loops then stop with an "open" outcome.
 */
module Retry {

  /** What one call of the wrapped function does. */
  datatype Attempt<T> = Returned(value: T) | Raised(message: string)

  /** A script of calls whose results are only tested for truthiness. */
  type Script = seq<Attempt<bool>>

  /** `str(e).startswith("520, ")`: the infrastructure hiccup that costs no retry. */
  predicate IsRpcHiccup(message: string)
  {
    |message| >= 5 && message[..5] == "520, "
  }

  /** The call raised an error that counts against the retry budget. */
  predicate Counted<T>(a: Attempt<T>)
  {
    a.Raised? && !IsRpcHiccup(a.message)
  }

  /** How a loop ended, how many calls it made and how many times it slept. */
  datatype Run<O> = Run(outcome: O, calls: nat, sleeps: nat)

  /** One more call in front of `r`, followed by a sleep when `slept`. */
  function Then<O>(slept: bool, r: Run<O>): Run<O>
  {
    Run(r.outcome, r.calls + 1, r.sleeps + if slept then 1 else 0)
  }

  /** `r` seen after `calls` calls and `sleeps` sleeps already made. */
  function Shift<O>(r: Run<O>, calls: nat, sleeps: nat): Run<O>
  {
    Run(r.outcome, r.calls + calls, r.sleeps + sleeps)
  }

  // ---------------------------------------------------------------------
  // The `retry` decorator (utils/helpers.py)
  // ---------------------------------------------------------------------

  /**
   * Return(v): the call returned v (falsy or not); ReturnNone: the budget ran
   * out and the wrapper fell off its loop; Reraise(m): automatic mode re-raised
   * the first counted error; Retrying: the script ended inside the loop.
   */
  datatype WrapperOutcome<T> = Return(value: T) | ReturnNone | Reraise(message: string) | Retrying

  /** The decorator's loop, entered with `retries` errors already counted. */
  function Wrapper<T>(attempts: seq<Attempt<T>>, retries: nat, limit: nat, automatic: bool): Run<WrapperOutcome<T>>
    decreases |attempts|
  {
    if retries > limit then Run(ReturnNone, 0, 0)
    else if attempts == [] then Run(Retrying, 0, 0)
    else match attempts[0]
      case Returned(v) => Run(Return(v), 1, 0)
      case Raised(m) =>
        if IsRpcHiccup(m) then Then(true, Wrapper(attempts[1..], retries, limit, automatic))
        else if automatic then Run(Reraise(m), 1, 0)
        else Then(retries + 1 <= limit, Wrapper(attempts[1..], retries + 1, limit, automatic))
  }

  /** The decorator's `while retries <= RETRIES` loop; `limit` is RETRIES, `automatic` is AUTOMATIC_MODE. */
  method RetryWrapper<T>(attempts: seq<Attempt<T>>, limit: nat, automatic: bool)
    returns (outcome: WrapperOutcome<T>, calls: nat, sleeps: nat)
    ensures Run(outcome, calls, sleeps) == Wrapper(attempts, 0, limit, automatic)
  {
    var retries: nat := 0;
    calls, sleeps := 0, 0;
    while retries <= limit
      invariant calls <= |attempts|
      invariant Shift(Wrapper(attempts[calls..], retries, limit, automatic), calls, sleeps)
                == Wrapper(attempts, 0, limit, automatic)
      decreases |attempts| - calls
    {
      if calls == |attempts| {
        return Retrying, calls, sleeps;
      }
      var attempt := attempts[calls];
      assert attempts[calls..][1..] == attempts[calls + 1..];
      calls := calls + 1;
      match attempt {
        case Returned(v) =>
          return Return(v), calls, sleeps;
        case Raised(m) =>
          if !IsRpcHiccup(m) {
            retries := retries + 1;
            if automatic {
              return Reraise(m), calls, sleeps;
            }
          }
      }
      if retries <= limit {
        sleeps := sleeps + 1;
      }
    }
    outcome := ReturnNone;
  }

  /** The script without its 520 errors. */
  function WithoutHiccups<T>(attempts: seq<Attempt<T>>): (r: seq<Attempt<T>>)
    ensures |r| <= |attempts|
    ensures forall i :: 0 <= i < |r| ==> !(r[i].Raised? && IsRpcHiccup(r[i].message))
  {
    if attempts == [] then []
    else if attempts[0].Raised? && IsRpcHiccup(attempts[0].message) then WithoutHiccups(attempts[1..])
    else
      var rest := WithoutHiccups(attempts[1..]);
      assert forall i :: 1 <= i < |rest| + 1 ==> ([attempts[0]] + rest)[i] == rest[i - 1];
      [attempts[0]] + rest
  }

  /** 520 errors never touch the budget: the wrapper ends the same way once they are struck out. */
  lemma {:induction false} WrapperIgnoresHiccups<T>(attempts: seq<Attempt<T>>, retries: nat, limit: nat, automatic: bool)
    ensures Wrapper(attempts, retries, limit, automatic).outcome
            == Wrapper(WithoutHiccups(attempts), retries, limit, automatic).outcome
    decreases |attempts|
  {
    if retries <= limit && attempts != [] {
      var rest := WithoutHiccups(attempts[1..]);
      if attempts[0].Raised? && IsRpcHiccup(attempts[0].message) {
        WrapperIgnoresHiccups(attempts[1..], retries, limit, automatic);
      } else {
        var w := [attempts[0]] + rest;
        assert WithoutHiccups(attempts) == w;
        assert w[0] == attempts[0] && w[1..] == rest;
        if attempts[0].Raised? && !automatic {
          WrapperIgnoresHiccups(attempts[1..], retries + 1, limit, automatic);
        }
      }
    }
  }

  /** A call that does not raise ends the wrapper with its own result, however falsy. */
  lemma WrapperReturnsResult<T>(attempts: seq<Attempt<T>>, limit: nat, automatic: bool)
    requires |attempts| > 0 && attempts[0].Returned?
    ensures Wrapper(attempts, 0, limit, automatic) == Run(Return(attempts[0].value), 1, 0)
  {
  }

  /** K counted failures (K <= RETRIES) and then a result: K+1 calls, K sleeps, and the result is returned. */
  lemma {:induction false} WrapperSucceedsAfterFailures<T>(attempts: seq<Attempt<T>>, k: nat, retries: nat, limit: nat)
    requires retries + k <= limit && k < |attempts|
    requires forall j :: 0 <= j < k ==> Counted(attempts[j])
    requires attempts[k].Returned?
    ensures Wrapper(attempts, retries, limit, false) == Run(Return(attempts[k].value), k + 1, k)
    decreases k
  {
    if k > 0 {
      WrapperSucceedsAfterFailures(attempts[1..], k - 1, retries + 1, limit);
    }
  }

  /** Outside automatic mode a call that always fails is made exactly RETRIES+1 times and the wrapper returns None. */
  lemma {:induction false} WrapperGivesUp<T>(attempts: seq<Attempt<T>>, retries: nat, limit: nat)
    requires retries <= limit && |attempts| >= limit + 1 - retries
    requires forall j :: 0 <= j < |attempts| ==> Counted(attempts[j])
    ensures Wrapper(attempts, retries, limit, false) == Run(ReturnNone, limit + 1 - retries, limit - retries)
    decreases limit - retries
  {
    if retries < limit {
      WrapperGivesUp(attempts[1..], retries + 1, limit);
    }
  }

  /** In automatic mode the first counted error is re-raised at once, after any number of 520 errors. */
  lemma {:induction false} WrapperReraisesFirst<T>(hiccups: seq<Attempt<T>>, m: string, rest: seq<Attempt<T>>, retries: nat, limit: nat)
    requires retries <= limit && !IsRpcHiccup(m)
    requires forall j :: 0 <= j < |hiccups| ==> hiccups[j].Raised? && IsRpcHiccup(hiccups[j].message)
    ensures Wrapper(hiccups + [Raised(m)] + rest, retries, limit, true) == Run(Reraise(m), |hiccups| + 1, |hiccups|)
    decreases |hiccups|
  {
    if hiccups != [] {
      assert (hiccups + [Raised(m)] + rest)[1..] == hiccups[1..] + [Raised(m)] + rest;
      WrapperReraisesFirst(hiccups[1..], m, rest, retries, limit);
    }
  }

  /** The wrapper sleeps exactly between two calls: after every call but the last of a finished run. */
  lemma {:induction false} WrapperSleepsBetweenCalls<T>(attempts: seq<Attempt<T>>, retries: nat, limit: nat, automatic: bool)
    requires retries <= limit
    ensures var r := Wrapper(attempts, retries, limit, automatic);
            if r.outcome.Retrying? then r.sleeps == r.calls else r.sleeps + 1 == r.calls
    decreases |attempts|
  {
    if attempts != [] && attempts[0].Raised? {
      var m := attempts[0].message;
      if IsRpcHiccup(m) {
        WrapperSleepsBetweenCalls(attempts[1..], retries, limit, automatic);
      } else if !automatic && retries + 1 <= limit {
        WrapperSleepsBetweenCalls(attempts[1..], retries + 1, limit, automatic);
      }
    }
  }

  // ---------------------------------------------------------------------
  // Automatic.execute_func_with_retries (modules/automatic.py)
  // ---------------------------------------------------------------------

  /** Done: a truthy result; GaveUp: `False` returned after the budget; Looping: the script ended inside the loop. */
  datatype ExecOutcome = Done | GaveUp | Looping

  /** The loop `while not done and retries <= max_retries`, entered with `retries` errors counted. */
  function Execute(attempts: Script, retries: nat, limit: nat): Run<ExecOutcome>
    decreases |attempts|
  {
    if retries > limit then Run(GaveUp, 0, 0)
    else if attempts == [] then Run(Looping, 0, 0)
    else match attempts[0]
      case Returned(truthy) =>
        if truthy then Run(Done, 1, 0) else Then(true, Execute(attempts[1..], retries, limit))
      case Raised(m) =>
        var r := if IsRpcHiccup(m) then retries else retries + 1;
        Then(r <= limit, Execute(attempts[1..], r, limit))
  }

  /** The script decides the call: the loop ends within it. */
  predicate Finishes(attempts: Script, limit: nat)
  {
    !Execute(attempts, 0, limit).outcome.Looping?
  }

  /** The call returns a truthy result. */
  predicate Succeeds(attempts: Script, limit: nat)
  {
    Execute(attempts, 0, limit).outcome.Done?
  }

  method ExecuteWithRetries(attempts: Script, limit: nat) returns (outcome: ExecOutcome, calls: nat, sleeps: nat)
    ensures Run(outcome, calls, sleeps) == Execute(attempts, 0, limit)
  {
    var done := false;
    var retries: nat := 0;
    calls, sleeps := 0, 0;
    while !done && retries <= limit
      invariant calls <= |attempts|
      invariant !done ==> Shift(Execute(attempts[calls..], retries, limit), calls, sleeps) == Execute(attempts, 0, limit)
      invariant done ==> Run(Done, calls, sleeps) == Execute(attempts, 0, limit)
      decreases |attempts| - calls
    {
      if calls == |attempts| {
        return Looping, calls, sleeps;
      }
      var attempt := attempts[calls];
      assert attempts[calls..][1..] == attempts[calls + 1..];
      calls := calls + 1;
      match attempt {
        case Returned(truthy) =>
          done := truthy;
        case Raised(m) =>
          if !IsRpcHiccup(m) {
            retries := retries + 1;
          }
      }
      if !done && retries <= limit {
        sleeps := sleeps + 1;
      }
    }
    outcome := if done then Done else GaveUp;
  }

  /** The script without the calls that consume no budget: 520 errors and falsy results. */
  function BudgetRelevant(attempts: Script): (r: Script)
    ensures forall a :: a in r ==> a in attempts && (a == Returned(true) || Counted(a))
  {
    if attempts == [] then []
    else if attempts[0] == Returned(true) || Counted(attempts[0]) then [attempts[0]] + BudgetRelevant(attempts[1..])
    else BudgetRelevant(attempts[1..])
  }

  /** Neither a 520 error nor a falsy result changes `retries`: the loop ends the same way without them. */
  lemma {:induction false} ExecuteIgnoresUncounted(attempts: Script, retries: nat, limit: nat)
    ensures Execute(attempts, retries, limit).outcome == Execute(BudgetRelevant(attempts), retries, limit).outcome
    decreases |attempts|
  {
    if retries <= limit && attempts != [] {
      var rest := BudgetRelevant(attempts[1..]);
      if attempts[0] == Returned(true) {
      } else if Counted(attempts[0]) {
        assert ([attempts[0]] + rest)[1..] == rest;
        ExecuteIgnoresUncounted(attempts[1..], retries + 1, limit);
      } else {
        ExecuteIgnoresUncounted(attempts[1..], retries, limit);
      }
    }
  }

  /** The loop returns at the first truthy result and at no earlier call. */
  lemma {:induction false} ExecuteStopsAtFirstTruthy(attempts: Script, retries: nat, limit: nat)
    ensures var r := Execute(attempts, retries, limit);
            r.outcome.Done? ==>
              1 <= r.calls <= |attempts| && attempts[r.calls - 1] == Returned(true)
              && forall j :: 0 <= j < r.calls - 1 ==> attempts[j] != Returned(true)
    decreases |attempts|
  {
    if retries <= limit && attempts != [] && attempts[0] != Returned(true) {
      var r := if Counted(attempts[0]) then retries + 1 else retries;
      ExecuteStopsAtFirstTruthy(attempts[1..], r, limit);
      var inner := Execute(attempts[1..], r, limit);
      if inner.outcome.Done? {
        forall j | 0 <= j < inner.calls
          ensures attempts[j] != Returned(true)
        {
          if j > 0 {
            assert attempts[j] == attempts[1..][j - 1];
          }
        }
      }
    }
  }

  /** The number of counted errors among the calls of `attempts`. */
  function CountedErrors(attempts: Script): nat
  {
    if attempts == [] then 0 else (if Counted(attempts[0]) then 1 else 0) + CountedErrors(attempts[1..])
  }

  /** `False` comes back only after exactly max_retries+1 counted errors, the last call being one of them. */
  lemma {:induction false} ExecuteGivesUpAfterBudget(attempts: Script, retries: nat, limit: nat)
    requires retries <= limit
    ensures var r := Execute(attempts, retries, limit);
            r.outcome.GaveUp? ==>
              1 <= r.calls <= |attempts| && Counted(attempts[r.calls - 1])
              && CountedErrors(attempts[..r.calls]) == limit + 1 - retries
    decreases |attempts|
  {
    if attempts != [] && attempts[0] != Returned(true) {
      var r := if Counted(attempts[0]) then retries + 1 else retries;
      var inner := Execute(attempts[1..], r, limit);
      if r <= limit {
        ExecuteGivesUpAfterBudget(attempts[1..], r, limit);
        if inner.outcome.GaveUp? {
          assert attempts[..inner.calls + 1][1..] == attempts[1..][..inner.calls];
          assert attempts[inner.calls] == attempts[1..][inner.calls - 1];
        }
      } else {
        assert attempts[..1][1..] == [];
      }
    }
  }

  /** Errors that all count: the call is made exactly max_retries+1 times and `False` is returned. */
  lemma {:induction false} ExecuteExhaustsBudget(attempts: Script, retries: nat, limit: nat)
    requires retries <= limit && |attempts| >= limit + 1 - retries
    requires forall j :: 0 <= j < |attempts| ==> Counted(attempts[j])
    ensures Execute(attempts, retries, limit) == Run(GaveUp, limit + 1 - retries, limit - retries)
    decreases limit - retries
  {
    if retries < limit {
      ExecuteExhaustsBudget(attempts[1..], retries + 1, limit);
    }
  }

  /** Falsy results never consume the budget, so a call that keeps returning them keeps the loop going forever. */
  lemma {:induction false} ExecuteSpinsOnFalsy(attempts: Script, retries: nat, limit: nat)
    requires retries <= limit
    requires forall j :: 0 <= j < |attempts| ==> attempts[j] == Returned(false)
    ensures Execute(attempts, retries, limit) == Run(Looping, |attempts|, |attempts|)
    decreases |attempts|
  {
    if attempts != [] {
      ExecuteSpinsOnFalsy(attempts[1..], retries, limit);
    }
  }
}
