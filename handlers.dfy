/**
 * What one call of each `Automatic` handler does to its module's shared
 * configuration (`total_quantity`, `performed_quantity`, the phase flag
 * `withdrawn`/`unwraped`, `current_max_quantity`) and what it returns to the
 * scheduling loop, as functions of how the external calls behave; and the
 * invariant tying those counters to the work queue.
 */
module Handlers {
  import opened Wrappers
  import opened Choice
  import opened Retry
  import opened WorkQueue

  /** A module's `min_quantity`/`max_quantity` settings. */
  datatype QuantityRange = QuantityRange(minQuantity: int, maxQuantity: int)

  /**
   * A module's counters. `secondPhaseDone` is the two-phase flag (`withdrawn`
   * for the lending modules, `unwraped` for wrap/unwrap): `None` until first
   * written, and read as `True` when absent.
   */
  datatype Progress = Progress(
    totalQuantity: int,
    performedQuantity: nat,
    secondPhaseDone: Option<bool>,
    currentMaxQuantity: Option<int>)

  /** What a handler call ended with: the count it returned, an escaping `ValueError`, or a call that never returns. */
  datatype HandlerOutcome = Performed(count: nat) | Escaped | Hung

  /** What `run_module` ended with. */
  datatype ModuleCall = Finished(value: bool) | RaisedAfterRetries | Stalled

  /** The two halves of a two-phase module, in the order a call runs them. */
  datatype Phase = FirstPhase | SecondPhase

  /** How `execute_func_with_retries` ends on this script with the default budget. */
  function Outcome(script: Script, limit: nat): ExecOutcome
  {
    Execute(script, 0, limit).outcome
  }

  /** `run_module`'s result for a call whose retry loop ended with `outcome`. */
  function CallResult(outcome: ExecOutcome, failAfterRetries: bool, skipIfFailed: bool): (r: ModuleCall)
    ensures r.Stalled? <==> outcome.Looping?
    ensures r.RaisedAfterRetries? <==> outcome.GaveUp? && failAfterRetries
    ensures r.Finished? ==> r.value == (outcome.Done? || skipIfFailed)
  {
    match outcome
    case Looping => Stalled
    case Done => Finished(true)
    case GaveUp => if failAfterRetries then RaisedAfterRetries else Finished(skipIfFailed)
  }

  // ---------------------------------------------------------------------
  // Single-shot handlers
  // ---------------------------------------------------------------------

  /** A single-shot handler: one `run_module`; a truthy result counts one invocation. */
  function SingleShotRun(p: Progress, call: ExecOutcome, skipIfFailed: bool): (HandlerOutcome, Progress)
  {
    match CallResult(call, false, skipIfFailed)
    case Finished(done) =>
      if done then (Performed(1), p.(performedQuantity := p.performedQuantity + 1)) else (Performed(0), p)
    case _ => (Hung, p)
  }

  /** The counter rises by exactly the returned 0 or 1; with skip-if-failed every finished call counts. */
  lemma SingleShotCounts(p: Progress, call: ExecOutcome, skipIfFailed: bool)
    ensures var (out, p') := SingleShotRun(p, call, skipIfFailed);
            (out.Hung? <==> call.Looping?)
            && (out.Hung? ==> p' == p)
            && (out.Performed? ==>
                  out.count <= 1
                  && p' == p.(performedQuantity := p.performedQuantity + out.count)
                  && (out.count == 1 <==> call.Done? || skipIfFailed))
  {
  }

  // ---------------------------------------------------------------------
  // Two-phase handlers: run_deposit_withdraw and wrap_unwrap_eth
  // ---------------------------------------------------------------------

  datatype TwoPhaseResult = TwoPhaseResult(out: HandlerOutcome, progress: Progress, ran: seq<Phase>)

  /** The second phase, after `already` counted first-phase invocations of this call. */
  function SecondPhaseRun(p: Progress, already: nat, second: ExecOutcome, skipIfFailed: bool, ran: seq<Phase>): TwoPhaseResult
  {
    match CallResult(second, false, skipIfFailed)
    case Finished(done) =>
      var k := already + (if done then 1 else 0);
      TwoPhaseResult(Performed(k), p.(performedQuantity := p.performedQuantity + k, secondPhaseDone := Some(done)), ran + [SecondPhase])
    case _ => TwoPhaseResult(Hung, p, ran + [SecondPhase])
  }

  /**
   * One call of a two-phase handler. The first phase (deposit, wrap) runs
   * unless the flag is `False`; its `run_module` raises after the retries, and
   * the handler then returns 2 under skip-if-failed and 0 otherwise, leaving
   * the flag alone. The second phase (withdraw, unwrap) follows and writes
   * its result into the flag; the counter is updated only at the end.
   */
  function TwoPhaseRun(p: Progress, first: ExecOutcome, second: ExecOutcome, skipIfFailed: bool): TwoPhaseResult
  {
    if p.secondPhaseDone != Some(false) then
      match CallResult(first, true, skipIfFailed)
      case Stalled => TwoPhaseResult(Hung, p, [FirstPhase])
      case RaisedAfterRetries =>
        if skipIfFailed then TwoPhaseResult(Performed(2), p.(performedQuantity := p.performedQuantity + 2), [FirstPhase])
        else TwoPhaseResult(Performed(0), p, [FirstPhase])
      case Finished(_) => SecondPhaseRun(p, 1, second, skipIfFailed, [FirstPhase])
    else SecondPhaseRun(p, 0, second, skipIfFailed, [])
  }

  /**
   * Ordering: the first phase runs exactly when the flag is absent or `True`;
   * the second runs only after a first phase that succeeded in this call, or
   * straight away when the flag is `False`.
   */
  lemma TwoPhaseOrdering(p: Progress, first: ExecOutcome, second: ExecOutcome, skipIfFailed: bool)
    ensures var r := TwoPhaseRun(p, first, second, skipIfFailed);
            (|r.ran| > 0 && r.ran[0] == FirstPhase <==> p.secondPhaseDone != Some(false))
            && (SecondPhase in r.ran <==> p.secondPhaseDone == Some(false) || first.Done?)
            && (r.ran == [FirstPhase, SecondPhase] || r.ran == [FirstPhase] || r.ran == [SecondPhase])
  {
  }

  /**
   * The flag and the counter: the flag becomes the second phase's result when
   * that phase finishes and is otherwise untouched; the counter rises by
   * exactly the returned count, which is at most 2; a failed first phase
   * returns 2 under skip-if-failed and 0 otherwise.
   */
  lemma TwoPhaseEffect(p: Progress, first: ExecOutcome, second: ExecOutcome, skipIfFailed: bool)
    ensures var r := TwoPhaseRun(p, first, second, skipIfFailed);
            (r.out.Hung? ==> r.progress == p)
            && (r.out.Performed? ==>
                  r.out.count <= 2
                  && r.progress.performedQuantity == p.performedQuantity + r.out.count
                  && r.progress.totalQuantity == p.totalQuantity
                  && r.progress.currentMaxQuantity == p.currentMaxQuantity
                  && r.progress.secondPhaseDone == (if SecondPhase in r.ran then Some(second.Done? || skipIfFailed) else p.secondPhaseDone))
            && (p.secondPhaseDone != Some(false) && first.GaveUp? ==>
                  r.out == Performed(if skipIfFailed then 2 else 0) && r.progress.secondPhaseDone == p.secondPhaseDone)
  {
  }

  // ---------------------------------------------------------------------
  // swaps and choose_number_of_swaps
  // ---------------------------------------------------------------------

  /** `choose_number_of_swaps`: the burst size, `randint` raising on an empty range, or draws that ran out. */
  datatype SwapCount = Chosen(quantity: nat) | EmptyRange | Undecided

  /** Redraw `randint(2, maximum)` until the result is not `maximum - 1`. */
  function NumberOfSwaps(maximum: int, draws: seq<nat>): SwapCount
  {
    if maximum < 2 then EmptyRange
    else if draws == [] then Undecided
    else
      var q := RandInt(draws[0], 2, maximum);
      if q != maximum - 1 then Chosen(q) else NumberOfSwaps(maximum, draws[1..])
  }

  /** The burst size lies in [2, maximum] and never leaves a remainder of exactly one. */
  lemma {:induction false} NumberOfSwapsRange(maximum: int, draws: seq<nat>)
    ensures NumberOfSwaps(maximum, draws).EmptyRange? <==> maximum < 2
    ensures var c := NumberOfSwaps(maximum, draws);
            c.Chosen? ==> 2 <= c.quantity <= maximum && maximum - c.quantity != 1
    decreases |draws|
  {
    if maximum >= 2 && draws != [] && RandInt(draws[0], 2, maximum) == maximum - 1 {
      NumberOfSwapsRange(maximum, draws[1..]);
    }
  }

  /** Every admissible burst size is chosen by a single draw. */
  lemma NumberOfSwapsOnto(maximum: int, q: int) returns (d: nat)
    requires 2 <= q <= maximum && q != maximum - 1
    ensures NumberOfSwaps(maximum, [d]) == Chosen(q)
  {
    d := RandIntOnto(2, maximum, q);
  }

  /** The script of call `j`, or the empty script (an undecided call) past the end. */
  function ScriptAt(scripts: seq<Script>, j: nat): Script
  {
    if j < |scripts| then scripts[j] else []
  }

  /** Calls `j`..`q - 1` of a burst: how many counted, and whether one of them never returned. */
  function BurstFrom(scripts: seq<Script>, j: nat, q: nat, skipIfFailed: bool, limit: nat): (r: (nat, bool))
    requires j <= q
    ensures r.0 <= q - j
    ensures skipIfFailed && !r.1 ==> r.0 == q - j
    decreases q - j
  {
    if j == q then (0, false)
    else
      var call := CallResult(Outcome(ScriptAt(scripts, j), limit), false, skipIfFailed);
      if call.Stalled? then (0, true)
      else
        var rest := BurstFrom(scripts, j + 1, q, skipIfFailed, limit);
        (rest.0 + (if call.value then 1 else 0), rest.1)
  }

  /**
   * One call of `swaps`: size the burst from `max_quantity` (not from
   * `total_quantity`), record it as `current_max_quantity`, and run that many
   * swaps, each truthy one counted at once.
   */
  function SwapsRun(p: Progress, maxQuantity: int, draws: seq<nat>, scripts: seq<Script>, skipIfFailed: bool, limit: nat)
    : (HandlerOutcome, Progress)
  {
    match NumberOfSwaps(maxQuantity - p.performedQuantity, draws)
    case EmptyRange => (Escaped, p)
    case Undecided => (Hung, p)
    case Chosen(q) =>
      var b := BurstFrom(scripts, 0, q, skipIfFailed, limit);
      (if b.1 then Hung else Performed(b.0),
       p.(currentMaxQuantity := Some(q), performedQuantity := p.performedQuantity + b.0))
  }

  /**
   * The counter rises by the returned count, at most the burst size; under
   * skip-if-failed the whole burst counts, so the remainder below
   * `max_quantity` never becomes exactly one.
   */
  lemma SwapsCounts(p: Progress, maxQuantity: int, draws: seq<nat>, scripts: seq<Script>, skipIfFailed: bool, limit: nat)
    ensures var (out, p') := SwapsRun(p, maxQuantity, draws, scripts, skipIfFailed, limit);
            var m := maxQuantity - p.performedQuantity;
            (out.Escaped? <==> m < 2)
            && p'.totalQuantity == p.totalQuantity && p'.secondPhaseDone == p.secondPhaseDone
            && (out.Performed? ==>
                  p'.performedQuantity == p.performedQuantity + out.count
                  && p'.currentMaxQuantity.Some? && out.count <= p'.currentMaxQuantity.value <= m
                  && (skipIfFailed ==> out.count == p'.currentMaxQuantity.value && out.count >= 2
                                       && maxQuantity - p'.performedQuantity != 1))
  {
    NumberOfSwapsRange(maxQuantity - p.performedQuantity, draws);
  }

  /**
   * The burst is sized from `max_quantity`, not from `total_quantity`: with a
   * total of 2 and a maximum of 5, one call can perform 5 swaps.
   */
  lemma SwapsOvershootTotal()
    ensures var ok: Script := [Returned(true)];
            var (out, p') := SwapsRun(Progress(2, 0, None, None), 5, [3], [ok, ok, ok, ok, ok], false, 3);
            out == Performed(5) && p'.performedQuantity == 5 > p'.totalQuantity
  {
    var ok: Script := [Returned(true)];
    var scripts := [ok, ok, ok, ok, ok];
    assert RandInt(3, 2, 5) == 5;
    assert NumberOfSwaps(5, [3]) == Chosen(5);
    assert Outcome(ok, 3) == Done;
    assert BurstFrom(scripts, 4, 5, false, 3) == (1, false);
    assert BurstFrom(scripts, 3, 5, false, 3) == (2, false);
    assert BurstFrom(scripts, 2, 5, false, 3) == (3, false);
    assert BurstFrom(scripts, 1, 5, false, 3) == (4, false);
    assert BurstFrom(scripts, 0, 5, false, 3) == (5, false);
  }

  // ---------------------------------------------------------------------
  // Dispatch through `modules_mapping`
  // ---------------------------------------------------------------------

  /** Call `j` of a handler never returns: its retry loop does not end within its script. */
  predicate CallHangs(scripts: seq<Script>, j: nat, limit: nat)
  {
    Outcome(ScriptAt(scripts, j), limit).Looping?
  }

  /**
   * The handler `modules_mapping` holds for a supported name `n`, run on the
   * scripts of its calls in the order it makes them and on the draws of
   * `choose_number_of_swaps`.
   */
  function HandlerRun(n: ModuleName, p: Progress, maxQuantity: int, draws: seq<nat>, scripts: seq<Script>,
                      skipIfFailed: bool, limit: nat): (HandlerOutcome, Progress)
  {
    if n == Swaps then SwapsRun(p, maxQuantity, draws, scripts, skipIfFailed, limit)
    else if TwoPhase(n) then
      var r := TwoPhaseRun(p, Outcome(ScriptAt(scripts, 0), limit), Outcome(ScriptAt(scripts, 1), limit), skipIfFailed);
      (r.out, r.progress)
    else SingleShotRun(p, Outcome(ScriptAt(scripts, 0), limit), skipIfFailed)
  }

  /**
   * When a handler never returns, read off the calls it makes: a single shot
   * hangs on its one call; a two-phase module on its first phase (when that
   * runs) or on its second (when the flag is `False` or the first phase
   * succeeded); `swaps` when its draws never settle on a burst size or one
   * swap of the burst hangs.
   */
  ghost predicate HandlerHangs(n: ModuleName, p: Progress, maxQuantity: int, draws: seq<nat>, scripts: seq<Script>, limit: nat)
  {
    if n == Swaps then
      match NumberOfSwaps(maxQuantity - p.performedQuantity, draws)
      case EmptyRange => false
      case Undecided => true
      case Chosen(q) => exists j :: 0 <= j < q && CallHangs(scripts, j, limit)
    else if TwoPhase(n) then
      (p.secondPhaseDone != Some(false) && CallHangs(scripts, 0, limit))
      || ((p.secondPhaseDone == Some(false) || Outcome(ScriptAt(scripts, 0), limit).Done?) && CallHangs(scripts, 1, limit))
    else CallHangs(scripts, 0, limit)
  }

  /** A burst hangs exactly when one of its swaps from `j` on does. */
  lemma {:induction false} BurstHangs(scripts: seq<Script>, j: nat, q: nat, skipIfFailed: bool, limit: nat)
    requires j <= q
    ensures BurstFrom(scripts, j, q, skipIfFailed, limit).1 <==> exists i :: j <= i < q && CallHangs(scripts, i, limit)
    decreases q - j
  {
    if j < q && !CallHangs(scripts, j, limit) {
      BurstHangs(scripts, j + 1, q, skipIfFailed, limit);
      forall i | j <= i < q && CallHangs(scripts, i, limit) ensures j + 1 <= i { }
    }
  }

  /**
   * What a dispatched handler returns: it hangs exactly when one of its calls
   * does; only `swaps` raises, exactly when `choose_number_of_swaps` does,
   * and then changes nothing; a returning handler makes a legal step, of at
   * least one invocation under skip-if-failed.
   */
  lemma HandlerRunFacts(n: ModuleName, p: Progress, maxQuantity: int, draws: seq<nat>, scripts: seq<Script>,
                        skipIfFailed: bool, limit: nat)
    requires Supported(n)
    ensures var (out, p') := HandlerRun(n, p, maxQuantity, draws, scripts, skipIfFailed, limit);
            (out.Hung? <==> HandlerHangs(n, p, maxQuantity, draws, scripts, limit))
            && (out.Escaped? <==> n == Swaps && maxQuantity - p.performedQuantity < 2)
            && (out.Escaped? ==> p' == p)
            && (out.Performed? ==> Step(n, p, p', out.count) && (skipIfFailed ==> out.count >= 1))
  {
    if n == Swaps {
      SwapsCounts(p, maxQuantity, draws, scripts, skipIfFailed, limit);
      var c := NumberOfSwaps(maxQuantity - p.performedQuantity, draws);
      if c.Chosen? {
        BurstHangs(scripts, 0, c.quantity, skipIfFailed, limit);
      }
    } else if TwoPhase(n) {
      TwoPhaseIsStep(n, p, Outcome(ScriptAt(scripts, 0), limit), Outcome(ScriptAt(scripts, 1), limit), skipIfFailed);
    } else {
      SingleShotIsStep(n, p, Outcome(ScriptAt(scripts, 0), limit), skipIfFailed);
    }
  }

  // ---------------------------------------------------------------------
  // The queue invariant
  // ---------------------------------------------------------------------

  /** `total_quantity` is a draw from the range, doubled for the two-phase modules. */
  predicate TotalFits(n: ModuleName, total: int, range: QuantityRange)
  {
    if TwoPhase(n) then total % 2 == 0 && range.minQuantity <= total / 2 <= range.maxQuantity
    else range.minQuantity <= total <= range.maxQuantity
  }

  /**
   * A module's counters against its `cnt` queue entries: the entries left are
   * what the counter has not yet covered (a swap burst may overshoot); a
   * two-phase module's flag is `False` exactly when an odd number of
   * invocations is done; an unsupported name is never run.
   */
  predicate ProgressOk(n: ModuleName, p: Progress, cnt: nat)
  {
    if !Supported(n) then p.performedQuantity == 0 && cnt <= Max0(p.totalQuantity)
    else
      cnt == Max0(Max0(p.totalQuantity) - p.performedQuantity)
      && (n != Swaps ==> p.performedQuantity <= Max0(p.totalQuantity))
      && (TwoPhase(n) ==> (p.secondPhaseDone == Some(false) <==> p.performedQuantity % 2 == 1))
  }

  /** Every queued entry has a configuration, and every configured module's counters agree with the queue. */
  predicate ValidState(entries: seq<ModuleName>, progress: map<ModuleName, Progress>, quantities: map<ModuleName, QuantityRange>)
  {
    (forall e :: e in entries ==> e in progress)
    && (forall n :: n in progress ==>
          n in quantities && TotalFits(n, progress[n].totalQuantity, quantities[n])
          && ProgressOk(n, progress[n], Count(entries, n)))
  }

  /**
   * Under skip-if-failed, while swap entries remain, at least two swaps are
   * left below `max_quantity`, so `choose_number_of_swaps` cannot raise.
   */
  predicate SwapsRemainderOk(entries: seq<ModuleName>, progress: map<ModuleName, Progress>,
                             quantities: map<ModuleName, QuantityRange>, skipIfFailed: bool)
  {
    (skipIfFailed && Swaps in progress && Swaps in quantities && Count(entries, Swaps) > 0)
      ==> quantities[Swaps].maxQuantity - progress[Swaps].performedQuantity >= 2
  }

  /** What a returning handler call may do to its module's counters, returning `k`. */
  predicate Step(n: ModuleName, p: Progress, p': Progress, k: nat)
  {
    p'.totalQuantity == p.totalQuantity
    && p'.performedQuantity == p.performedQuantity + k
    && (SingleShot(n) ==> k <= 1)
    && (TwoPhase(n) ==>
          k <= 2 && (k == 2 ==> p.secondPhaseDone != Some(false))
          && (p'.secondPhaseDone == Some(false) <==> (p.secondPhaseDone == Some(false) <==> k % 2 == 0)))
  }

  lemma SingleShotIsStep(n: ModuleName, p: Progress, call: ExecOutcome, skipIfFailed: bool)
    requires SingleShot(n)
    ensures var (out, p') := SingleShotRun(p, call, skipIfFailed);
            out.Performed? ==> Step(n, p, p', out.count) && (skipIfFailed ==> out.count >= 1)
  {
  }

  lemma TwoPhaseIsStep(n: ModuleName, p: Progress, first: ExecOutcome, second: ExecOutcome, skipIfFailed: bool)
    requires TwoPhase(n)
    ensures var r := TwoPhaseRun(p, first, second, skipIfFailed);
            r.out.Performed? ==> Step(n, p, r.progress, r.out.count) && (skipIfFailed ==> r.out.count >= 1)
  {
  }

  /** One module's counters after a returning step of `k` and the removal of `min(k, cnt)` of its entries. */
  lemma StepKeepsProgressOk(n: ModuleName, p: Progress, p': Progress, k: nat, cnt: nat, range: QuantityRange)
    requires TotalFits(n, p.totalQuantity, range) && ProgressOk(n, p, cnt)
    requires cnt >= 1 && Supported(n) && Step(n, p, p', k)
    ensures TotalFits(n, p'.totalQuantity, range) && ProgressOk(n, p', cnt - Min(k, cnt))
  {
    var total := Max0(p.totalQuantity);
    if TwoPhase(n) {
      assert total % 2 == 0;
      if k == 2 {
        assert p.performedQuantity % 2 == 0;
        assert cnt >= 2;
      }
    }
  }

  /** A returning handler step followed by `_remove_module_entries(n, k)` keeps the invariant. */
  lemma StepKeepsValid(entries: seq<ModuleName>, progress: map<ModuleName, Progress>,
                       quantities: map<ModuleName, QuantityRange>, n: ModuleName, p': Progress, k: nat)
    requires ValidState(entries, progress, quantities)
    requires n in entries && Supported(n) && Step(n, progress[n], p', k)
    ensures ValidState(Remove(entries, n, k, false), progress[n := p'], quantities)
  {
    var entries' := Remove(entries, n, k, false);
    var progress' := progress[n := p'];
    RemoveCounts(entries, n, k, false);
    CountMembership(entries, n);
    StepKeepsProgressOk(n, progress[n], p', k, Count(entries, n), quantities[n]);
    forall e | e in entries' ensures e in progress' {
      CountMembership(entries', e);
      CountMembership(entries, e);
    }
    forall m | m in progress'
      ensures m in quantities && TotalFits(m, progress'[m].totalQuantity, quantities[m])
      ensures ProgressOk(m, progress'[m], Count(entries', m))
    {
      if m != n {
        assert progress'[m] == progress[m];
      }
    }
  }

  /** Dropping every entry of an unsupported name keeps the invariant. */
  lemma UnsupportedKeepsValid(entries: seq<ModuleName>, progress: map<ModuleName, Progress>,
                              quantities: map<ModuleName, QuantityRange>, n: ModuleName)
    requires ValidState(entries, progress, quantities)
    requires n in entries && !Supported(n)
    ensures ValidState(Remove(entries, n, 1, true), progress, quantities)
  {
    var entries' := Remove(entries, n, 1, true);
    RemoveCounts(entries, n, 1, true);
    forall e | e in entries' ensures e in progress {
      CountMembership(entries', e);
      CountMembership(entries, e);
    }
  }

  /** A step of another module, or dropping an unsupported name, leaves the swap remainder alone. */
  lemma OtherStepKeepsRemainder(entries: seq<ModuleName>, progress: map<ModuleName, Progress>,
                                quantities: map<ModuleName, QuantityRange>, skipIfFailed: bool,
                                n: ModuleName, p': Progress, k: nat, all: bool)
    requires SwapsRemainderOk(entries, progress, quantities, skipIfFailed)
    requires n != Swaps && n in progress
    ensures SwapsRemainderOk(Remove(entries, n, k, all), progress[n := p'], quantities, skipIfFailed)
    ensures SwapsRemainderOk(Remove(entries, n, k, all), progress, quantities, skipIfFailed)
  {
    RemoveCounts(entries, n, k, all);
  }

  /** Under skip-if-failed a finished burst keeps at least two swaps in hand, or uses up the entries. */
  lemma BurstKeepsRemainder(entries: seq<ModuleName>, progress: map<ModuleName, Progress>,
                            quantities: map<ModuleName, QuantityRange>, skipIfFailed: bool,
                            draws: seq<nat>, scripts: seq<Script>, limit: nat)
    requires ValidState(entries, progress, quantities) && Swaps in progress
    requires skipIfFailed
    ensures var (out, p') := SwapsRun(progress[Swaps], quantities[Swaps].maxQuantity, draws, scripts, skipIfFailed, limit);
            out.Performed? ==>
              SwapsRemainderOk(Remove(entries, Swaps, out.count, false), progress[Swaps := p'], quantities, skipIfFailed)
  {
    var p := progress[Swaps];
    var (out, p') := SwapsRun(p, quantities[Swaps].maxQuantity, draws, scripts, skipIfFailed, limit);
    SwapsCounts(p, quantities[Swaps].maxQuantity, draws, scripts, skipIfFailed, limit);
    if out.Performed? {
      RemoveCounts(entries, Swaps, out.count, false);
      var m' := quantities[Swaps].maxQuantity - p'.performedQuantity;
      if m' < 2 {
        assert m' <= 0;
        assert Count(Remove(entries, Swaps, out.count, false), Swaps) == 0;
      }
    }
  }

  /** Under skip-if-failed, with swap entries left and two swaps in hand, `swaps` cannot raise. */
  lemma SwapsNoEscape(entries: seq<ModuleName>, progress: map<ModuleName, Progress>,
                      quantities: map<ModuleName, QuantityRange>, skipIfFailed: bool,
                      draws: seq<nat>, scripts: seq<Script>, limit: nat)
    requires ValidState(entries, progress, quantities) && Swaps in entries
    requires skipIfFailed && SwapsRemainderOk(entries, progress, quantities, skipIfFailed)
    ensures !SwapsRun(progress[Swaps], quantities[Swaps].maxQuantity, draws, scripts, skipIfFailed, limit).0.Escaped?
  {
    CountMembership(entries, Swaps);
    SwapsCounts(progress[Swaps], quantities[Swaps].maxQuantity, draws, scripts, skipIfFailed, limit);
  }

  /**
   * A pass whose handler returned `k`, followed by the removal of `k`
   * entries, keeps the invariant; under skip-if-failed it also keeps the swap
   * remainder and shortens the queue.
   */
  lemma PerformedKeepsValid(entries: seq<ModuleName>, progress: map<ModuleName, Progress>,
                            quantities: map<ModuleName, QuantityRange>, skipIfFailed: bool,
                            n: ModuleName, p': Progress, k: nat, draws: seq<nat>, scripts: seq<Script>, limit: nat)
    requires ValidState(entries, progress, quantities) && n in entries && Supported(n) && Step(n, progress[n], p', k)
    requires n == Swaps ==> (Performed(k), p') == SwapsRun(progress[n], quantities[n].maxQuantity, draws, scripts, skipIfFailed, limit)
    requires skipIfFailed ==> k >= 1
    ensures ValidState(Remove(entries, n, k, false), progress[n := p'], quantities)
    ensures skipIfFailed && SwapsRemainderOk(entries, progress, quantities, skipIfFailed) ==>
              SwapsRemainderOk(Remove(entries, n, k, false), progress[n := p'], quantities, skipIfFailed)
              && |Remove(entries, n, k, false)| < |entries|
  {
    StepKeepsValid(entries, progress, quantities, n, p', k);
    RemoveLength(entries, n, k, false);
    CountMembership(entries, n);
    if skipIfFailed && SwapsRemainderOk(entries, progress, quantities, skipIfFailed) {
      if n == Swaps {
        BurstKeepsRemainder(entries, progress, quantities, skipIfFailed, draws, scripts, limit);
      } else {
        OtherStepKeepsRemainder(entries, progress, quantities, skipIfFailed, n, p', k, false);
      }
    }
  }

  /**
   * A drained queue means every supported module reached its total: exactly
   * for all but `swaps`, which may overshoot, and with every two-phase module
   * back in its first phase.
   */
  lemma DrainedMeansDone(progress: map<ModuleName, Progress>, quantities: map<ModuleName, QuantityRange>, n: ModuleName)
    requires ValidState([], progress, quantities) && n in progress && Supported(n)
    ensures progress[n].performedQuantity >= Max0(progress[n].totalQuantity)
    ensures n != Swaps ==> progress[n].performedQuantity == Max0(progress[n].totalQuantity)
    ensures TwoPhase(n) ==> progress[n].secondPhaseDone != Some(false)
  {
    assert Count([], n) == 0;
  }
}
