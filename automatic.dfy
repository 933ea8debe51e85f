/**
 * The per-account scheduler `Automatic` (modules/automatic.py): it builds a
 * work queue of module invocations, drains it in random order through the
 * module handlers, and wraps that between the funding and withdrawal stages.
 * The module configuration is shared by all entries of a module, so it is a
 * map from module name to its counters.
 */
module Automatic {
  import opened Wrappers
  import opened Choice
  import opened Retry
  import opened WorkQueue
  import opened Handlers
  import opened Venues
  import SwapSelection

  /** The bridge services `_configure` accepts. */
  datatype BridgeService = Native | Orbiter | LayerSwap | Nitro

  function ServiceName(s: BridgeService): string
  {
    match s
    case Native => "native"
    case Orbiter => "orbiter"
    case LayerSwap => "layerswap"
    case Nitro => "nitro"
  }

  /** The `if`/`elif` chain over the service name; `None` is the `ValueError` branch. */
  function ParseBridgeService(name: string): (r: Option<BridgeService>)
    ensures r.Some? <==> name == "native" || name == "orbiter" || name == "layerswap" || name == "nitro"
    ensures r.Some? ==> ServiceName(r.value) == name
  {
    if name == "native" then Some(Native)
    else if name == "orbiter" then Some(Orbiter)
    else if name == "layerswap" then Some(LayerSwap)
    else if name == "nitro" then Some(Nitro)
    else None
  }

  /** Why `_configure` raises: an unknown bridge service, a module without settings, an empty `randint` range. */
  datatype ConfigError =
    | UnknownBridgeIn(name: string)
    | UnknownBridgeOut(name: string)
    | MissingModuleConfig(moduleName: ModuleName)
    | EmptyQuantityRange(moduleName: ModuleName)

  /** The run-level switches of the automation config. */
  datatype RunFlags = RunFlags(
    okxWithdrawEnabled: bool,
    bridgeInEnabled: bool,
    swapAllTokensToEthBeforeWithdraw: bool,
    bridgeOutEnabled: bool,
    okxDepositEnabled: bool)

  /** The total drawn for a module: `randint(min, max)`, doubled for the two-phase modules. */
  function DrawnTotal(n: ModuleName, range: QuantityRange, d: nat): (t: int)
    requires range.minQuantity <= range.maxQuantity
    ensures TotalFits(n, t, range)
  {
    var q := RandInt(d, range.minQuantity, range.maxQuantity);
    if TwoPhase(n) then 2 * q else q
  }

  predicate Distinct(modules: seq<ModuleName>)
  {
    forall i, j :: 0 <= i < j < |modules| ==> modules[i] != modules[j]
  }

  /** The settings of module `modules[i]` exist and their range is non-empty, for every `i < k`. */
  predicate RangesOk(modules: seq<ModuleName>, quantities: map<ModuleName, QuantityRange>, k: nat)
    requires k <= |modules|
  {
    forall i :: 0 <= i < k ==>
      modules[i] in quantities && quantities[modules[i]].minQuantity <= quantities[modules[i]].maxQuantity
  }

  /** What one pass of the scheduling loop is given: the entry pick, the scripts of the handler's calls, the draws of `choose_number_of_swaps`. */
  datatype Tick = Tick(pick: nat, scripts: seq<Script>, draws: seq<nat>)

  /**
   * How `run_modules` ended: the queue drained; `choose_number_of_swaps`
   * raised; the ticks ran out; or a call never returned (a retry loop spinning
   * on falsy results, or a script that ends undecided).
   */
  datatype LoopOutcome = Drained | Aborted | OutOfTicks | Stuck

  /** The stages of `run`, in order. */
  datatype Stage = OkxWithdraw | BridgeIn(service: BridgeService) | Modules | SwapAllToEth
                 | BridgeOut(service: BridgeService) | OkxDeposit

  /** How `run` ended: every stage done, a stage raised, or a stage did not finish. */
  datatype RunOutcome = Completed | StageFailed(stage: Stage) | Unfinished

  /** How one stage ended. */
  datatype StageResult = StageOk | StageRaised | StageHung

  /** How a run of consecutive stages ended (`None`: all of them finished), and how many of them started. */
  datatype StagesRun = StagesRun(stop: Option<RunOutcome>, started: nat)

  /** A stage that raises `ValueError` when `execute_func_with_retries` returns `False`. */
  function ExecStage(outcome: ExecOutcome): (r: StageResult)
    ensures r.StageOk? <==> outcome.Done?
    ensures r.StageRaised? <==> outcome.GaveUp?
  {
    match outcome
    case Done => StageOk
    case GaveUp => StageRaised
    case Looping => StageHung
  }

  /** The stages that come after `run_modules`. */
  predicate AfterModules(s: Stage)
  {
    s.SwapAllToEth? || s.BridgeOut? || s.OkxDeposit?
  }

  /** `get_amount_to_bridge_out`: the balance above the amount to leave, or the `ValueError` when there is none. */
  function AmountToBridgeOut(balance: real, leave: real): (r: Option<real>)
    ensures r.None? <==> balance <= leave
    ensures r.Some? ==> r.value > 0.0 && r.value + leave == balance
  {
    if balance <= leave then None else Some(balance - leave)
  }

  /** Everything the external world decides during `run`. */
  datatype World = World(
    okxWithdraw: Script,
    bridgeIn: Script,
    ticks: seq<Tick>,
    balances: SwapSelection.Snapshot,   // the snapshot read by `swap_all_tokens_to_eth`
    consolidationPick: nat,
    consolidation: Script,
    balance: real,                      // ETH balance read by `get_amount_to_bridge_out`
    leave: real,                        // its `random.uniform` amount to leave
    bridgeOut: Script,
    okxDeposit: Script)

  /** `choose_number_of_swaps` as its `while` loop; `draws` drive `randint(2, maximum)`. */
  method ChooseNumberOfSwaps(maximum: int, draws: seq<nat>) returns (c: SwapCount)
    ensures c == NumberOfSwaps(maximum, draws)
    ensures c.EmptyRange? <==> maximum < 2
    ensures c.Chosen? ==> 2 <= c.quantity <= maximum && c.quantity != maximum - 1
  {
    NumberOfSwapsRange(maximum, draws);
    var quantity := maximum - 1;
    var i := 0;
    while quantity == maximum - 1
      invariant i <= |draws|
      invariant quantity == maximum - 1 ==> NumberOfSwaps(maximum, draws) == NumberOfSwaps(maximum, draws[i..])
      invariant i > 0 ==> maximum >= 2 && 2 <= quantity <= maximum
      invariant quantity != maximum - 1 ==> i > 0 && NumberOfSwaps(maximum, draws) == Chosen(quantity)
      decreases |draws| - i
    {
      if maximum < 2 {
        return EmptyRange;
      }
      if i == |draws| {
        return Undecided;
      }
      quantity := RandInt(draws[i], 2, maximum);
      assert draws[i..][0] == draws[i] && draws[i..][1..] == draws[i + 1..];
      i := i + 1;
    }
    c := Chosen(quantity);
  }

  /** One step of `Remove` on a queue with `e` in front. */
  lemma RemoveUnfold(e: ModuleName, rest: seq<ModuleName>, n: ModuleName, q: nat, all: bool)
    ensures Remove([e] + rest, n, q, all)
            == if e != n then [e] + Remove(rest, n, q, all)
               else if all || q > 0 then Remove(rest, n, if q > 0 then q - 1 else 0, all)
               else [e] + Remove(rest, n, q, all)
  {
    assert ([e] + rest)[0] == e && ([e] + rest)[1..] == rest;
  }

  /** A module's counters as `_configure` leaves them. */
  predicate FreshProgress(n: ModuleName, p: Progress, range: QuantityRange)
  {
    p.performedQuantity == 0 && p.secondPhaseDone.None? && p.currentMaxQuantity.None? && TotalFits(n, p.totalQuantity, range)
  }

  /** The state after `_configure` has handled `modules[..i]`: which modules have counters, and their values. */
  predicate ConfiguredShape(entries: seq<ModuleName>, progress: map<ModuleName, Progress>, quantities: map<ModuleName, QuantityRange>,
                            modules: seq<ModuleName>, i: nat)
    requires i <= |modules|
  {
    RangesOk(modules, quantities, i)
    && (forall e :: e in entries ==> e in progress)
    && (forall n :: n in progress ==> n in modules[..i] && n in quantities && FreshProgress(n, progress[n], quantities[n]))
    && (forall k :: 0 <= k < i ==> modules[k] in progress)
  }

  /** With distinct names: each handled module has as many entries as its drawn total. */
  predicate ConfiguredCounts(entries: seq<ModuleName>, progress: map<ModuleName, Progress>, quantities: map<ModuleName, QuantityRange>,
                             modules: seq<ModuleName>, draws: seq<nat>, i: nat)
    requires i <= |modules| == |draws| && RangesOk(modules, quantities, i)
    requires forall k :: 0 <= k < i ==> modules[k] in progress
  {
    (forall n :: n in progress ==> Count(entries, n) == Max0(progress[n].totalQuantity))
    && (forall k :: 0 <= k < i ==>
          progress[modules[k]].totalQuantity == DrawnTotal(modules[k], quantities[modules[k]], draws[k]))
  }

  predicate Configured(entries: seq<ModuleName>, progress: map<ModuleName, Progress>, quantities: map<ModuleName, QuantityRange>,
                       modules: seq<ModuleName>, draws: seq<nat>, i: nat)
    requires i <= |modules| == |draws|
  {
    ConfiguredShape(entries, progress, quantities, modules, i)
    && (Distinct(modules) ==> ConfiguredCounts(entries, progress, quantities, modules, draws, i))
  }

  lemma ConfigureStepShape(entries: seq<ModuleName>, progress: map<ModuleName, Progress>, quantities: map<ModuleName, QuantityRange>,
                           modules: seq<ModuleName>, i: nat, t: int)
    requires i < |modules| && ConfiguredShape(entries, progress, quantities, modules, i)
    requires modules[i] in quantities && quantities[modules[i]].minQuantity <= quantities[modules[i]].maxQuantity
    requires TotalFits(modules[i], t, quantities[modules[i]])
    ensures ConfiguredShape(entries + Repeat(modules[i], t), progress[modules[i] := Progress(t, 0, None, None)], quantities, modules, i + 1)
  {
    var n := modules[i];
    assert modules[..i + 1] == modules[..i] + [n];
    var entries' := entries + Repeat(n, t);
    forall e | e in entries' ensures e == n || e in progress {
      if e !in entries {
        CountMembership(Repeat(n, t), e);
      }
    }
  }

  lemma ConfigureStepCounts(entries: seq<ModuleName>, progress: map<ModuleName, Progress>, quantities: map<ModuleName, QuantityRange>,
                            modules: seq<ModuleName>, draws: seq<nat>, i: nat)
    requires i < |modules| == |draws| && ConfiguredShape(entries, progress, quantities, modules, i)
    requires Distinct(modules) && ConfiguredCounts(entries, progress, quantities, modules, draws, i)
    requires modules[i] in quantities && quantities[modules[i]].minQuantity <= quantities[modules[i]].maxQuantity
    ensures var n := modules[i];
            var t := DrawnTotal(n, quantities[n], draws[i]);
            ConfiguredShape(entries + Repeat(n, t), progress[n := Progress(t, 0, None, None)], quantities, modules, i + 1)
            && ConfiguredCounts(entries + Repeat(n, t), progress[n := Progress(t, 0, None, None)], quantities, modules, draws, i + 1)
  {
    var n := modules[i];
    var t := DrawnTotal(n, quantities[n], draws[i]);
    ConfigureStepShape(entries, progress, quantities, modules, i, t);
    var entries' := entries + Repeat(n, t);
    var progress' := progress[n := Progress(t, 0, None, None)];
    forall k | 0 <= k < i ensures modules[k] != n { }
    assert n !in modules[..i];
    CountMembership(entries, n);
    forall m | m in progress' ensures Count(entries', m) == Max0(progress'[m].totalQuantity) {
      CountAppend(entries, Repeat(n, t), m);
    }
    forall k | 0 <= k < i + 1
      ensures progress'[modules[k]].totalQuantity == DrawnTotal(modules[k], quantities[modules[k]], draws[k])
    {
      if k < i {
        assert modules[k] != n;
      }
    }
  }

  /** One iteration of the loop of `_configure`: queue the drawn total of `modules[i]` and reset its counters. */
  lemma ConfigureStep(entries: seq<ModuleName>, progress: map<ModuleName, Progress>, quantities: map<ModuleName, QuantityRange>,
                      modules: seq<ModuleName>, draws: seq<nat>, i: nat)
    requires i < |modules| == |draws| && Configured(entries, progress, quantities, modules, draws, i)
    requires modules[i] in quantities && quantities[modules[i]].minQuantity <= quantities[modules[i]].maxQuantity
    ensures var n := modules[i];
            var t := DrawnTotal(n, quantities[n], draws[i]);
            Configured(entries + Repeat(n, t), progress[n := Progress(t, 0, None, None)], quantities, modules, draws, i + 1)
  {
    var n := modules[i];
    if Distinct(modules) {
      ConfigureStepCounts(entries, progress, quantities, modules, draws, i);
    } else {
      ConfigureStepShape(entries, progress, quantities, modules, i, DrawnTotal(n, quantities[n], draws[i]));
    }
  }

  /** What the finished loop of `_configure` leaves. */
  lemma ConfiguredFinal(entries: seq<ModuleName>, progress: map<ModuleName, Progress>, quantities: map<ModuleName, QuantityRange>,
                        modules: seq<ModuleName>, draws: seq<nat>, skipIfFailed: bool)
    requires |modules| == |draws| && Configured(entries, progress, quantities, modules, draws, |modules|)
    ensures forall e :: e in entries ==> e in modules
    ensures forall n :: n in progress <==> n in modules
    ensures forall n :: n in progress ==>
              progress[n].performedQuantity == 0 && progress[n].secondPhaseDone.None?
              && TotalFits(n, progress[n].totalQuantity, quantities[n])
    ensures Distinct(modules) ==> ValidState(entries, progress, quantities)
    ensures Distinct(modules) ==>
              forall i :: 0 <= i < |modules| ==>
                progress[modules[i]].totalQuantity == DrawnTotal(modules[i], quantities[modules[i]], draws[i])
    ensures Distinct(modules) ==>
              forall n :: n in modules ==> Count(entries, n) == Max0(progress[n].totalQuantity)
    ensures Distinct(modules) && Swaps in quantities && quantities[Swaps].maxQuantity != 1 ==>
              SwapsRemainderOk(entries, progress, quantities, skipIfFailed)
  {
    assert modules[..|modules|] == modules;
    forall n | n in modules ensures n in progress {
      var k :| 0 <= k < |modules| && modules[k] == n;
    }
    if Distinct(modules) {
      forall n | n in modules ensures Count(entries, n) == Max0(progress[n].totalQuantity) {
        var k :| 0 <= k < |modules| && modules[k] == n;
      }
      FreshIsValid(entries, progress, quantities);
      if Swaps in quantities && quantities[Swaps].maxQuantity != 1 && Swaps in progress {
        FreshSwapsRemainder(progress[Swaps], quantities[Swaps]);
      }
    }
  }

  /** Fresh counters that agree with the queue's counts satisfy the scheduler invariant. */
  lemma FreshIsValid(entries: seq<ModuleName>, progress: map<ModuleName, Progress>, quantities: map<ModuleName, QuantityRange>)
    requires forall e :: e in entries ==> e in progress
    requires forall n :: n in progress ==> n in quantities && FreshProgress(n, progress[n], quantities[n])
    requires forall n :: n in progress ==> Count(entries, n) == Max0(progress[n].totalQuantity)
    ensures ValidState(entries, progress, quantities)
  {
  }

  /** A fresh swap counter whose maximum is not one leaves at least two swaps, or none are queued. */
  lemma FreshSwapsRemainder(p: Progress, range: QuantityRange)
    requires FreshProgress(Swaps, p, range) && range.maxQuantity != 1
    ensures Max0(p.totalQuantity) > 0 ==> range.maxQuantity - p.performedQuantity >= 2
  {
  }

  // ---------------------------------------------------------------------
  // The scheduling loop as functions
  // ---------------------------------------------------------------------

  /** The queue and the counters `run_modules` works on. */
  datatype Sched = Sched(entries: seq<ModuleName>, progress: map<ModuleName, Progress>)

  /**
   * One pass of `run_modules`: `random.choice` picks an entry; a supported
   * name runs its handler and loses as many entries as the handler returned;
   * an unsupported one loses all of its entries. The first component is
   * `None` when the pass completed, `Aborted` when the handler raised and
   * `Stuck` when it never returned.
   */
  function Pass(s: Sched, quantities: map<ModuleName, QuantityRange>, tick: Tick, skipIfFailed: bool, limit: nat)
    : (Option<LoopOutcome>, Sched)
    requires ValidState(s.entries, s.progress, quantities) && |s.entries| > 0
  {
    var n := Pick(tick.pick, s.entries);
    if !Supported(n) then (None, Sched(Remove(s.entries, n, 1, true), s.progress))
    else
      var (out, p') := HandlerRun(n, s.progress[n], quantities[n].maxQuantity, tick.draws, tick.scripts, skipIfFailed, limit);
      match out
      case Hung => (Some(Stuck), Sched(s.entries, s.progress[n := p']))
      case Escaped => (Some(Aborted), Sched(s.entries, s.progress[n := p']))
      case Performed(k) => (None, Sched(Remove(s.entries, n, k, false), s.progress[n := p']))
  }

  /**
   * A pass hangs exactly when the picked module's handler does, raises
   * exactly when `choose_number_of_swaps` of a picked `swaps` does, leaves the
   * queue alone when it stops, and otherwise keeps the invariant; under
   * skip-if-failed with two swaps in hand it never raises and a completed pass
   * shortens the queue and keeps the swap remainder.
   */
  lemma PassFacts(s: Sched, quantities: map<ModuleName, QuantityRange>, tick: Tick, skipIfFailed: bool, limit: nat)
    requires ValidState(s.entries, s.progress, quantities) && |s.entries| > 0
    ensures var n := Pick(tick.pick, s.entries);
            var (stop, s') := Pass(s, quantities, tick, skipIfFailed, limit);
            n in s.progress && n in quantities
            && (stop == None || stop == Some(Aborted) || stop == Some(Stuck))
            && (stop == Some(Stuck) <==>
                  Supported(n) && HandlerHangs(n, s.progress[n], quantities[n].maxQuantity, tick.draws, tick.scripts, limit))
            && (stop == Some(Aborted) <==> n == Swaps && quantities[n].maxQuantity - s.progress[n].performedQuantity < 2)
            && (stop.Some? ==> s'.entries == s.entries)
            && (stop != Some(Stuck) ==> ValidState(s'.entries, s'.progress, quantities))
            && s'.progress.Keys == s.progress.Keys
            && (skipIfFailed && SwapsRemainderOk(s.entries, s.progress, quantities, skipIfFailed) ==>
                  stop != Some(Aborted)
                  && (stop == None ==>
                        SwapsRemainderOk(s'.entries, s'.progress, quantities, skipIfFailed) && |s'.entries| < |s.entries|))
  {
    var n := Pick(tick.pick, s.entries);
    CountMembership(s.entries, n);
    if !Supported(n) {
      UnsupportedKeepsValid(s.entries, s.progress, quantities, n);
      RemoveLength(s.entries, n, 1, true);
      if skipIfFailed && SwapsRemainderOk(s.entries, s.progress, quantities, skipIfFailed) {
        OtherStepKeepsRemainder(s.entries, s.progress, quantities, skipIfFailed, n, s.progress[n], 1, true);
      }
    } else {
      var maxQ := quantities[n].maxQuantity;
      HandlerRunFacts(n, s.progress[n], maxQ, tick.draws, tick.scripts, skipIfFailed, limit);
      var (out, p') := HandlerRun(n, s.progress[n], maxQ, tick.draws, tick.scripts, skipIfFailed, limit);
      if skipIfFailed && SwapsRemainderOk(s.entries, s.progress, quantities, skipIfFailed) && n == Swaps {
        SwapsNoEscape(s.entries, s.progress, quantities, skipIfFailed, tick.draws, tick.scripts, limit);
      }
      if out.Escaped? {
        assert s.progress[n := p'] == s.progress;
      }
      if out.Performed? {
        PerformedKeepsValid(s.entries, s.progress, quantities, skipIfFailed, n, p', out.count, tick.draws, tick.scripts, limit);
      }
    }
  }

  /** How `run_modules` ended, after how many passes, and on which queue and counters. */
  datatype LoopRun = LoopRun(outcome: LoopOutcome, used: nat, state: Sched)

  /** `r` seen after `k` earlier passes. */
  function Later(r: LoopRun, k: nat): LoopRun
  {
    LoopRun(r.outcome, r.used + k, r.state)
  }

  /**
   * `run_modules`: passes until the queue is empty, one tick per pass. It
   * drains exactly when it ends on an empty queue; the invariant holds unless
   * a call hangs; and under skip-if-failed with two swaps in hand it never
   * raises, shortens the queue on every pass, and so drains within as many
   * passes as there were entries unless a call hangs.
   */
  function Loop(s: Sched, quantities: map<ModuleName, QuantityRange>, ticks: seq<Tick>, skipIfFailed: bool, limit: nat)
    : (r: LoopRun)
    requires ValidState(s.entries, s.progress, quantities)
    ensures r.used <= |ticks|
    ensures r.outcome.Drained? <==> r.state.entries == []
    ensures r.outcome.OutOfTicks? ==> r.used == |ticks|
    ensures !r.outcome.Stuck? ==> ValidState(r.state.entries, r.state.progress, quantities)
    ensures r.state.progress.Keys == s.progress.Keys
    ensures skipIfFailed && SwapsRemainderOk(s.entries, s.progress, quantities, skipIfFailed) ==>
              !r.outcome.Aborted?
              && (!r.outcome.Stuck? ==>
                    SwapsRemainderOk(r.state.entries, r.state.progress, quantities, skipIfFailed)
                    && r.used + |r.state.entries| <= |s.entries|)
    ensures skipIfFailed && SwapsRemainderOk(s.entries, s.progress, quantities, skipIfFailed) && |ticks| >= |s.entries| ==>
              r.outcome.Drained? || r.outcome.Stuck?
    decreases |ticks|
  {
    if |s.entries| == 0 then LoopRun(Drained, 0, s)
    else if |ticks| == 0 then LoopRun(OutOfTicks, 0, s)
    else
      PassFacts(s, quantities, ticks[0], skipIfFailed, limit);
      var (stop, s') := Pass(s, quantities, ticks[0], skipIfFailed, limit);
      if stop.Some? then LoopRun(stop.value, 1, s')
      else Later(Loop(s', quantities, ticks[1..], skipIfFailed, limit), 1)
  }

  /**
   * The loop is stuck only on a hanging handler: after `k` completed passes
   * the next pick's handler hangs on its calls.
   */
  lemma {:induction false} StuckOnlyOnHang(s: Sched, quantities: map<ModuleName, QuantityRange>, ticks: seq<Tick>,
                                           skipIfFailed: bool, limit: nat) returns (k: nat)
    requires ValidState(s.entries, s.progress, quantities)
    requires Loop(s, quantities, ticks, skipIfFailed, limit).outcome.Stuck?
    ensures k < |ticks| && Loop(s, quantities, ticks, skipIfFailed, limit).used == k + 1
    ensures var before := Loop(s, quantities, ticks[..k], skipIfFailed, limit);
            before.outcome.OutOfTicks? && |before.state.entries| > 0
            && ValidState(before.state.entries, before.state.progress, quantities)
            && var n := Pick(ticks[k].pick, before.state.entries);
               n in before.state.progress && n in quantities && Supported(n)
               && HandlerHangs(n, before.state.progress[n], quantities[n].maxQuantity, ticks[k].draws, ticks[k].scripts, limit)
    decreases |ticks|
  {
    PassFacts(s, quantities, ticks[0], skipIfFailed, limit);
    var (stop, s') := Pass(s, quantities, ticks[0], skipIfFailed, limit);
    if stop.Some? {
      k := 0;
      assert ticks[..0] == [];
    } else {
      var k' := StuckOnlyOnHang(s', quantities, ticks[1..], skipIfFailed, limit);
      k := k' + 1;
      assert ticks[..k][0] == ticks[0] && ticks[..k][1..] == ticks[1..][..k'];
    }
  }

  class Automatic {
    const quantities: map<ModuleName, QuantityRange>
    const skipIfFailed: bool
    const sleepAtStart: bool
    const maxRetries: nat
    const flags: RunFlags
    const swapServices: seq<Venue>
    const floors: map<string, real>

    var bridgeIn: Option<BridgeService>
    var bridgeOut: Option<BridgeService>
    var entries: seq<ModuleName>
    var progress: map<ModuleName, Progress>
    var madeFirstTransaction: bool

    /** Every queued entry has its counters, and the counters agree with the queue. */
    predicate Valid()
      reads this
    {
      ValidState(entries, progress, quantities)
    }

    /** Under skip-if-failed, `choose_number_of_swaps` has at least two swaps left while swap entries remain. */
    predicate RemainderOk()
      reads this
    {
      SwapsRemainderOk(entries, progress, quantities, skipIfFailed)
    }

    /** The object before `_configure`: empty queue, no counters, no transaction made yet. */
    constructor(quantities: map<ModuleName, QuantityRange>, skipIfFailed: bool, sleepAtStart: bool, maxRetries: nat,
                flags: RunFlags, swapServices: seq<Venue>, floors: map<string, real>)
      ensures this.quantities == quantities && this.skipIfFailed == skipIfFailed && this.sleepAtStart == sleepAtStart
      ensures this.maxRetries == maxRetries && this.flags == flags && this.swapServices == swapServices && this.floors == floors
      ensures bridgeIn == None && bridgeOut == None && entries == [] && progress == map[] && !madeFirstTransaction
    {
      this.quantities := quantities;
      this.skipIfFailed := skipIfFailed;
      this.sleepAtStart := sleepAtStart;
      this.maxRetries := maxRetries;
      this.flags := flags;
      this.swapServices := swapServices;
      this.floors := floors;
      bridgeIn, bridgeOut := None, None;
      entries, progress := [], map[];
      madeFirstTransaction := false;
    }

    /**
     * `_configure`: resolve the two bridge services, then for each requested
     * module draw its total, reset its counters and queue that many entries.
     * `draws[i]` drives the `randint` of `modules[i]`.
     */
    method Configure(inName: string, outName: string, modules: seq<ModuleName>, draws: seq<nat>)
      returns (r: Result<(), ConfigError>)
      requires entries == [] && progress == map[]
      requires |draws| == |modules|
      modifies this`bridgeIn, this`bridgeOut, this`entries, this`progress
      ensures ParseBridgeService(inName).None? ==> r == Failure(UnknownBridgeIn(inName))
      ensures ParseBridgeService(inName).Some? && ParseBridgeService(outName).None? ==> r == Failure(UnknownBridgeOut(outName))
      ensures r.Success? <==> ParseBridgeService(inName).Some? && ParseBridgeService(outName).Some? && RangesOk(modules, quantities, |modules|)
      ensures r.Success? ==>
                bridgeIn == ParseBridgeService(inName) && bridgeOut == ParseBridgeService(outName)
                && (forall e :: e in entries ==> e in modules)
                && (forall n :: n in progress <==> n in modules)
                && (forall n :: n in progress ==>
                      progress[n].performedQuantity == 0 && progress[n].secondPhaseDone.None?
                      && TotalFits(n, progress[n].totalQuantity, quantities[n]))
      ensures r.Success? && Distinct(modules) ==> Valid()
      ensures r.Success? && Distinct(modules) ==>
                forall i :: 0 <= i < |modules| ==>
                  progress[modules[i]].totalQuantity == DrawnTotal(modules[i], quantities[modules[i]], draws[i])
      ensures r.Success? && Distinct(modules) ==>
                forall n :: n in modules ==> Count(entries, n) == Max0(progress[n].totalQuantity)
      ensures r.Success? && Distinct(modules) && Swaps in quantities && quantities[Swaps].maxQuantity != 1 ==> RemainderOk()
    {
      var inService := ParseBridgeService(inName);
      if inService.None? {
        return Failure(UnknownBridgeIn(inName));
      }
      bridgeIn := inService;
      var outService := ParseBridgeService(outName);
      if outService.None? {
        return Failure(UnknownBridgeOut(outName));
      }
      bridgeOut := outService;
      for i := 0 to |modules|
        invariant bridgeIn == inService && bridgeOut == outService
        invariant Configured(entries, progress, quantities, modules, draws, i)
      {
        var n := modules[i];
        if n !in quantities {
          assert !RangesOk(modules, quantities, |modules|);
          return Failure(MissingModuleConfig(n));
        }
        var range := quantities[n];
        if range.minQuantity > range.maxQuantity {
          assert !RangesOk(modules, quantities, |modules|);
          return Failure(EmptyQuantityRange(n));
        }
        var quantity := RandInt(draws[i], range.minQuantity, range.maxQuantity);
        if TwoPhase(n) {
          quantity := quantity * 2;
        }
        assert quantity == DrawnTotal(n, range, draws[i]);
        ConfigureStep(entries, progress, quantities, modules, draws, i);
        progress := progress[n := Progress(quantity, 0, None, None)];
        entries := entries + Repeat(n, quantity);
      }
      ConfiguredFinal(entries, progress, quantities, modules, draws, skipIfFailed);
      r := Success(());
    }

    /**
     * `_remove_module_entries`: keep every entry of another module; of the
     * entries named `n`, drop the first `quantity` (all of them with `all`).
     * `removed` counts the entries named `n` seen so far.
     */
    method RemoveModuleEntries(n: ModuleName, quantity: nat, all: bool)
      modifies this`entries
      ensures entries == Remove(old(entries), n, quantity, all)
    {
      var s := entries;
      var kept := [];
      var removed := 0;
      for i := 0 to |s|
        invariant Remove(s, n, quantity, all) == kept + Remove(s[i..], n, Max0(quantity - removed), all)
      {
        var e := s[i];
        RemoveUnfold(e, s[i + 1..], n, Max0(quantity - removed), all);
        assert s[i..] == [e] + s[i + 1..];
        if e != n {
          kept := kept + [e];
        } else {
          removed := removed + 1;
          if removed > quantity && !all {
            kept := kept + [e];
          }
        }
      }
      assert s[|s|..] == [];
      entries := kept;
    }

    /**
     * `run_module` with the default retry budget: sleep first unless this is
     * the very first transaction and `sleep_at_start` is off; run the retry
     * loop; mark that a transaction was made; raise when asked to and the call
     * was not done; otherwise return `done or skip_if_failed`.
     */
    method RunModule(script: Script, failAfterRetries: bool) returns (r: ModuleCall, slept: bool)
      modifies this`madeFirstTransaction
      ensures r == CallResult(Outcome(script, maxRetries), failAfterRetries, skipIfFailed)
      ensures slept == (old(madeFirstTransaction) || sleepAtStart)
      ensures madeFirstTransaction == (old(madeFirstTransaction) || !r.Stalled?)
    {
      slept := madeFirstTransaction || sleepAtStart;
      var outcome, calls, sleeps := ExecuteWithRetries(script, maxRetries);
      if outcome.Looping? {
        return Stalled, slept;
      }
      var done := outcome.Done?;
      madeFirstTransaction := true;
      if !done && failAfterRetries {
        return RaisedAfterRetries, slept;
      }
      r := Finished(done || skipIfFailed);
    }

    /** A single-shot handler (`send_email`, `mint_*`, `deploy_contract`, ...): one `run_module`, counted when truthy. */
    method SingleShotHandler(n: ModuleName, script: Script) returns (out: HandlerOutcome)
      requires n in progress
      modifies this`progress, this`madeFirstTransaction
      ensures progress.Keys == old(progress.Keys)
      ensures (out, progress[n]) == SingleShotRun(old(progress[n]), Outcome(script, maxRetries), skipIfFailed)
      ensures progress == old(progress)[n := progress[n]]
    {
      var call, _ := RunModule(script, false);
      if call.Stalled? {
        return Hung;
      }
      if call.Finished? && call.value {
        progress := progress[n := progress[n].(performedQuantity := progress[n].performedQuantity + 1)];
        return Performed(1);
      }
      return Performed(0);
    }

    /** `run_deposit_withdraw` (`aave`, `layerbank`) and `wrap_unwrap_eth`. */
    method TwoPhaseHandler(n: ModuleName, first: Script, second: Script) returns (out: HandlerOutcome, ran: seq<Phase>)
      requires n in progress
      modifies this`progress, this`madeFirstTransaction
      ensures progress.Keys == old(progress.Keys)
      ensures TwoPhaseResult(out, progress[n], ran)
              == TwoPhaseRun(old(progress[n]), Outcome(first, maxRetries), Outcome(second, maxRetries), skipIfFailed)
      ensures progress == old(progress)[n := progress[n]]
    {
      var p := progress[n];
      var performed := 0;
      ran := [];
      if p.secondPhaseDone != Some(false) {
        ran := [FirstPhase];
        var call, _ := RunModule(first, true);
        match call {
          case Stalled =>
            return Hung, ran;
          case RaisedAfterRetries =>
            if skipIfFailed {
              progress := progress[n := p.(performedQuantity := p.performedQuantity + 2)];
              return Performed(2), ran;
            }
            return Performed(0), ran;
          case Finished(_) =>
            performed := 1;
        }
      }
      ran := ran + [SecondPhase];
      var call, _ := RunModule(second, false);
      if call.Stalled? {
        return Hung, ran;
      }
      var done := call.Finished? && call.value;
      if done {
        performed := performed + 1;
      }
      progress := progress[n := p.(secondPhaseDone := Some(done), performedQuantity := p.performedQuantity + performed)];
      out := Performed(performed);
    }

    /** `swaps`: size a burst, record it as `current_max_quantity`, and run it swap by swap. */
    method SwapsHandler(draws: seq<nat>, scripts: seq<Script>) returns (out: HandlerOutcome)
      requires Swaps in progress && Swaps in quantities
      modifies this`progress, this`madeFirstTransaction
      ensures progress.Keys == old(progress.Keys)
      ensures (out, progress[Swaps])
              == SwapsRun(old(progress[Swaps]), quantities[Swaps].maxQuantity, draws, scripts, skipIfFailed, maxRetries)
      ensures progress == old(progress)[Swaps := progress[Swaps]]
    {
      var p := progress[Swaps];
      var c := ChooseNumberOfSwaps(quantities[Swaps].maxQuantity - p.performedQuantity, draws);
      match c {
        case EmptyRange =>
          return Escaped;
        case Undecided =>
          return Hung;
        case Chosen(q) =>
          progress := progress[Swaps := p.(currentMaxQuantity := Some(q))];
          var performed, hung := RunBurst(q, scripts);
          out := if hung then Hung else Performed(performed);
      }
    }

    /** The burst loop of `swaps`: each truthy swap bumps the counter at once; a swap that never returns ends it. */
    method RunBurst(q: nat, scripts: seq<Script>) returns (performed: nat, hung: bool)
      requires Swaps in progress
      modifies this`progress, this`madeFirstTransaction
      ensures (performed, hung) == BurstFrom(scripts, 0, q, skipIfFailed, maxRetries)
      ensures progress == old(progress)[Swaps := old(progress[Swaps]).(performedQuantity := old(progress[Swaps]).performedQuantity + performed)]
    {
      ghost var p := progress[Swaps];
      performed := 0;
      for j := 0 to q
        invariant progress == old(progress)[Swaps := p.(performedQuantity := p.performedQuantity + performed)]
        invariant var all := BurstFrom(scripts, 0, q, skipIfFailed, maxRetries);
                  var rest := BurstFrom(scripts, j, q, skipIfFailed, maxRetries);
                  all == (performed + rest.0, rest.1)
      {
        var call, _ := RunModule(ScriptAt(scripts, j), false);
        if call.Stalled? {
          return performed, true;
        }
        if call.Finished? && call.value {
          performed := performed + 1;
          progress := progress[Swaps := progress[Swaps].(performedQuantity := progress[Swaps].performedQuantity + 1)];
        }
      }
      hung := false;
    }

    /** The dispatch through `modules_mapping`; the scripts of a tick serve the handler's calls in order. */
    method Dispatch(n: ModuleName, tick: Tick) returns (out: HandlerOutcome)
      requires Supported(n) && n in progress && n in quantities
      modifies this`progress, this`madeFirstTransaction
      ensures progress.Keys == old(progress.Keys)
      ensures progress == old(progress)[n := progress[n]]
      ensures (out, progress[n])
              == HandlerRun(n, old(progress[n]), quantities[n].maxQuantity, tick.draws, tick.scripts, skipIfFailed, maxRetries)
      ensures out.Hung? <==> HandlerHangs(n, old(progress[n]), quantities[n].maxQuantity, tick.draws, tick.scripts, maxRetries)
      ensures out.Performed? ==> Step(n, old(progress[n]), progress[n], out.count)
      ensures skipIfFailed && out.Performed? ==> out.count >= 1
      ensures n != Swaps ==> !out.Escaped?
    {
      HandlerRunFacts(n, progress[n], quantities[n].maxQuantity, tick.draws, tick.scripts, skipIfFailed, maxRetries);
      if n == Swaps {
        out := SwapsHandler(tick.draws, tick.scripts);
      } else if TwoPhase(n) {
        var ran;
        out, ran := TwoPhaseHandler(n, ScriptAt(tick.scripts, 0), ScriptAt(tick.scripts, 1));
      } else {
        out := SingleShotHandler(n, ScriptAt(tick.scripts, 0));
      }
    }

    /**
     * One pass of `run_modules`: pick an entry, run its handler and drop as
     * many entries of that module as it reports done; an unsupported name
     * loses all its entries. `None` means the pass completed.
     */
    method RunOnce(tick: Tick) returns (stop: Option<LoopOutcome>)
      requires Valid() && |entries| > 0
      modifies this`entries, this`progress, this`madeFirstTransaction
      ensures (stop, Sched(entries, progress)) == Pass(Sched(old(entries), old(progress)), quantities, tick, skipIfFailed, maxRetries)
      ensures var n := Pick(tick.pick, old(entries));
              stop == Some(Stuck) <==>
                Supported(n) && HandlerHangs(n, old(progress[n]), quantities[n].maxQuantity, tick.draws, tick.scripts, maxRetries)
      ensures progress.Keys == old(progress.Keys)
      ensures stop == None || stop == Some(Aborted) || stop == Some(Stuck)
      ensures stop.Some? ==> entries == old(entries)
      ensures stop != Some(Stuck) ==> Valid()
      ensures skipIfFailed && old(RemainderOk()) ==>
                stop != Some(Aborted) && (stop == None ==> RemainderOk() && |entries| < |old(entries)|)
    {
      PassFacts(Sched(entries, progress), quantities, tick, skipIfFailed, maxRetries);
      var n := Pick(tick.pick, entries);
      CountMembership(entries, n);
      if !Supported(n) {
        DropUnsupported(n);
        return None;
      }
      stop := PerformPick(n, tick);
    }

    /** A picked name without a handler: every entry of it is dropped, nothing else changes. */
    method DropUnsupported(n: ModuleName)
      requires Valid() && !Supported(n) && n in entries
      modifies this`entries
      ensures entries == Remove(old(entries), n, 1, true)
      ensures Valid() && |entries| < |old(entries)|
      ensures skipIfFailed && old(RemainderOk()) ==> RemainderOk()
    {
      CountMembership(entries, n);
      UnsupportedKeepsValid(entries, progress, quantities, n);
      if skipIfFailed && RemainderOk() {
        OtherStepKeepsRemainder(entries, progress, quantities, skipIfFailed, n, progress[n], 1, true);
      }
      RemoveLength(entries, n, 1, true);
      RemoveModuleEntries(n, 1, true);
    }

    /** A picked name with a handler: dispatch it, then drop as many entries as it reports done. */
    method PerformPick(n: ModuleName, tick: Tick) returns (stop: Option<LoopOutcome>)
      requires Valid() && Supported(n) && n in entries
      modifies this`entries, this`progress, this`madeFirstTransaction
      ensures n in old(progress) && n in quantities
      ensures var (out, p') := HandlerRun(n, old(progress[n]), quantities[n].maxQuantity, tick.draws, tick.scripts, skipIfFailed, maxRetries);
              progress == old(progress)[n := p']
              && (stop == Some(Stuck) <==> out.Hung?)
              && (stop == Some(Aborted) <==> out.Escaped?)
              && (stop == None <==> out.Performed?)
              && (out.Performed? ==> entries == Remove(old(entries), n, out.count, false))
      ensures progress.Keys == old(progress.Keys)
      ensures stop == None || stop == Some(Aborted) || stop == Some(Stuck)
      ensures stop.Some? ==> entries == old(entries)
      ensures stop != Some(Stuck) ==> Valid()
      ensures skipIfFailed && old(RemainderOk()) ==>
                stop != Some(Aborted) && (stop == None ==> RemainderOk() && |entries| < |old(entries)|)
    {
      CountMembership(entries, n);
      ghost var entries0, progress0 := entries, progress;
      if skipIfFailed && RemainderOk() && n == Swaps {
        SwapsNoEscape(entries, progress, quantities, skipIfFailed, tick.draws, tick.scripts, maxRetries);
      }
      var out := Dispatch(n, tick);
      match out {
        case Hung =>
          return Some(Stuck);
        case Escaped =>
          assert n == Swaps && progress[n] == progress0[n];
          assert progress == progress0;
          return Some(Aborted);
        case Performed(k) =>
          PerformedKeepsValid(entries0, progress0, quantities, skipIfFailed, n, progress[n], k, tick.draws, tick.scripts, maxRetries);
          RemoveModuleEntries(n, k, false);
          return None;
      }
    }

    /**
     * `run_modules`: passes until the queue is empty, as `Loop` defines them.
     * The invariant holds unless a call hangs; a drained queue means every
     * supported module reached its total; under skip-if-failed (with at least
     * two swaps in hand) the loop never aborts and drains within as many
     * passes as there were entries unless a call hangs (`StuckOnlyOnHang`).
     */
    method RunModules(ticks: seq<Tick>) returns (outcome: LoopOutcome, used: nat)
      requires Valid()
      modifies this`entries, this`progress, this`madeFirstTransaction
      ensures LoopRun(outcome, used, Sched(entries, progress))
              == Loop(Sched(old(entries), old(progress)), quantities, ticks, skipIfFailed, maxRetries)
      ensures used <= |ticks|
      ensures progress.Keys == old(progress.Keys)
      ensures !outcome.Stuck? ==> Valid()
      ensures outcome.Drained? <==> !outcome.Stuck? && entries == []
      ensures outcome.OutOfTicks? ==> used == |ticks|
      ensures outcome.Drained? ==>
                forall n :: n in progress && Supported(n) ==>
                  progress[n].performedQuantity >= Max0(progress[n].totalQuantity)
                  && (n != Swaps ==> progress[n].performedQuantity == Max0(progress[n].totalQuantity))
                  && (TwoPhase(n) ==> progress[n].secondPhaseDone != Some(false))
      ensures skipIfFailed && old(RemainderOk()) ==>
                !outcome.Aborted? && (!outcome.Stuck? ==> used + |entries| <= |old(entries)|)
      ensures skipIfFailed && old(RemainderOk()) && |ticks| >= |old(entries)| ==> outcome.Drained? || outcome.Stuck?
    {
      outcome, used := RunPasses(ticks);
      if outcome.Drained? {
        forall n | n in progress && Supported(n)
          ensures progress[n].performedQuantity >= Max0(progress[n].totalQuantity)
          ensures n != Swaps ==> progress[n].performedQuantity == Max0(progress[n].totalQuantity)
          ensures TwoPhase(n) ==> progress[n].secondPhaseDone != Some(false)
        {
          DrainedMeansDone(progress, quantities, n);
        }
      }
    }

    /** The `while` loop of `run_modules`, one tick per pass. */
    method RunPasses(ticks: seq<Tick>) returns (outcome: LoopOutcome, used: nat)
      requires Valid()
      modifies this`entries, this`progress, this`madeFirstTransaction
      ensures LoopRun(outcome, used, Sched(entries, progress))
              == Loop(Sched(old(entries), old(progress)), quantities, ticks, skipIfFailed, maxRetries)
    {
      used := 0;
      var stop: Option<LoopOutcome> := None;
      ghost var start := Sched(entries, progress);
      while |entries| > 0 && stop.None? && used < |ticks|
        invariant used <= |ticks|
        invariant stop.None? ==>
                    Valid() && Loop(start, quantities, ticks, skipIfFailed, maxRetries)
                               == Later(Loop(Sched(entries, progress), quantities, ticks[used..], skipIfFailed, maxRetries), used)
        invariant stop.Some? ==> Loop(start, quantities, ticks, skipIfFailed, maxRetries) == LoopRun(stop.value, used, Sched(entries, progress))
        decreases |ticks| - used
      {
        assert ticks[used..][0] == ticks[used] && ticks[used..][1..] == ticks[used + 1..];
        stop := RunOnce(ticks[used]);
        used := used + 1;
      }
      if stop.Some? {
        outcome := stop.value;
      } else if |entries| == 0 {
        outcome := Drained;
      } else {
        assert ticks[used..] == [];
        outcome := OutOfTicks;
      }
    }

    /** The enabled stages before `run_modules`. */
    function Prelude(): (r: seq<Stage>)
      reads this`bridgeIn
      requires bridgeIn.Some?
      ensures forall s :: s in r ==> !AfterModules(s) && !s.Modules?
    {
      (if flags.okxWithdrawEnabled then [Stage.OkxWithdraw] else [])
      + (if flags.bridgeInEnabled then [Stage.BridgeIn(bridgeIn.value)] else [])
    }

    /** The enabled stages after `run_modules`. */
    function Epilogue(): (r: seq<Stage>)
      reads this`bridgeOut
      requires bridgeOut.Some?
      ensures forall s :: s in r ==> AfterModules(s) && !s.Modules?
    {
      (if flags.swapAllTokensToEthBeforeWithdraw then [SwapAllToEth] else [])
      + (if flags.bridgeOutEnabled then [Stage.BridgeOut(bridgeOut.value)] else [])
      + (if flags.okxDepositEnabled then [Stage.OkxDeposit] else [])
    }

    /** The stages `run` goes through when none fails: the enabled ones, in order. */
    function PlannedStages(): (r: seq<Stage>)
      reads this`bridgeIn, this`bridgeOut
      requires bridgeIn.Some? && bridgeOut.Some?
      ensures |r| > |Prelude()| && r[|Prelude()|] == Modules
    {
      Prelude() + ([Modules] + Epilogue())
    }

    /**
     * How `swap_all_tokens_to_eth` ends: a failed selection raises; with a
     * token to consolidate, a swap that never returns hangs the stage; any
     * other case (nothing to do, or the swap returned) is success.
     */
    function ConsolidationResult(balances: SwapSelection.Snapshot, pick: nat, script: Script): StageResult
    {
      var plan := SwapSelection.PlanConsolidation(balances, balances, swapServices, floors, pick);
      if plan.Failure? then StageRaised
      else if plan.value.Some? && Outcome(script, maxRetries).Looping? then StageHung
      else StageOk
    }

    /** How the bridge out ends: success without a call when nothing is above the amount to leave. */
    function BridgeOutResult(balance: real, leave: real, script: Script): StageResult
    {
      if AmountToBridgeOut(balance, leave).None? then StageOk else ExecStage(Outcome(script, maxRetries))
    }

    /** How each stage other than `run_modules` ends in `world`. */
    function StageResultIn(s: Stage, world: World): StageResult
      requires !s.Modules?
    {
      match s
      case OkxWithdraw => ExecStage(Outcome(world.okxWithdraw, maxRetries))
      case BridgeIn(_) => ExecStage(Outcome(world.bridgeIn, maxRetries))
      case SwapAllToEth => ConsolidationResult(world.balances, world.consolidationPick, world.consolidation)
      case BridgeOut(_) => BridgeOutResult(world.balance, world.leave, world.bridgeOut)
      case OkxDeposit => ExecStage(Outcome(world.okxDeposit, maxRetries))
    }

    /** `run` going through `stages` one after the other: an exception of one stage propagates and ends the run. */
    function RunStages(stages: seq<Stage>, world: World): StagesRun
      requires forall s :: s in stages ==> !s.Modules?
      decreases |stages|
    {
      if stages == [] then StagesRun(None, 0)
      else
        match StageResultIn(stages[0], world)
        case StageOk =>
          var r := RunStages(stages[1..], world);
          StagesRun(r.stop, r.started + 1)
        case StageRaised => StagesRun(Some(StageFailed(stages[0])), 1)
        case StageHung => StagesRun(Some(Unfinished), 1)
    }

    /**
     * The run goes through all the stages exactly when every one finishes;
     * otherwise it stops at the first that does not, failing there when that
     * stage raised and ending unfinished when it hung.
     */
    lemma {:induction false} RunStagesFacts(stages: seq<Stage>, world: World)
      requires forall s :: s in stages ==> !s.Modules?
      ensures var r := RunStages(stages, world);
              r.started <= |stages|
              && (r.stop.None? <==> forall i :: 0 <= i < |stages| ==> StageResultIn(stages[i], world).StageOk?)
              && (r.stop.None? ==> r.started == |stages|)
              && (r.stop.Some? ==>
                    0 < r.started
                    && (forall i :: 0 <= i < r.started - 1 ==> StageResultIn(stages[i], world).StageOk?)
                    && var res := StageResultIn(stages[r.started - 1], world);
                       !res.StageOk?
                       && r.stop.value == if res.StageRaised? then StageFailed(stages[r.started - 1]) else Unfinished)
      decreases |stages|
    {
      if stages != [] && StageResultIn(stages[0], world).StageOk? {
        forall s | s in stages[1..] ensures !s.Modules? {
          assert s in stages;
        }
        RunStagesFacts(stages[1..], world);
        var tail := RunStages(stages[1..], world);
        forall i | 0 <= i < |stages[1..]| ensures stages[1..][i] == stages[i + 1] { }
      }
    }

    /** Stages that all finish in front of `rest` only add to the count of stages started. */
    lemma {:induction false} RunStagesAfter(done: seq<Stage>, rest: seq<Stage>, world: World)
      requires forall s :: s in done + rest ==> !s.Modules?
      requires forall i :: 0 <= i < |done| ==> StageResultIn(done[i], world).StageOk?
      ensures RunStages(done + rest, world) == StagesRun(RunStages(rest, world).stop, |done| + RunStages(rest, world).started)
      decreases |done|
    {
      if done != [] {
        assert (done + rest)[0] == done[0] && (done + rest)[1..] == done[1..] + rest;
        assert StageResultIn(done[0], world).StageOk?;
        forall s | s in done[1..] + rest ensures !s.Modules? {
          assert s in done + rest;
        }
        RunStagesAfter(done[1..], rest, world);
        var tail := RunStages(done[1..] + rest, world);
        assert RunStages(done + rest, world) == StagesRun(tail.stop, tail.started + 1);
      } else {
        assert done + rest == rest;
      }
    }

    /** With the stages before `k` all finished, the run is decided by stage `k` and what follows it. */
    lemma RunStagesAt(plan: seq<Stage>, k: nat, world: World)
      requires k <= |plan| && forall s :: s in plan ==> !s.Modules?
      requires forall i :: 0 <= i < k ==> StageResultIn(plan[i], world).StageOk?
      ensures k == |plan| ==> RunStages(plan, world) == StagesRun(None, k)
      ensures k < |plan| ==>
                RunStages(plan, world)
                == match StageResultIn(plan[k], world)
                   case StageOk =>
                     var tail := RunStages(plan[k + 1..], world);
                     StagesRun(tail.stop, k + 1 + tail.started)
                   case StageRaised => StagesRun(Some(StageFailed(plan[k])), k + 1)
                   case StageHung => StagesRun(Some(Unfinished), k + 1)
    {
      assert plan == plan[..k] + plan[k..];
      forall s | s in plan[..k] + plan[k..] ensures !s.Modules? { }
      RunStagesAfter(plan[..k], plan[k..], world);
      if k < |plan| {
        assert plan[k..][0] == plan[k] && plan[k..][1..] == plan[k + 1..];
      }
    }

    /** A stage that only calls the outside world through `execute_func_with_retries` and raises on `False`. */
    method ExecuteStage(script: Script) returns (r: StageResult)
      ensures r == ExecStage(Outcome(script, maxRetries))
    {
      var outcome, calls, sleeps := ExecuteWithRetries(script, maxRetries);
      r := ExecStage(outcome);
    }

    /**
     * The `*_bridge_out` methods: when the balance does not exceed the amount
     * to leave, skip without calling the bridge and report success; otherwise
     * bridge the difference and raise if that fails.
     */
    method BridgeOutStage(balance: real, leave: real, script: Script) returns (r: StageResult, amount: Option<real>)
      ensures amount == AmountToBridgeOut(balance, leave)
      ensures r == BridgeOutResult(balance, leave, script)
      ensures balance <= leave ==> r == StageOk
      ensures balance > leave ==> r == ExecStage(Outcome(script, maxRetries))
    {
      amount := AmountToBridgeOut(balance, leave);
      if amount.None? {
        return StageOk, amount;
      }
      r := ExecuteStage(script);
    }

    /**
     * `swap_all_tokens_to_eth`: plan the swap of the first token above its
     * floor and run it; a failed selection raises, a failed swap does not.
     */
    method SwapAllTokensToEth(balances: SwapSelection.Snapshot, pick: nat, script: Script) returns (r: StageResult)
      ensures r == ConsolidationResult(balances, pick, script)
      ensures var plan := SwapSelection.PlanConsolidation(balances, balances, swapServices, floors, pick);
              (r.StageRaised? <==> plan.Failure?)
              && (plan.Success? && plan.value.None? ==> r == StageOk)
              && (plan.Success? && plan.value.Some? ==> (r.StageHung? <==> Outcome(script, maxRetries).Looping?))
    {
      var plan := SwapSelection.PlanConsolidation(balances, balances, swapServices, floors, pick);
      if plan.Failure? {
        return StageRaised;
      }
      if plan.value.None? {
        return StageOk;
      }
      var outcome, calls, sleeps := ExecuteWithRetries(script, maxRetries);
      r := if outcome.Looping? then StageHung else StageOk;
    }

    /** The OKX withdrawal and the bridge in, each ending the run when it raises or hangs. */
    method RunPrelude(world: World) returns (stop: Option<RunOutcome>, stages: seq<Stage>)
      requires bridgeIn.Some?
      ensures RunStages(Prelude(), world) == StagesRun(stop, |stages|)
      ensures IsPrefix(stages, Prelude())
      ensures stop.None? ==> stages == Prelude()
      ensures stop.Some? ==> |stages| > 0 && (stop.value.Unfinished? || stop.value == StageFailed(stages[|stages| - 1]))
      ensures stop.Some? ==> stop.value != StageFailed(Modules)
    {
      ghost var plan := Prelude();
      stages := [];
      if flags.okxWithdrawEnabled {
        assert plan[0] == Stage.OkxWithdraw;
        stages := [Stage.OkxWithdraw];
        var r := ExecuteStage(world.okxWithdraw);
        RunStagesAt(plan, 0, world);
        if r != StageOk {
          return Some(if r.StageHung? then Unfinished else StageFailed(Stage.OkxWithdraw)), stages;
        }
      }
      if flags.bridgeInEnabled {
        var k := |stages|;
        assert plan[k] == Stage.BridgeIn(bridgeIn.value);
        stages := stages + [Stage.BridgeIn(bridgeIn.value)];
        var r := ExecuteStage(world.bridgeIn);
        RunStagesAt(plan, k, world);
        if r != StageOk {
          return Some(if r.StageHung? then Unfinished else StageFailed(Stage.BridgeIn(bridgeIn.value))), stages;
        }
      }
      assert stages == plan;
      RunStagesAt(plan, |plan|, world);
      stop := None;
    }

    /** The consolidation, the bridge out and the OKX deposit, each ending the run when it raises or hangs. */
    method RunEpilogue(world: World) returns (stop: Option<RunOutcome>, stages: seq<Stage>)
      requires bridgeOut.Some?
      ensures RunStages(Epilogue(), world) == StagesRun(stop, |stages|)
      ensures IsPrefix(stages, Epilogue())
      ensures stop.None? ==> stages == Epilogue()
      ensures stop.Some? ==> |stages| > 0 && (stop.value.Unfinished? || stop.value == StageFailed(stages[|stages| - 1]))
      ensures stop.Some? ==> stop.value != StageFailed(Modules)
    {
      ghost var plan := Epilogue();
      stages := [];
      if flags.swapAllTokensToEthBeforeWithdraw {
        assert plan[0] == SwapAllToEth;
        stages := [SwapAllToEth];
        var r := SwapAllTokensToEth(world.balances, world.consolidationPick, world.consolidation);
        RunStagesAt(plan, 0, world);
        if r != StageOk {
          return Some(if r.StageHung? then Unfinished else StageFailed(SwapAllToEth)), stages;
        }
      }
      if flags.bridgeOutEnabled {
        var k := |stages|;
        assert plan[k] == Stage.BridgeOut(bridgeOut.value);
        stages := stages + [Stage.BridgeOut(bridgeOut.value)];
        var r, _ := BridgeOutStage(world.balance, world.leave, world.bridgeOut);
        RunStagesAt(plan, k, world);
        if r != StageOk {
          return Some(if r.StageHung? then Unfinished else StageFailed(Stage.BridgeOut(bridgeOut.value))), stages;
        }
      }
      if flags.okxDepositEnabled {
        var k := |stages|;
        assert plan[k] == Stage.OkxDeposit;
        stages := stages + [Stage.OkxDeposit];
        var r := ExecuteStage(world.okxDeposit);
        RunStagesAt(plan, k, world);
        if r != StageOk {
          return Some(if r.StageHung? then Unfinished else StageFailed(Stage.OkxDeposit)), stages;
        }
      }
      assert stages == plan;
      RunStagesAt(plan, |plan|, world);
      stop := None;
    }

    /** `run_modules` as a stage of `run`: it raises only when `choose_number_of_swaps` does. */
    method RunModulesStage(ticks: seq<Tick>) returns (stop: Option<RunOutcome>)
      requires Valid()
      modifies this`entries, this`progress, this`madeFirstTransaction
      ensures var loop := Loop(Sched(old(entries), old(progress)), quantities, ticks, skipIfFailed, maxRetries);
              Sched(entries, progress) == loop.state
              && (stop.None? <==> loop.outcome.Drained?)
              && (stop == Some(StageFailed(Modules)) <==> loop.outcome.Aborted?)
              && (stop == Some(Unfinished) <==> loop.outcome.Stuck? || loop.outcome.OutOfTicks?)
      ensures stop.None? ==> entries == []
      ensures stop.Some? ==> stop.value == Unfinished || stop.value == StageFailed(Modules)
      ensures skipIfFailed && old(RemainderOk()) ==> stop != Some(StageFailed(Modules))
    {
      var loop, used := RunModules(ticks);
      if loop.Aborted? {
        return Some(StageFailed(Modules));
      }
      stop := if loop.Drained? then None else Some(Unfinished);
    }

    /**
     * `run`: the enabled stages in order, each raising stage ending the run.
     * The stages started are a prefix of the planned ones; the run completes
     * only when all of them ran; nothing after `run_modules` starts unless the
     * queue is empty; and under skip-if-failed with two swaps in hand the
     * scheduling stage never fails.
     */
    method Run(world: World) returns (outcome: RunOutcome, stages: seq<Stage>)
      requires Valid() && bridgeIn.Some? && bridgeOut.Some?
      modifies this`entries, this`progress, this`madeFirstTransaction
      ensures var pre := RunStages(Prelude(), world);
              var loop := Loop(Sched(old(entries), old(progress)), quantities, world.ticks, skipIfFailed, maxRetries);
              var post := RunStages(Epilogue(), world);
              (pre.stop.Some? ==> outcome == pre.stop.value && |stages| == pre.started)
              && (pre.stop.None? && !loop.outcome.Drained? ==>
                    outcome == (if loop.outcome.Aborted? then StageFailed(Modules) else Unfinished)
                    && |stages| == |Prelude()| + 1)
              && (pre.stop.None? && loop.outcome.Drained? ==>
                    outcome == (if post.stop.None? then Completed else post.stop.value)
                    && |stages| == |Prelude()| + 1 + post.started)
              && (outcome.Completed? <==> pre.stop.None? && loop.outcome.Drained? && post.stop.None?)
      ensures IsPrefix(stages, PlannedStages())
      ensures outcome.Completed? ==> stages == PlannedStages()
      ensures outcome.StageFailed? ==> |stages| > 0 && stages[|stages| - 1] == outcome.stage
      ensures |stages| > |Prelude()| + 1 ==> entries == []
      ensures skipIfFailed && old(RemainderOk()) ==> outcome != StageFailed(Modules)
    {
      var stop, pre := RunPrelude(world);
      if stop.Some? {
        PrefixExtends(pre, Prelude(), [Modules] + Epilogue());
        return stop.value, pre;
      }
      StagesCompose(pre, Modules, [], Prelude(), Epilogue());
      stages := pre + [Modules] + [];
      stop := RunModulesStage(world.ticks);
      if stop.Some? {
        return stop.value, stages;
      }
      var post;
      stop, post := RunEpilogue(world);
      StagesCompose(pre, Modules, post, Prelude(), Epilogue());
      stages := pre + [Modules] + post;
      outcome := if stop.Some? then stop.value else Completed;
    }
  }

  /** `a` is an initial segment of `b`. */
  predicate IsPrefix<T(==)>(a: seq<T>, b: seq<T>)
  {
    |a| <= |b| && a == b[..|a|]
  }

  /** A prefix stays a prefix when more is planned after it. */
  lemma PrefixExtends<T>(a: seq<T>, b: seq<T>, c: seq<T>)
    requires IsPrefix(a, b)
    ensures IsPrefix(a, b + c)
  {
    assert (b + c)[..|a|] == b[..|a|];
  }

  /**
   * The stages started once the head `pre` ran in full and the middle stage
   * `mid` finished, followed by a prefix `post` of the rest of the plan.
   */
  lemma StagesCompose<T>(pre: seq<T>, mid: T, post: seq<T>, head: seq<T>, rest: seq<T>)
    requires pre == head && IsPrefix(post, rest)
    ensures IsPrefix(pre + [mid] + post, head + ([mid] + rest))
    ensures |pre + [mid] + post| == |head| + 1 + |post|
    ensures post == rest ==> pre + [mid] + post == head + ([mid] + rest)
    ensures (pre + [mid] + post)[|pre + [mid] + post| - 1] == if post == [] then mid else post[|post| - 1]
  {
    assert (head + ([mid] + rest))[..|pre + [mid] + post|] == pre + [mid] + rest[..|post|];
  }

  /**
   * A two-phase module configured with quantity range [1, 1] queues exactly
   * two entries, both for that module, with fresh counters.
   */
  method ConfigureTwoPhase() returns (a: Automatic)
    ensures fresh(a) && a.maxRetries == 3 && !a.skipIfFailed
    ensures Aave in a.progress && a.progress[Aave].performedQuantity == 0 && a.progress[Aave].secondPhaseDone.None?
    ensures |a.entries| == 2 && forall e :: e in a.entries ==> e == Aave
  {
    a := new Automatic(map[Aave := QuantityRange(1, 1)], false, false, 3,
                       RunFlags(false, false, false, false, false), [Skydrome], map[]);
    var r := a.Configure("native", "native", [Aave], [0]);
    assert RangesOk([Aave], a.quantities, 1);
    assert r.Success?;
    assert Distinct([Aave]);
    assert Aave in [Aave];
    assert TotalFits(Aave, a.progress[Aave].totalQuantity, QuantityRange(1, 1));
    SingleModuleQueue(a.entries, Aave);
  }

  /** A queue holding only entries of `n`, `k` of them, has length `k`. */
  lemma SingleModuleQueue(es: seq<ModuleName>, n: ModuleName)
    requires forall e :: e in es ==> e in [n]
    ensures forall e :: e in es ==> e == n
    ensures |es| == Count(es, n)
  {
    CountAllLemma(es, n);
  }

  /**
   * A pass over that queue whose deposit and withdraw both succeed counts
   * both invocations and empties the queue.
   */
  method TwoPhaseScenario() returns (queued: nat, performed: nat, left: nat)
    ensures queued == 2 && performed == 2 && left == 0
  {
    var a := ConfigureTwoPhase();
    queued := |a.entries|;
    var ok: Script := [Returned(true)];
    assert Execute(ok, 0, 3) == Run(Done, 1, 0);
    var out, ran := a.TwoPhaseHandler(Aave, ok, ok);
    assert out == Performed(2);
    ghost var before := a.entries;
    CountAllLemma(before, Aave);
    a.RemoveModuleEntries(Aave, 2, false);
    RemoveLength(before, Aave, 2, false);
    performed := a.progress[Aave].performedQuantity;
    left := |a.entries|;
  }

  /** When every entry carries name `n`, the queue has as many entries as `n` counts. */
  lemma {:induction false} CountAllLemma(s: seq<ModuleName>, n: ModuleName)
    requires forall e :: e in s ==> e == n
    ensures Count(s, n) == |s|
    decreases |s|
  {
    if s != [] {
      assert s[0] in s;
      assert forall e :: e in s[1..] ==> e in s;
      CountAllLemma(s[1..], n);
    }
  }
}
