/**
 * The swap-selection rules of the scheduler: pure decisions over a balance
 * snapshot and the venue graph (`choose_src_token`, `choose_dst_token`,
 * `choose_swap_module`, `get_swappable_tokens`, `get_amount`) and the token
 * choice of the consolidation pass `swap_all_tokens_to_eth`.
 */
module SwapSelection {
  import opened Wrappers
  import opened Venues
  import opened Choice

  /** One value of `get_balances`: raw amount, decimal-scaled amount, on-chain symbol and decimals. */
  datatype TokenBalance = TokenBalance(balanceWei: nat, balance: real, symbol: string, decimal: nat)

  /** The dict returned by `get_balances`, in insertion order: token key to its balance. */
  type Snapshot = seq<(string, TokenBalance)>

  /** The errors a selection raises: a missing dict key, `random.choice` of an empty list, too little ETH. */
  datatype SelectionError = MissingKey(key: string) | EmptyChoice | NotEnoughEth

  /** The swap settings of the automation config. */
  datatype SwapSettings = SwapSettings(
    services: seq<Venue>,                 // "services": the enabled venues
    firstSwapFromEth: bool,               // "first_swap_from_eth"
    amountRange: Option<(real, real)>)    // "min_amount"/"max_amount" when both are present

  /** `get_amount`'s result: an exact ETH amount, or the whole token balance. */
  datatype Amount = All | Exact(value: real)

  function Lookup(b: Snapshot, key: string): (r: Option<TokenBalance>)
    ensures r.Some? ==> (key, r.value) in b
    ensures r.None? ==> forall i :: 0 <= i < |b| ==> b[i].0 != key
  {
    if b == [] then None
    else if b[0].0 == key then Some(b[0].1)
    else Lookup(b[1..], key)
  }

  /** The values of the snapshot once the "ETH" key is popped, in order. */
  function OtherTokens(b: Snapshot): (r: seq<TokenBalance>)
    ensures forall t :: t in r <==> exists i :: 0 <= i < |b| && b[i].0 != "ETH" && b[i].1 == t
  {
    if b == [] then []
    else if b[0].0 == "ETH" then
      var rest := OtherTokens(b[1..]);
      assert forall i :: 1 <= i < |b| ==> b[i] == b[1..][i - 1];
      rest
    else
      var rest := OtherTokens(b[1..]);
      assert forall i :: 1 <= i < |b| ==> b[i] == b[1..][i - 1];
      [b[0].1] + rest
  }

  function UpperChar(c: char): char
  {
    if 'a' <= c <= 'z' then (c as int - 32) as char else c
  }

  function LowerChar(c: char): char
  {
    if 'A' <= c <= 'Z' then (c as int + 32) as char else c
  }

  /** `str.upper()` on ASCII letters. */
  function Upper(s: string): string
  {
    seq(|s|, i requires 0 <= i < |s| => UpperChar(s[i]))
  }

  /** `str.lower()` on ASCII letters. */
  function Lower(s: string): string
  {
    seq(|s|, i requires 0 <= i < |s| => LowerChar(s[i]))
  }

  /** The config key of a token's floor: `f"min_balance_{symbol.lower()}"`. */
  function FloorKey(symbol: string): string
  {
    "min_balance_" + Lower(symbol)
  }

  /** The token with its symbol upper-cased, as the selection rules store it back. */
  function WithUpperSymbol(t: TokenBalance): TokenBalance
  {
    t.(symbol := Upper(t.symbol))
  }

  /** `choose_src_token`'s test: the balance reaches the token's floor. */
  predicate AtFloor(t: TokenBalance, floors: map<string, real>)
  {
    FloorKey(t.symbol) in floors && t.balance >= floors[FloorKey(t.symbol)]
  }

  // ---------------------------------------------------------------------
  // Ranking: sorted(..., key=balance_wei, reverse=True)
  // ---------------------------------------------------------------------

  /** Insert `t` after every token with more wei and before the others. */
  function Insert(t: TokenBalance, r: seq<TokenBalance>): seq<TokenBalance>
  {
    if r == [] || r[0].balanceWei <= t.balanceWei then [t] + r
    else [r[0]] + Insert(t, r[1..])
  }

  /** The tokens ranked by raw balance, largest first; ties keep their order. */
  function RankByWei(s: seq<TokenBalance>): seq<TokenBalance>
  {
    if s == [] then [] else Insert(s[0], RankByWei(s[1..]))
  }

  predicate Descending(r: seq<TokenBalance>)
  {
    forall i, j :: 0 <= i < j < |r| ==> r[i].balanceWei >= r[j].balanceWei
  }

  lemma {:induction false} InsertPermutes(t: TokenBalance, r: seq<TokenBalance>)
    ensures multiset(Insert(t, r)) == multiset(r) + multiset{t}
    decreases |r|
  {
    if r != [] && r[0].balanceWei > t.balanceWei {
      InsertPermutes(t, r[1..]);
      assert r == [r[0]] + r[1..];
    }
  }

  /** Every token the insertion puts after `x` has at most as much wei as `x`, when `x` heads a ranked list and outranks `t`. */
  lemma InsertBelow(t: TokenBalance, x: TokenBalance, tail: seq<TokenBalance>)
    requires Descending([x] + tail) && x.balanceWei > t.balanceWei
    ensures forall k :: 0 <= k < |Insert(t, tail)| ==> x.balanceWei >= Insert(t, tail)[k].balanceWei
  {
    var rest := Insert(t, tail);
    InsertPermutes(t, tail);
    forall k | 0 <= k < |rest| ensures x.balanceWei >= rest[k].balanceWei {
      assert rest[k] in multiset(rest);
      assert rest[k] in multiset(tail) + multiset{t};
      if rest[k] != t {
        var j :| 0 <= j < |tail| && tail[j] == rest[k];
        assert ([x] + tail)[0] == x && ([x] + tail)[j + 1] == tail[j];
      }
    }
  }

  lemma {:induction false} InsertKeepsOrder(t: TokenBalance, r: seq<TokenBalance>)
    requires Descending(r)
    ensures Descending(Insert(t, r))
    decreases |r|
  {
    if r != [] && r[0].balanceWei > t.balanceWei {
      var tail := r[1..];
      assert r == [r[0]] + tail;
      assert Descending(tail) by {
        forall i, j | 0 <= i < j < |tail| ensures tail[i].balanceWei >= tail[j].balanceWei {
          assert tail[i] == r[i + 1] && tail[j] == r[j + 1];
        }
      }
      InsertKeepsOrder(t, tail);
      InsertBelow(t, r[0], tail);
      DescendingCons(r[0], Insert(t, tail));
    } else {
      forall k | 0 <= k < |r| ensures t.balanceWei >= r[k].balanceWei {
        if k > 0 {
          assert r[0].balanceWei >= r[k].balanceWei;
        }
      }
      DescendingCons(t, r);
    }
  }

  lemma DescendingCons(x: TokenBalance, rest: seq<TokenBalance>)
    requires Descending(rest)
    requires forall k :: 0 <= k < |rest| ==> x.balanceWei >= rest[k].balanceWei
    ensures Descending([x] + rest)
  {
    forall i, j | 0 <= i < j < |[x] + rest| ensures ([x] + rest)[i].balanceWei >= ([x] + rest)[j].balanceWei {
      if i > 0 {
        assert ([x] + rest)[i] == rest[i - 1];
      }
      assert ([x] + rest)[j] == rest[j - 1];
    }
  }

  /** The ranking is sorted largest first and is a permutation of its input. */
  lemma {:induction false} RankIsSortedPermutation(s: seq<TokenBalance>)
    ensures Descending(RankByWei(s)) && multiset(RankByWei(s)) == multiset(s)
    decreases |s|
  {
    if s != [] {
      RankIsSortedPermutation(s[1..]);
      InsertKeepsOrder(s[0], RankByWei(s[1..]));
      InsertPermutes(s[0], RankByWei(s[1..]));
      assert s == [s[0]] + s[1..];
    }
  }

  /** The first token of the ranking at or above its floor; a missing floor is a `KeyError`. */
  function FirstAtFloor(ranked: seq<TokenBalance>, floors: map<string, real>): Result<Option<TokenBalance>, SelectionError>
  {
    if ranked == [] then Success(None)
    else if FloorKey(ranked[0].symbol) !in floors then Failure(MissingKey(FloorKey(ranked[0].symbol)))
    else if AtFloor(ranked[0], floors) then Success(Some(ranked[0]))
    else FirstAtFloor(ranked[1..], floors)
  }

  lemma {:induction false} FirstAtFloorIsLargest(ranked: seq<TokenBalance>, floors: map<string, real>)
    requires Descending(ranked)
    requires forall t :: t in ranked ==> FloorKey(t.symbol) in floors
    ensures var r := FirstAtFloor(ranked, floors);
            r.Success?
            && (r.value.None? ==> forall t :: t in ranked ==> !AtFloor(t, floors))
            && (r.value.Some? ==>
                  r.value.value in ranked && AtFloor(r.value.value, floors)
                  && forall t :: t in ranked && AtFloor(t, floors) ==> t.balanceWei <= r.value.value.balanceWei)
    decreases |ranked|
  {
    if ranked != [] && !AtFloor(ranked[0], floors) {
      FirstAtFloorIsLargest(ranked[1..], floors);
      assert ranked == [ranked[0]] + ranked[1..];
    }
  }

  /** `choose_src_token`: where the next swap starts from. */
  function ChooseSrcToken(balances: Snapshot, settings: SwapSettings, performed: int, floors: map<string, real>)
    : Result<TokenBalance, SelectionError>
  {
    match Lookup(balances, "ETH")
    case None => Failure(MissingKey("ETH"))
    case Some(eth) =>
      if settings.firstSwapFromEth && performed == 0 then Success(eth)
      else match FirstAtFloor(RankByWei(OtherTokens(balances)), floors)
        case Failure(e) => Failure(e)
        case Success(None) => Success(WithUpperSymbol(eth))
        case Success(Some(t)) => Success(WithUpperSymbol(t))
  }

  /**
   * The source is ETH on the first swap when so configured; otherwise it is the
   * non-ETH token with the largest raw balance among those at or above their
   * floor, and ETH when there is none.
   */
  lemma ChooseSrcTokenRule(balances: Snapshot, settings: SwapSettings, performed: int, floors: map<string, real>)
    requires Lookup(balances, "ETH").Some?
    requires forall t :: t in OtherTokens(balances) ==> FloorKey(t.symbol) in floors
    ensures var r := ChooseSrcToken(balances, settings, performed, floors);
            var eth := Lookup(balances, "ETH").value;
            var others := OtherTokens(balances);
            r.Success?
            && (settings.firstSwapFromEth && performed == 0 ==> r.value == eth)
            && (!(settings.firstSwapFromEth && performed == 0) ==>
                  if exists t :: t in others && AtFloor(t, floors) then
                    exists x :: x in others && AtFloor(x, floors) && r.value == WithUpperSymbol(x)
                      && forall y :: y in others && AtFloor(y, floors) ==> y.balanceWei <= x.balanceWei
                  else r.value == WithUpperSymbol(eth))
  {
    var others := OtherTokens(balances);
    var ranked := RankByWei(others);
    RankMembers(others);
    FirstAtFloorIsLargest(ranked, floors);
    if !(settings.firstSwapFromEth && performed == 0) {
      match FirstAtFloor(ranked, floors)
      case Success(None) =>
        assert forall t :: t in others ==> !AtFloor(t, floors);
      case Success(Some(x)) =>
        assert x in others && AtFloor(x, floors);
    }
  }

  /** Ranking keeps exactly the tokens it was given. */
  lemma RankMembers(s: seq<TokenBalance>)
    ensures Descending(RankByWei(s))
    ensures forall t :: t in RankByWei(s) <==> t in s
  {
    RankIsSortedPermutation(s);
    forall t ensures t in RankByWei(s) <==> t in s {
      assert t in RankByWei(s) <==> t in multiset(RankByWei(s));
      assert t in s <==> t in multiset(s);
    }
  }

  // ---------------------------------------------------------------------
  // Destination and venue
  // ---------------------------------------------------------------------

  /** The destinations the enabled venues offer from `src`, venue by venue (`dst_tokens`). */
  function Destinations(services: seq<Venue>, src: string): (r: seq<string>)
    ensures forall d :: d in r <==> exists v :: v in services && HasEdge(v, src, d)
  {
    if services == [] then []
    else
      var v := services[0];
      var rest := Destinations(services[1..], src);
      assert forall w :: w in services <==> w == v || w in services[1..];
      if src in Tokens(v) then
        assert forall d :: d in Tokens(v)[src] + rest <==> d in Tokens(v)[src] || d in rest;
        assert forall d :: d in Tokens(v)[src] ==> HasEdge(v, src, d);
        Tokens(v)[src] + rest
      else rest
  }

  /** `choose_dst_token`; `pick` drives `random.choice`. */
  function ChooseDstToken(balances: Snapshot, src: TokenBalance, settings: SwapSettings,
                          performed: int, currentMax: int, pick: nat): Result<TokenBalance, SelectionError>
  {
    if performed == currentMax - 1 && src.symbol != "ETH" then
      match Lookup(balances, "ETH")
      case None => Failure(MissingKey("ETH"))
      case Some(eth) => Success(eth)
    else
      var dsts := Destinations(settings.services, src.symbol);
      if dsts == [] then Failure(EmptyChoice)
      else
        var token := Pick(pick, dsts);
        match Lookup(balances, token)
        case None => Failure(MissingKey(token))
        case Some(t) => Success(WithUpperSymbol(t))
  }

  /**
   * When the module's running counter is one below the current burst size and
   * the source is not ETH, the destination is the snapshot's ETH entry. The
   * counter is cumulative over all bursts, so this is the last swap of the
   * burst only for the first burst.
   */
  lemma LastSwapReturnsToEth(balances: Snapshot, src: TokenBalance, settings: SwapSettings,
                             performed: int, currentMax: int, pick: nat)
    requires performed == currentMax - 1 && src.symbol != "ETH"
    requires Lookup(balances, "ETH").Some?
    ensures ChooseDstToken(balances, src, settings, performed, currentMax, pick) == Success(Lookup(balances, "ETH").value)
  {
  }

  /**
   * Otherwise the destination is a token some enabled venue reaches from the
   * source, and every such token in the snapshot is chosen by some draw.
   */
  lemma DestinationIsReachable(balances: Snapshot, src: TokenBalance, settings: SwapSettings,
                               performed: int, currentMax: int, pick: nat)
    requires !(performed == currentMax - 1 && src.symbol != "ETH")
    ensures var r := ChooseDstToken(balances, src, settings, performed, currentMax, pick);
            r.Success? ==>
              exists d :: Lookup(balances, d).Some? && r.value == WithUpperSymbol(Lookup(balances, d).value)
                && exists v :: v in settings.services && HasEdge(v, src.symbol, d)
  {
    var dsts := Destinations(settings.services, src.symbol);
    if dsts != [] {
      var d := Pick(pick, dsts);
      assert d in dsts;
    }
  }

  lemma DestinationsOnto(balances: Snapshot, src: TokenBalance, settings: SwapSettings,
                         performed: int, currentMax: int, v: Venue, d: string) returns (pick: nat)
    requires !(performed == currentMax - 1 && src.symbol != "ETH")
    requires v in settings.services && HasEdge(v, src.symbol, d) && Lookup(balances, d).Some?
    ensures ChooseDstToken(balances, src, settings, performed, currentMax, pick)
            == Success(WithUpperSymbol(Lookup(balances, d).value))
  {
    var dsts := Destinations(settings.services, src.symbol);
    assert d in dsts;
    var k :| 0 <= k < |dsts| && dsts[k] == d;
    pick := PickOnto(dsts, k);
  }

  /** A non-ETH source can only be swapped into the snapshot's ETH entry. */
  lemma NonEthSourceSwapsToEth(balances: Snapshot, src: TokenBalance, settings: SwapSettings,
                               performed: int, currentMax: int, pick: nat)
    requires src.symbol != "ETH"
    ensures var r := ChooseDstToken(balances, src, settings, performed, currentMax, pick);
            r.Success? ==>
              Lookup(balances, "ETH").Some?
              && (r.value == Lookup(balances, "ETH").value || r.value == WithUpperSymbol(Lookup(balances, "ETH").value))
  {
    var dsts := Destinations(settings.services, src.symbol);
    if !(performed == currentMax - 1) && dsts != [] {
      var d := Pick(pick, dsts);
      assert d in dsts;
      var v :| v in settings.services && HasEdge(v, src.symbol, d);
      NonEthReachesOnlyEth(v, src.symbol);
    }
  }

  /** The enabled venues, in order, that have the edge `src` to `dst`. */
  function Eligible(services: seq<Venue>, src: string, dst: string): (r: seq<Venue>)
    ensures forall v :: v in r <==> v in services && HasEdge(v, src, dst)
  {
    if services == [] then []
    else
      var rest := Eligible(services[1..], src, dst);
      assert forall w :: w in services <==> w == services[0] || w in services[1..];
      if HasEdge(services[0], src, dst) then [services[0]] + rest else rest
  }

  /** `choose_swap_module`; `pick` drives `random.choice`. */
  function ChooseSwapModule(services: seq<Venue>, src: TokenBalance, dst: TokenBalance, pick: nat)
    : (r: Result<Venue, SelectionError>)
    ensures r.Success? <==> exists v :: v in services && HasEdge(v, Upper(src.symbol), Upper(dst.symbol))
    ensures r.Success? ==> r.value in services && HasEdge(r.value, Upper(src.symbol), Upper(dst.symbol))
  {
    var eligible := Eligible(services, Upper(src.symbol), Upper(dst.symbol));
    if eligible == [] then Failure(EmptyChoice) else Success(Pick(pick, eligible))
  }

  /** Every enabled venue with the edge is chosen by some draw. */
  lemma SwapModuleOnto(services: seq<Venue>, src: TokenBalance, dst: TokenBalance, v: Venue) returns (pick: nat)
    requires v in services && HasEdge(v, Upper(src.symbol), Upper(dst.symbol))
    ensures ChooseSwapModule(services, src, dst, pick) == Success(v)
  {
    var eligible := Eligible(services, Upper(src.symbol), Upper(dst.symbol));
    var k :| 0 <= k < |eligible| && eligible[k] == v;
    pick := PickOnto(eligible, k);
  }

  /** `get_swappable_tokens`: every source key of every enabled venue. */
  function SwappableTokens(services: seq<Venue>): (r: set<string>)
    ensures forall t :: t in r <==> exists v :: v in services && t in Tokens(v)
  {
    if services == [] then {}
    else
      assert forall w :: w in services <==> w == services[0] || w in services[1..];
      Tokens(services[0]).Keys + SwappableTokens(services[1..])
  }

  /** ETH is always swappable, and every destination the venues offer is itself swappable. */
  lemma SwappableCoversDestinations(services: seq<Venue>, src: string)
    requires services != []
    ensures "ETH" in SwappableTokens(services)
    ensures forall d :: d in Destinations(services, src) ==> d in SwappableTokens(services)
  {
    EthIsSource(services[0]);
    forall d | d in Destinations(services, src) ensures d in SwappableTokens(services) {
      var v :| v in services && HasEdge(v, src, d);
      DestinationsAreSources(v, src, d);
    }
  }

  // ---------------------------------------------------------------------
  // Amount
  // ---------------------------------------------------------------------

  predicate Between(x: real, a: real, b: real)
  {
    (a <= x <= b) || (b <= x <= a)
  }

  /** `get_amount`; `drawn` is what `random.uniform(min_amount, max_amount)` returned (rounding left out). */
  function GetAmount(src: TokenBalance, settings: SwapSettings, floors: map<string, real>, drawn: real)
    : (r: Result<Amount, SelectionError>)
    requires settings.amountRange.Some? ==> Between(drawn, settings.amountRange.value.0, settings.amountRange.value.1)
    ensures src.symbol != "ETH" ==> r == Success(All)
    ensures src.symbol == "ETH" && "min_balance_eth" in floors ==>
              (r.Failure? <==> src.balance <= floors["min_balance_eth"])
    ensures r.Success? && r.value.Exact? ==> src.symbol == "ETH" && "min_balance_eth" in floors
    ensures r.Success? && r.value.Exact? && "min_balance_eth" in floors ==>
              0.0 < src.balance - floors["min_balance_eth"]
              && r.value.value <= src.balance - floors["min_balance_eth"]
              && (settings.amountRange.None? ==> r.value.value == src.balance - floors["min_balance_eth"])
              && (settings.amountRange.Some? ==>
                    r.value.value <= drawn
                    && (r.value.value == drawn || r.value.value == src.balance - floors["min_balance_eth"]))
  {
    if src.symbol == "ETH" then
      if "min_balance_eth" !in floors then Failure(MissingKey("min_balance_eth"))
      else
        var spare := src.balance - floors["min_balance_eth"];
        if src.balance <= floors["min_balance_eth"] then Failure(NotEnoughEth)
        else if settings.amountRange.None? then Success(Exact(spare))
        else Success(Exact(if spare <= drawn then spare else drawn))
    else Success(All)
  }

  // ---------------------------------------------------------------------
  // Consolidation: swap_all_tokens_to_eth
  // ---------------------------------------------------------------------

  /** What the consolidation pass swaps: the source token, the ETH entry, the venue and the amount. */
  datatype SwapPlan = SwapPlan(src: TokenBalance, dst: TokenBalance, venue: Venue, amount: Amount)

  /** `swap_all_tokens_to_eth`'s test: a non-ETH token strictly above its floor. */
  predicate EligibleForConsolidation(t: TokenBalance, floors: map<string, real>)
  {
    t.symbol != "ETH" && FloorKey(t.symbol) in floors && t.balance > floors[FloorKey(t.symbol)]
  }

  /**
   * The loop over `balances.values()` (here `entries`, a suffix of `balances`):
   * skip ETH and tokens not above their floor, and plan a swap of the FIRST
   * other token into ETH. `get_amount` of a non-ETH token is "all".
   */
  function PlanConsolidation(entries: Snapshot, balances: Snapshot, services: seq<Venue>,
                             floors: map<string, real>, pick: nat): Result<Option<SwapPlan>, SelectionError>
  {
    if entries == [] then Success(None)
    else
      var t := entries[0].1;
      if t.symbol == "ETH" then PlanConsolidation(entries[1..], balances, services, floors, pick)
      else if FloorKey(t.symbol) !in floors then Failure(MissingKey(FloorKey(t.symbol)))
      else if !(t.balance > floors[FloorKey(t.symbol)]) then PlanConsolidation(entries[1..], balances, services, floors, pick)
      else match Lookup(balances, "ETH")
        case None => Failure(MissingKey("ETH"))
        case Some(eth) =>
          match ChooseSwapModule(services, t, eth, pick)
          case Failure(e) => Failure(e)
          case Success(v) => Success(Some(SwapPlan(t, eth, v, All)))
  }

  /**
   * The pass handles only the first eligible token in snapshot order: the plan
   * is for that token, into ETH, over an enabled venue with the edge, for the
   * whole balance; every token before it was ETH or not above its floor.
   */
  lemma {:induction false} ConsolidationTakesFirstEligible(entries: Snapshot, balances: Snapshot, services: seq<Venue>,
                                                           floors: map<string, real>, pick: nat)
    ensures var r := PlanConsolidation(entries, balances, services, floors, pick);
            (r.Success? && r.value.None? ==> forall i :: 0 <= i < |entries| ==> !EligibleForConsolidation(entries[i].1, floors))
            && (r.Success? && r.value.Some? ==>
                  exists k :: 0 <= k < |entries| && r.value.value.src == entries[k].1
                    && EligibleForConsolidation(entries[k].1, floors)
                    && (forall i :: 0 <= i < k ==> !EligibleForConsolidation(entries[i].1, floors))
                    && Lookup(balances, "ETH") == Some(r.value.value.dst)
                    && r.value.value.venue in services
                    && HasEdge(r.value.value.venue, Upper(entries[k].1.symbol), Upper(r.value.value.dst.symbol))
                    && r.value.value.amount == All)
    decreases |entries|
  {
    if entries != [] {
      var t := entries[0].1;
      if t.symbol == "ETH" || (FloorKey(t.symbol) in floors && !(t.balance > floors[FloorKey(t.symbol)])) {
        ConsolidationTakesFirstEligible(entries[1..], balances, services, floors, pick);
        var r := PlanConsolidation(entries[1..], balances, services, floors, pick);
        if r.Success? && r.value.Some? {
          var k :| 0 <= k < |entries[1..]| && r.value.value.src == entries[1..][k].1
                    && EligibleForConsolidation(entries[1..][k].1, floors)
                    && (forall i :: 0 <= i < k ==> !EligibleForConsolidation(entries[1..][i].1, floors))
                    && HasEdge(r.value.value.venue, Upper(entries[1..][k].1.symbol), Upper(r.value.value.dst.symbol));
          assert entries[k + 1] == entries[1..][k];
          forall i | 0 <= i < k + 1 ensures !EligibleForConsolidation(entries[i].1, floors) {
            if i > 0 { assert entries[i] == entries[1..][i - 1]; }
          }
        }
        if r.Success? && r.value.None? {
          forall i | 0 <= i < |entries| ensures !EligibleForConsolidation(entries[i].1, floors) {
            if i > 0 { assert entries[i] == entries[1..][i - 1]; }
          }
        }
      }
    }
  }

  /**
   * The floor test differs between the two rules: a token exactly at its floor
   * is a swap source for `choose_src_token` (>=) but is skipped by the
   * consolidation pass (>).
   */
  lemma FloorBoundaryDiffers()
    ensures var usdc := TokenBalance(100000, 0.1, "USDC", 6);
            var eth := TokenBalance(10000000000000000, 0.01, "ETH", 18);
            var balances := [("ETH", eth), ("USDC", usdc)];
            var floors := map["min_balance_usdc" := 0.1, "min_balance_eth" := 0.0025];
            ChooseSrcToken(balances, SwapSettings([Skydrome], false, None), 1, floors) == Success(usdc)
            && PlanConsolidation(balances, balances, [Skydrome], floors, 0) == Success(None)
  {
    var usdc := TokenBalance(100000, 0.1, "USDC", 6);
    var eth := TokenBalance(10000000000000000, 0.01, "ETH", 18);
    var balances := [("ETH", eth), ("USDC", usdc)];
    var floors := map["min_balance_usdc" := 0.1, "min_balance_eth" := 0.0025];
    assert Lower("USDC") == "usdc";
    assert FloorKey("USDC") == "min_balance_usdc";
    assert Upper("USDC") == "USDC";
    assert WithUpperSymbol(usdc) == usdc;
    assert Lookup(balances, "ETH") == Some(eth);
    assert balances[1..] == [("USDC", usdc)] && balances[1..][1..] == [];
    assert OtherTokens(balances[1..]) == [usdc];
    assert OtherTokens(balances) == [usdc];
    assert RankByWei([usdc]) == [usdc];
    assert FirstAtFloor([usdc], floors) == Success(Some(usdc));
    assert PlanConsolidation(balances[2..], balances, [Skydrome], floors, 0) == Success(None);
    assert PlanConsolidation(balances[1..], balances, [Skydrome], floors, 0) == Success(None);
  }

  /**
   * Balances ETH 0.01, USDC 50, USDT 0 with a 0.1 floor for the stablecoins:
   * the pass swaps all the USDC into ETH and never considers USDT.
   */
  lemma ConsolidationScenario()
    ensures var eth := TokenBalance(10000000000000000, 0.01, "ETH", 18);
            var usdc := TokenBalance(50000000, 50.0, "USDC", 6);
            var usdt := TokenBalance(0, 0.0, "USDT", 6);
            var balances := [("ETH", eth), ("USDT", usdt), ("USDC", usdc)];
            var floors := map["min_balance_eth" := 0.0025, "min_balance_usdc" := 0.1, "min_balance_usdt" := 0.1];
            PlanConsolidation(balances, balances, [Skydrome, XYSwap], floors, 0)
              == Success(Some(SwapPlan(usdc, eth, Skydrome, All)))
  {
    var eth := TokenBalance(10000000000000000, 0.01, "ETH", 18);
    var usdc := TokenBalance(50000000, 50.0, "USDC", 6);
    var usdt := TokenBalance(0, 0.0, "USDT", 6);
    var balances := [("ETH", eth), ("USDT", usdt), ("USDC", usdc)];
    var floors := map["min_balance_eth" := 0.0025, "min_balance_usdc" := 0.1, "min_balance_usdt" := 0.1];
    var services := [Skydrome, XYSwap];
    assert FloorKey("USDC") == "min_balance_usdc";
    assert FloorKey("USDT") == "min_balance_usdt";
    assert Upper("USDC") == "USDC";
    assert Upper("ETH") == "ETH";
    assert Eligible(services, "USDC", "ETH")[0] == Skydrome;
    assert ChooseSwapModule(services, usdc, eth, 0) == Success(Skydrome);
    assert Lookup(balances, "ETH") == Some(eth);
    assert balances[1..] == [("USDT", usdt), ("USDC", usdc)];
    assert balances[1..][1..] == [("USDC", usdc)];
    assert PlanConsolidation(balances[1..][1..], balances, services, floors, 0)
        == Success(Some(SwapPlan(usdc, eth, Skydrome, All)));
    assert PlanConsolidation(balances[1..], balances, services, floors, 0)
        == Success(Some(SwapPlan(usdc, eth, Skydrome, All)));
  }
}
