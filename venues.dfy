/**
 * The module registry of the automation: the `MODULES_NAMES` enumeration and
 * the static token-pair graph `SWAP_MODULES` of the four swap venues.
 */
module Venues {

  /** `MODULES_NAMES`: the configuration keys of every protocol module. */
  datatype ModulesName =
    | OkxDeposit | OkxWithdraw | BridgeInScroll | BridgeOutScroll | BridgeOrbiter
    | BridgeLayerswap | BridgeNitro | SwapSyncswap | SwapZebra | SwapXyswap
    | DepositAave | WithdrawAave | SwapSkydrome | DepositLayerbank | WithdrawLayerbank
    | WrapEth | UnwrapEth | MintNfts2me | MintL2pass | MintZkstars
    | MintNftOrigins | RubyscoreVote | MintBridgeL2telegraph | SendMessageL2telegraph | CreateGnosisSafe
    | MintZerius | CreateOmniseaCollection | DeployContract | SendMail | TxChecker

  /** The keys of `SWAP_MODULES`: the four swap venues. */
  datatype Venue = Skydrome | Zebra | SyncSwap | XYSwap

  /** The `MODULES_NAMES` member each venue is registered under. */
  function VenueName(v: Venue): (n: ModulesName)
    ensures n.SwapSkydrome? || n.SwapZebra? || n.SwapSyncswap? || n.SwapXyswap?
  {
    match v
    case Skydrome => SwapSkydrome
    case Zebra => SwapZebra
    case SyncSwap => SwapSyncswap
    case XYSwap => SwapXyswap
  }

  /** The graph Skydrome, Zebra and SyncSwap share: ETH against USDC and USDT. */
  const StableGraph: map<string, seq<string>> :=
    map["ETH" := ["USDC", "USDT"], "USDC" := ["ETH"], "USDT" := ["ETH"]]

  /** XYSwap's graph: ETH against USDC and WETH. */
  const XYSwapGraph: map<string, seq<string>> :=
    map["ETH" := ["USDC", "WETH"], "USDC" := ["ETH"], "WETH" := ["ETH"]]

  /** `SWAP_MODULES[v]["tokens"]`: source symbol to the reachable destination symbols. */
  function Tokens(v: Venue): map<string, seq<string>>
  {
    if v == XYSwap then XYSwapGraph else StableGraph
  }

  /** Venue `v` can swap `src` into `dst`. */
  predicate HasEdge(v: Venue, src: string, dst: string)
  {
    src in Tokens(v) && dst in Tokens(v)[src]
  }

  /** Every venue accepts ETH as a source, and ETH reaches two other tokens. */
  lemma EthIsSource(v: Venue)
    ensures "ETH" in Tokens(v) && |Tokens(v)["ETH"]| == 2
    ensures forall d :: d in Tokens(v)["ETH"] ==> d != "ETH"
  {
  }

  /** A non-ETH source reaches ETH and nothing else. */
  lemma NonEthReachesOnlyEth(v: Venue, src: string)
    requires src in Tokens(v) && src != "ETH"
    ensures Tokens(v)[src] == ["ETH"]
  {
  }

  /** Each venue's graph is symmetric. */
  lemma Symmetric(v: Venue, a: string, b: string)
    ensures HasEdge(v, a, b) <==> HasEdge(v, b, a)
  {
  }

  /** Every destination of a venue is itself a source key of that venue. */
  lemma DestinationsAreSources(v: Venue, a: string, b: string)
    requires HasEdge(v, a, b)
    ensures b in Tokens(v)
  {
    Symmetric(v, a, b);
  }

  /** Skydrome, Zebra and SyncSwap share one graph over ETH, USDC and USDT; XYSwap has WETH where they have USDT. */
  lemma SharedGraphs()
    ensures Tokens(Skydrome) == Tokens(Zebra) == Tokens(SyncSwap)
    ensures Tokens(Skydrome).Keys == {"ETH", "USDC", "USDT"}
    ensures Tokens(XYSwap).Keys == {"ETH", "USDC", "WETH"}
    ensures HasEdge(Skydrome, "ETH", "USDT") && !HasEdge(XYSwap, "ETH", "USDT")
    ensures HasEdge(XYSwap, "ETH", "WETH") && !HasEdge(Skydrome, "ETH", "WETH")
  {
  }
}
