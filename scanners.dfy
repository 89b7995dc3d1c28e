/**
 * The block-explorer adapter of the tracking server (server/src/scanners.ts):
 * which Etherscan endpoint a chain uses, how the start block is defaulted, how
 * the reply is normalised, and the "latest timestamp" lookup built on it.
 * The HTTP call itself is the `explorer` parameter.
 */
module Scanners {
  import opened Wrappers

  /** The fields of an Etherscan `txlist` entry that the tracker reads. */
  datatype Transaction = Transaction(
    blockNumber: string,
    timeStamp: string,
    hash: string,
    from: string,
    to: string,
    value: string,
    methodId: string,
    functionName: string)

  /** The two explorer endpoints in use: api.etherscan.io and api-sepolia.etherscan.io. */
  datatype Endpoint = EtherscanMainnet | EtherscanSepolia

  /**
   * What awaiting the explorer can give: the request or the JSON decoding
   * threw; the `result` field was absent (falsy); it was a non-array value
   * such as Etherscan's error text, on which `reverse()` throws; or a list.
   */
  datatype ExplorerReply = Threw | NoResult | NotAList | Listed(txs: seq<Transaction>)

  /** The explorer, queried with an endpoint, a wallet address and a start block. */
  type Explorer = (Endpoint, string, int) -> ExplorerReply

  const Mainnet: int := 1
  const Sepolia: int := 11155111

  /** The endpoint `fetchHistory` queries for a chain; the other chains have none. */
  function EndpointFor(chain: int): (e: Option<Endpoint>)
    ensures chain == Mainnet ==> e == Some(EtherscanMainnet)
    ensures chain == Sepolia ==> e == Some(EtherscanSepolia)
    ensures e.Some? <==> chain == Mainnet || chain == Sepolia
  {
    if chain == Mainnet then Some(EtherscanMainnet)
    else if chain == Sepolia then Some(EtherscanSepolia)
    else None
  }

  /**
   * `block || undefined` passed to a parameter defaulting to 0: an absent
   * block and block 0 both query from block 0.
   */
  function StartBlock(block: Option<int>): (b: int)
    ensures block == None || block == Some(0) ==> b == 0
    ensures block.Some? && block.value != 0 ==> b == block.value
  {
    match block
    case None => 0
    case Some(n) => if n == 0 then 0 else n
  }

  /** The list in the opposite order (`Array.prototype.reverse`). */
  function Reverse<T>(s: seq<T>): (r: seq<T>)
    ensures |r| == |s|
    ensures forall i :: 0 <= i < |s| ==> r[i] == s[|s| - 1 - i]
  {
    if |s| == 0 then [] else Reverse(s[1..]) + [s[0]]
  }

  /** Reversing keeps exactly the same elements, with the same multiplicities. */
  lemma {:induction false} ReverseMultiset<T>(s: seq<T>)
    ensures multiset(Reverse(s)) == multiset(s)
  {
    if |s| > 0 {
      ReverseMultiset(s[1..]);
      assert s == [s[0]] + s[1..];
    }
  }

  /** Reversing twice gives back the list. */
  lemma ReverseReverse<T>(s: seq<T>)
    ensures Reverse(Reverse(s)) == s
  {
  }

  /**
   * `fetchHistory(walletCA, chain, block)`: `None` stands for the `undefined`
   * returned when the fetch or the reversal threw.
   */
  function FetchHistory(walletCA: string, chain: int, block: Option<int>, explorer: Explorer)
    : (r: Option<seq<Transaction>>)
    ensures EndpointFor(chain) == None ==> r == Some([])
  {
    match EndpointFor(chain)
    case None => Some([])
    case Some(endpoint) =>
      match explorer(endpoint, walletCA, StartBlock(block))
      case Threw => None
      case NoResult => Some([])
      case NotAList => None
      case Listed(txs) => Some(Reverse(txs))
  }

  /**
   * On a chain with an endpoint, a listed reply comes back with the same
   * transactions in the opposite order; a failure gives `undefined`; an
   * absent result gives the empty list.
   */
  lemma FetchHistoryNormalises(walletCA: string, chain: int, block: Option<int>, explorer: Explorer)
    requires EndpointFor(chain).Some?
    ensures var reply := explorer(EndpointFor(chain).value, walletCA, StartBlock(block));
            var r := FetchHistory(walletCA, chain, block, explorer);
            && (reply.Listed? ==>
                  && r.Some? && |r.value| == |reply.txs|
                  && multiset(r.value) == multiset(reply.txs)
                  && forall i :: 0 <= i < |reply.txs| ==> r.value[i] == reply.txs[|reply.txs| - 1 - i])
            && (reply.Threw? || reply.NotAList? <==> r == None)
            && (reply.NoResult? ==> r == Some([]))
  {
    var reply := explorer(EndpointFor(chain).value, walletCA, StartBlock(block));
    if reply.Listed? {
      ReverseMultiset(reply.txs);
    }
  }

  /** Asking from block 0 and asking without a block are the same query. */
  lemma FetchHistoryZeroBlock(walletCA: string, chain: int, explorer: Explorer)
    ensures FetchHistory(walletCA, chain, Some(0), explorer) == FetchHistory(walletCA, chain, None, explorer)
  {
  }

  /**
   * `getLatestTimestamp`: the `timeStamp` of the first entry of the history
   * fetched without a start block, or "0" when there is no history, it is
   * empty, or that entry's `timeStamp` is empty.
   */
  function GetLatestTimestamp(walletCA: string, chainId: int, explorer: Explorer): (r: string)
  {
    var history := FetchHistory(walletCA, chainId, None, explorer);
    if history == None || |history.value| == 0 || history.value[0].timeStamp == "" then "0"
    else history.value[0].timeStamp
  }

  /**
   * Because the history is reversed, the timestamp reported is that of the
   * LAST entry of the explorer's list, queried from block 0; every other
   * outcome yields "0", and the result is never empty.
   */
  lemma LatestTimestampFromLastEntry(walletCA: string, chainId: int, explorer: Explorer)
    ensures var r := GetLatestTimestamp(walletCA, chainId, explorer);
            var e := EndpointFor(chainId);
            && r != ""
            && (e.Some? && explorer(e.value, walletCA, 0).Listed?
                && |explorer(e.value, walletCA, 0).txs| > 0
                ==> var txs := explorer(e.value, walletCA, 0).txs;
                    r == if txs[|txs| - 1].timeStamp == "" then "0" else txs[|txs| - 1].timeStamp)
            && ((|| e.None?
                 || !explorer(e.value, walletCA, 0).Listed?
                 || |explorer(e.value, walletCA, 0).txs| == 0) ==> r == "0")
  {
  }
}
