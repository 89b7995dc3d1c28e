/**
 * The tracking server's wallet registry and balance-change detector
 * (server/walletTracker.ts). The registry maps a chain id to its tracked
 * wallets and their last cached balance. The RPC provider is the
 * `balanceOf` parameter, the explorer the `explorer` parameter, the 30 s
 * timer the `pending` task list, and `io.emit` the `emitted` sequence.
 */
module WalletTracker {
  import opened Wrappers
  import opened Lists
  import Scanners
  import FunctionNames

  const Sepolia: int := 11155111

  /** A tracked wallet; `balance` is `None` until a balance has been cached. */
  datatype Wallet = Wallet(address: string, balance: Option<int>)

  type Registry = map<int, seq<Wallet>>

  /** A reconstruction scheduled for after the explorer's indexing delay. */
  datatype Task = Task(address: string, chain: int, blockNumber: int)

  /** The `direction` field: "in" or "out". */
  datatype Direction = In | Out

  datatype Notification = Notification(
    walletCA: string,
    chainId: int,
    direction: Direction,
    from: string,
    to: string,
    value: string,
    methodLabel: string,  // the `method` field
    timestamp: string,
    hash: string)

  /** The one RPC provider configured, for Sepolia. */
  datatype Provider = SepoliaProvider

  /** `provider.getBalance(address)` on a chain; `None` when the call rejects. */
  type BalanceSource = (int, string) -> Option<int>

  /** `getProvider`: only Sepolia has a provider; every other chain throws. */
  function GetProvider(chain: int): (p: Option<Provider>)
    ensures p.Some? <==> chain == Sepolia
  {
    if chain == Sepolia then Some(SepoliaProvider) else None
  }

  function Addresses(ws: seq<Wallet>): (r: seq<string>)
    ensures |r| == |ws| && forall i :: 0 <= i < |ws| ==> r[i] == ws[i].address
  {
    seq(|ws|, i requires 0 <= i < |ws| => ws[i].address)
  }

  // ---------------------------------------------------------------------
  // Registry membership: addWallet and removeWallet
  // ---------------------------------------------------------------------

  /** `chainWallets.filter(w => w.address !== address)`. */
  function WithoutAddress(ws: seq<Wallet>, address: string): seq<Wallet>
  {
    Filter(ws, (w: Wallet) => w.address != address)
  }

  /**
   * `removeWallet(address, chain)`: the registry afterwards and the error
   * returned, if any.
   */
  function RemoveFrom(reg: Registry, address: string, chain: int): (Registry, Option<string>)
  {
    if chain !in reg then (reg, Some("Chain not found"))
    else (reg[chain := WithoutAddress(reg[chain], address)], None)
  }

  /** An unknown chain is the "Chain not found" error and changes nothing. */
  lemma RemoveUnknownChain(reg: Registry, address: string, chain: int)
    requires chain !in reg
    ensures RemoveFrom(reg, address, chain) == (reg, Some("Chain not found"))
  {
  }

  /**
   * On a known chain every entry with that address goes and every other
   * entry stays; the chain keeps its key, no other chain changes, and
   * removing again changes nothing more.
   */
  lemma RemoveKnownChain(reg: Registry, address: string, chain: int)
    requires chain in reg
    ensures RemoveFrom(reg, address, chain).1 == None
    ensures var reg' := RemoveFrom(reg, address, chain).0;
            && reg'.Keys == reg.Keys
            && (forall c :: c in reg && c != chain ==> reg'[c] == reg[c])
            && (forall w :: w in reg'[chain] <==> w in reg[chain] && w.address != address)
            && RemoveFrom(reg', address, chain) == (reg', None)
  {
    var ws := reg[chain];
    var keep := (w: Wallet) => w.address != address;
    FilterIdempotent(ws, keep);
    forall w ensures w in WithoutAddress(ws, address) <==> w in ws && w.address != address {
      if w in ws && w.address != address {
        var i :| 0 <= i < |ws| && ws[i] == w;
        assert keep(ws[i]);
      }
    }
    var reg' := reg[chain := WithoutAddress(ws, address)];
    assert reg'[chain := WithoutAddress(reg'[chain], address)] == reg';
  }

  /** Removal keeps relative order: it distributes over any split of the list. */
  lemma RemoveKeepsOrder(front: seq<Wallet>, back: seq<Wallet>, address: string)
    ensures WithoutAddress(front + back, address) == WithoutAddress(front, address) + WithoutAddress(back, address)
  {
    FilterAppend(front, back, (w: Wallet) => w.address != address);
  }

  /** Removing an address nobody has leaves the list as it was. */
  lemma RemoveAbsent(ws: seq<Wallet>, address: string)
    requires address !in Addresses(ws)
    ensures WithoutAddress(ws, address) == ws
  {
    var keep := (w: Wallet) => w.address != address;
    forall i | 0 <= i < |ws| ensures keep(ws[i]) {
      assert Addresses(ws)[i] == ws[i].address;
    }
    FilterAll(ws, keep);
  }

  /** The outcomes of `addWallet`. */
  datatype AddResult =
    | ChainNotFound
    | ProviderNotFound      // getProvider threw: the chain is registered but has no provider
    | BalanceUnavailable    // provider.getBalance rejected
    | Added(latestTimestamp: string, balance: int)

  // ---------------------------------------------------------------------
  // Balances: fetchAndSetBalances and getBalances
  // ---------------------------------------------------------------------

  /** The list with the i-th wallet's balance set to the i-th result. */
  function WithBalances(ws: seq<Wallet>, results: seq<int>): (r: seq<Wallet>)
    requires |results| == |ws|
    ensures |r| == |ws|
    ensures forall i :: 0 <= i < |ws| ==> r[i].address == ws[i].address && r[i].balance == Some(results[i])
  {
    seq(|ws|, i requires 0 <= i < |ws| => ws[i].(balance := Some(results[i])))
  }

  /**
   * `Promise.all(chainWallets.map(w => provider.getBalance(w.address)))`:
   * every balance in wallet order, or `None` when any call rejects.
   */
  function FetchAll(ws: seq<Wallet>, chain: int, balanceOf: BalanceSource): (r: Option<seq<int>>)
    ensures r.Some? ==>
              && |r.value| == |ws|
              && forall i :: 0 <= i < |ws| ==> balanceOf(chain, ws[i].address) == Some(r.value[i])
    ensures r.None? ==> exists i :: 0 <= i < |ws| && balanceOf(chain, ws[i].address).None?
  {
    if |ws| == 0 then Some([])
    else
      var init := FetchAll(ws[..|ws| - 1], chain, balanceOf);
      var last := balanceOf(chain, ws[|ws| - 1].address);
      if init.None? || last.None? then None else Some(init.value + [last.value])
  }

  /** One chain after `getBalances`: refreshed when it has a provider and every fetch succeeded. */
  function RefreshChain(ws: seq<Wallet>, chain: int, balanceOf: BalanceSource): seq<Wallet>
  {
    var results := FetchAll(ws, chain, balanceOf);
    if GetProvider(chain).Some? && results.Some? then WithBalances(ws, results.value) else ws
  }

  /** The registry after `getBalances`. */
  function Refreshed(reg: Registry, balanceOf: BalanceSource): Registry
  {
    map c | c in reg :: RefreshChain(reg[c], c, balanceOf)
  }

  /**
   * Refreshing balances never changes which wallets are tracked or their
   * order; a chain with a provider whose fetches all succeed ends up with
   * every balance cached, and any other chain is left as it was.
   */
  lemma RefreshedSpec(reg: Registry, balanceOf: BalanceSource, chain: int)
    requires chain in reg
    ensures var r := Refreshed(reg, balanceOf);
            && r.Keys == reg.Keys
            && Addresses(r[chain]) == Addresses(reg[chain])
            && (chain == Sepolia && FetchAll(reg[chain], chain, balanceOf).Some? ==>
                  forall i :: 0 <= i < |r[chain]| ==>
                    r[chain][i].balance == balanceOf(chain, reg[chain][i].address))
            && (chain != Sepolia || FetchAll(reg[chain], chain, balanceOf).None? ==> r[chain] == reg[chain])
  {
  }

  // ---------------------------------------------------------------------
  // The balance-change detector: balanceChangedDelayed and the block loop
  // ---------------------------------------------------------------------

  /** The branch `balanceChangedDelayed` takes. */
  datatype Detection = FetchFailed | NoCachedBalance | Unchanged | Changed

  /**
   * The fresh balance is awaited first (its rejection is caught); a wallet
   * without a cached balance throws and is caught; an equal balance returns.
   */
  function Detect(w: Wallet, newBalance: Option<int>): Detection
  {
    if newBalance.None? then FetchFailed
    else if w.balance.None? then NoCachedBalance
    else if newBalance.value == w.balance.value then Unchanged
    else Changed
  }

  /** The wallet afterwards: only a change overwrites the cached balance. */
  function AfterObservation(w: Wallet, newBalance: Option<int>): Wallet
  {
    if Detect(w, newBalance) == Changed then w.(balance := newBalance) else w
  }

  /** The tasks scheduled: one for a change, none otherwise. */
  function TasksFor(w: Wallet, newBalance: Option<int>, chain: int, blockNumber: int): seq<Task>
  {
    if Detect(w, newBalance) == Changed then [Task(w.address, chain, blockNumber)] else []
  }

  /**
   * One observation: a wallet without a cached balance keeps none and gets no
   * task; an equal balance changes nothing and gets no task; a different
   * balance becomes the cached one and gets exactly one task for this wallet,
   * chain and block. The address never changes.
   */
  lemma ObservationSpec(w: Wallet, newBalance: Option<int>, chain: int, blockNumber: int)
    ensures var w' := AfterObservation(w, newBalance);
            var ts := TasksFor(w, newBalance, chain, blockNumber);
            && w'.address == w.address
            && (w.balance.None? ==> w'.balance.None? && ts == [])
            && (newBalance.None? || newBalance == w.balance ==> w' == w && ts == [])
            && (w.balance.Some? && newBalance.Some? && newBalance != w.balance ==>
                  w'.balance == newBalance && ts == [Task(w.address, chain, blockNumber)])
  {
  }

  /** Every wallet of a chain observed at one block, in list order. */
  function PollWallets(ws: seq<Wallet>, chain: int, balanceOf: BalanceSource): (r: seq<Wallet>)
    ensures |r| == |ws|
    ensures forall i :: 0 <= i < |ws| ==> r[i] == AfterObservation(ws[i], balanceOf(chain, ws[i].address))
  {
    if |ws| == 0 then []
    else
      var last := ws[|ws| - 1];
      PollWallets(ws[..|ws| - 1], chain, balanceOf) + [AfterObservation(last, balanceOf(chain, last.address))]
  }

  /** The chain's list once its first `i` wallets went through the detector. */
  function PollPrefix(ws: seq<Wallet>, i: nat, chain: int, balanceOf: BalanceSource): (r: seq<Wallet>)
    requires i <= |ws|
    ensures |r| == |ws|
  {
    seq(|ws|, j requires 0 <= j < |ws| =>
      if j < i then AfterObservation(ws[j], balanceOf(chain, ws[j].address)) else ws[j])
  }

  /** One more wallet of the chain goes through the detector. */
  lemma PollStep(ws: seq<Wallet>, i: nat, chain: int, balanceOf: BalanceSource)
    requires i < |ws|
    ensures PollPrefix(ws, i, chain, balanceOf)[i] == ws[i]
    ensures PollPrefix(ws, i, chain, balanceOf)[i := AfterObservation(ws[i], balanceOf(chain, ws[i].address))]
            == PollPrefix(ws, i + 1, chain, balanceOf)
  {
  }

  /** Before the first wallet nothing has changed; after the last one the list is `PollWallets`. */
  lemma PollEnds(ws: seq<Wallet>, chain: int, balanceOf: BalanceSource)
    ensures PollPrefix(ws, 0, chain, balanceOf) == ws
    ensures PollPrefix(ws, |ws|, chain, balanceOf) == PollWallets(ws, chain, balanceOf)
  {
  }

  /** The tasks one block schedules, in list order. */
  function PollTasks(ws: seq<Wallet>, chain: int, blockNumber: int, balanceOf: BalanceSource): seq<Task>
  {
    if |ws| == 0 then []
    else
      var last := ws[|ws| - 1];
      PollTasks(ws[..|ws| - 1], chain, blockNumber, balanceOf)
        + TasksFor(last, balanceOf(chain, last.address), chain, blockNumber)
  }

  /**
   * A block schedules at most one task per wallet, each for that chain and
   * block and for a wallet whose cached balance changed.
   */
  lemma {:induction false} PollTasksSpec(ws: seq<Wallet>, chain: int, blockNumber: int, balanceOf: BalanceSource)
    ensures var ts := PollTasks(ws, chain, blockNumber, balanceOf);
            && |ts| <= |ws|
            && (forall t :: t in ts ==>
                 && t.chain == chain && t.blockNumber == blockNumber
                 && exists i :: 0 <= i < |ws| && ws[i].address == t.address
                      && Detect(ws[i], balanceOf(chain, ws[i].address)) == Changed)
            && (forall i :: 0 <= i < |ws| && Detect(ws[i], balanceOf(chain, ws[i].address)) == Changed ==>
                 Task(ws[i].address, chain, blockNumber) in ts)
  {
    if |ws| > 0 {
      var init := ws[..|ws| - 1];
      PollTasksSpec(init, chain, blockNumber, balanceOf);
      var ts := PollTasks(ws, chain, blockNumber, balanceOf);
      assert forall i :: 0 <= i < |init| ==> ws[i] == init[i];
      forall t | t in PollTasks(init, chain, blockNumber, balanceOf)
        ensures exists i :: 0 <= i < |ws| && ws[i].address == t.address
                  && Detect(ws[i], balanceOf(chain, ws[i].address)) == Changed
      {
        var i :| 0 <= i < |init| && init[i].address == t.address
                 && Detect(init[i], balanceOf(chain, init[i].address)) == Changed;
        assert ws[i] == init[i];
      }
      forall i | 0 <= i < |ws| && Detect(ws[i], balanceOf(chain, ws[i].address)) == Changed
        ensures Task(ws[i].address, chain, blockNumber) in ts
      {
        if i < |init| {
          assert init[i] == ws[i];
        }
      }
    }
  }

  /** One task per wallet of `ws`, for the given chain and block, in order. */
  function TasksOf(ws: seq<Wallet>, chain: int, blockNumber: int): (ts: seq<Task>)
    ensures |ts| == |ws|
    ensures forall j :: 0 <= j < |ts| ==> ts[j] == Task(ws[j].address, chain, blockNumber)
  {
    seq(|ws|, j requires 0 <= j < |ws| => Task(ws[j].address, chain, blockNumber))
  }

  lemma TasksOfAppend(a: seq<Wallet>, b: seq<Wallet>, chain: int, blockNumber: int)
    ensures TasksOf(a + b, chain, blockNumber) == TasksOf(a, chain, blockNumber) + TasksOf(b, chain, blockNumber)
  {
  }

  /**
   * Exactly the wallets whose balance changed get a task, one each, in
   * wallet order.
   */
  lemma {:induction false} PollTasksInOrder(ws: seq<Wallet>, chain: int, blockNumber: int, balanceOf: BalanceSource)
    ensures PollTasks(ws, chain, blockNumber, balanceOf)
            == TasksOf(Filter(ws, (w: Wallet) => Detect(w, balanceOf(chain, w.address)) == Changed), chain, blockNumber)
  {
    var keep := (w: Wallet) => Detect(w, balanceOf(chain, w.address)) == Changed;
    if |ws| == 0 {
      assert Filter(ws, keep) == [];
    } else {
      var init, last := ws[..|ws| - 1], ws[|ws| - 1];
      PollTasksInOrder(init, chain, blockNumber, balanceOf);
      assert ws == init + [last];
      FilterAppend(init, [last], keep);
      assert Filter([last], keep) == (if keep(last) then [last] else []) + Filter([], keep);
      TasksOfAppend(Filter(init, keep), Filter([last], keep), chain, blockNumber);
      assert TasksFor(last, balanceOf(chain, last.address), chain, blockNumber) == TasksOf(Filter([last], keep), chain, blockNumber);
    }
  }




  /**
   * When no wallet's balance differs from a cached one, a block changes
   * nothing and schedules nothing.
   */
  lemma {:induction false} PollQuiet(ws: seq<Wallet>, chain: int, blockNumber: int, balanceOf: BalanceSource)
    requires forall i :: 0 <= i < |ws| ==> Detect(ws[i], balanceOf(chain, ws[i].address)) != Changed
    ensures PollWallets(ws, chain, balanceOf) == ws
    ensures PollTasks(ws, chain, blockNumber, balanceOf) == []
  {
    if |ws| > 0 {
      PollQuiet(ws[..|ws| - 1], chain, blockNumber, balanceOf);
    }
  }

  // ---------------------------------------------------------------------
  // Reconstruction: setToOrFromTransaction and handleNotifications
  // ---------------------------------------------------------------------

  /** `setToOrFromTransaction`: "in" exactly when the recipient is the wallet (case-sensitive). */
  function SetToOrFromTransaction(tx: Scanners.Transaction, walletAddress: string): (d: Direction)
  {
    if tx.to == walletAddress then In else Out
  }

  /** The notification `handleNotifications` builds for one transaction. */
  function ToNotification(walletAddress: string, chainId: int, tx: Scanners.Transaction): Notification
  {
    Notification(
      walletAddress, chainId, SetToOrFromTransaction(tx, walletAddress),
      tx.from, tx.to, tx.value, FunctionNames.FormatFunctionName(tx), tx.timeStamp, tx.hash)
  }

  /** The notifications for a list of transactions, in list order. */
  function Notifications(walletAddress: string, chainId: int, txs: seq<Scanners.Transaction>): seq<Notification>
  {
    if |txs| == 0 then []
    else Notifications(walletAddress, chainId, txs[..|txs| - 1]) + [ToNotification(walletAddress, chainId, txs[|txs| - 1])]
  }

  /**
   * Exactly one notification per transaction, in the same order: the wallet
   * and chain come from the arguments, the direction is "in" exactly when the
   * transaction's recipient is the wallet, the method is the formatted label,
   * and the other fields are copied from the transaction.
   */
  lemma {:induction false} NotificationsSpec(walletAddress: string, chainId: int, txs: seq<Scanners.Transaction>)
    ensures var ns := Notifications(walletAddress, chainId, txs);
            && |ns| == |txs|
            && forall i :: 0 <= i < |txs| ==>
                 && ns[i].walletCA == walletAddress && ns[i].chainId == chainId
                 && (ns[i].direction == In <==> txs[i].to == walletAddress)
                 && ns[i].from == txs[i].from && ns[i].to == txs[i].to && ns[i].value == txs[i].value
                 && ns[i].methodLabel == FunctionNames.FormatFunctionName(txs[i])
                 && ns[i].timestamp == txs[i].timeStamp && ns[i].hash == txs[i].hash
  {
    if |txs| > 0 {
      NotificationsSpec(walletAddress, chainId, txs[..|txs| - 1]);
    }
  }

  /**
   * What the timer callback of a task does: emit the notifications for the
   * history since its block, or throw "Failed to fetch transactions" when the
   * history is `undefined`. That throw happens outside any `try`, so it is an
   * unhandled rejection of the callback's promise.
   */
  datatype Reconstruction = Emits(ns: seq<Notification>) | FetchFailedThrow

  /** The timer callback of a task. The task does not consult the registry. */
  function Reconstructed(task: Task, explorer: Scanners.Explorer): Reconstruction
  {
    match Scanners.FetchHistory(task.address, task.chain, Some(task.blockNumber), explorer)
    case None => FetchFailedThrow
    case Some(txs) => Emits(Notifications(task.address, task.chain, txs))
  }

  /**
   * When a fired task throws: exactly when the explorer's reply threw or was
   * not a list. An absent result, or a chain without an explorer endpoint,
   * emits nothing.
   */
  lemma ReconstructedOutcome(task: Task, explorer: Scanners.Explorer)
    ensures var rec := Reconstructed(task, explorer);
            var e := Scanners.EndpointFor(task.chain);
            && (e.None? ==> rec == Emits([]))
            && (e.Some? ==>
                 var reply := explorer(e.value, task.address, Scanners.StartBlock(Some(task.blockNumber)));
                 && (reply.Threw? || reply.NotAList? <==> rec.FetchFailedThrow?)
                 && (reply.NoResult? ==> rec == Emits([])))
  {
    if Scanners.EndpointFor(task.chain).Some? {
      Scanners.FetchHistoryNormalises(task.address, task.chain, Some(task.blockNumber), explorer);
    }
  }

  /**
   * A fired task whose explorer reply is a list emits the notifications for
   * that list in the opposite order (`NotificationsSpec` gives each field),
   * one notification per transaction.
   */
  lemma ReconstructedSpec(task: Task, explorer: Scanners.Explorer)
    ensures var rec := Reconstructed(task, explorer);
            var e := Scanners.EndpointFor(task.chain);
            e.Some? ==>
              var reply := explorer(e.value, task.address, Scanners.StartBlock(Some(task.blockNumber)));
              reply.Listed? ==>
                && rec == Emits(Notifications(task.address, task.chain, Scanners.Reverse(reply.txs)))
                && |rec.ns| == |reply.txs|
                && forall i :: 0 <= i < |rec.ns| ==>
                     && rec.ns[i].hash == reply.txs[|rec.ns| - 1 - i].hash
                     && (rec.ns[i].direction == In <==> reply.txs[|rec.ns| - 1 - i].to == task.address)
  {
    var e := Scanners.EndpointFor(task.chain);
    if e.Some? {
      var reply := explorer(e.value, task.address, Scanners.StartBlock(Some(task.blockNumber)));
      if reply.Listed? {
        assert Reconstructed(task, explorer) == Emits(Notifications(task.address, task.chain, Scanners.Reverse(reply.txs))) by {
          assert Scanners.FetchHistory(task.address, task.chain, Some(task.blockNumber), explorer) == Some(Scanners.Reverse(reply.txs));
        }
        NotificationsOfReversed(task.address, task.chain, reply.txs);
      }
    }
  }

  /** The notifications for a reversed list, read against the list before reversal. */
  lemma NotificationsOfReversed(walletAddress: string, chainId: int, listed: seq<Scanners.Transaction>)
    ensures var ns := Notifications(walletAddress, chainId, Scanners.Reverse(listed));
            && |ns| == |listed|
            && forall i :: 0 <= i < |ns| ==>
                 && ns[i].hash == listed[|ns| - 1 - i].hash
                 && (ns[i].direction == In <==> listed[|ns| - 1 - i].to == walletAddress)
  {
    var txs := Scanners.Reverse(listed);
    var ns := Notifications(walletAddress, chainId, txs);
    NotificationsSpec(walletAddress, chainId, txs);
    forall i | 0 <= i < |ns|
      ensures && ns[i].hash == listed[|ns| - 1 - i].hash
              && (ns[i].direction == In <==> listed[|ns| - 1 - i].to == walletAddress)
    {
      assert txs[i] == listed[|listed| - 1 - i];
    }
  }

  /** A registry that agrees with `reg` off `chain` and holds `ws` on it is `reg[chain := ws]`. */
  lemma RegistryUpdate(w: Registry, reg: Registry, chain: int, ws: seq<Wallet>)
    requires chain in w && w[chain] == ws
    requires w.Keys == reg.Keys + {chain}
    requires forall c :: c in w && c != chain ==> w[c] == reg[c]
    ensures w == reg[chain := ws]
  {
    var target := reg[chain := ws];
    assert w.Keys == target.Keys;
    assert forall c :: c in w ==> w[c] == target[c];
  }

  /** A second update of a chain's list overrides the first. */
  lemma UpdateTwice(reg: Registry, chain: int, first: seq<Wallet>, second: seq<Wallet>)
    ensures reg[chain := first][chain := second] == reg[chain := second]
  {
    var a, b := reg[chain := first][chain := second], reg[chain := second];
    assert a.Keys == b.Keys;
    assert forall c :: c in a ==> a[c] == b[c];
  }

  /**
   * The tracker's state: the registry, the reconstructions waiting for their
   * timer, and the notifications emitted on the relay socket so far.
   */
  class Tracker {
    var wallets: Registry
    var pending: seq<Task>
    var emitted: seq<Notification>

    /** The initial registry: the two development wallets on Sepolia, without balances. */
    constructor (devWallet1: string, devWallet2: string)
      ensures wallets == map[Sepolia := [Wallet(devWallet1, None), Wallet(devWallet2, None)]]
      ensures pending == [] && emitted == []
    {
      wallets := map[Sepolia := [Wallet(devWallet1, None), Wallet(devWallet2, None)]];
      pending := [];
      emitted := [];
    }

    /** `fetchAndSetBalances`: the i-th result becomes the i-th wallet's balance. */
    method FetchAndSetBalances(chain: int, results: seq<int>)
      requires chain in wallets && |results| == |wallets[chain]|
      modifies this`wallets
      ensures wallets == old(wallets)[chain := WithBalances(old(wallets[chain]), results)]
    {
      ghost var ws := wallets[chain];
      var i := 0;
      while i < |results|
        invariant 0 <= i <= |results|
        invariant chain in wallets && wallets.Keys == old(wallets).Keys
        invariant forall c :: c in wallets && c != chain ==> wallets[c] == old(wallets)[c]
        invariant |wallets[chain]| == |ws|
        invariant forall j :: 0 <= j < |ws| ==>
                    wallets[chain][j] == if j < i then ws[j].(balance := Some(results[j])) else ws[j]
      {
        wallets := wallets[chain := wallets[chain][i := wallets[chain][i].(balance := Some(results[i]))]];
        i := i + 1;
      }
      assert wallets[chain] == WithBalances(ws, results);
      RegistryUpdate(wallets, old(wallets), chain, WithBalances(ws, results));
    }

    /**
     * `getBalances`: every chain with a provider whose fetches all succeed has
     * its balances refreshed; a chain without a provider, or with a failed
     * fetch, is skipped (the error is logged).
     */
    method GetBalances(balanceOf: BalanceSource)
      modifies this`wallets
      ensures wallets == Refreshed(old(wallets), balanceOf)
    {
      var todo := wallets.Keys;
      while todo != {}
        invariant todo <= old(wallets).Keys
        invariant wallets.Keys == old(wallets).Keys
        invariant forall c :: c in wallets ==>
                    wallets[c] == if c in todo then old(wallets)[c] else RefreshChain(old(wallets)[c], c, balanceOf)
        decreases todo
      {
        if forall c :: c !in todo {
          assert false;
        }
        var c :| c in todo;
        var provider := GetProvider(c);
        if provider.Some? {
          var results := FetchAll(wallets[c], c, balanceOf);
          if results.Some? {
            FetchAndSetBalances(c, results.value);
          }
        }
        todo := todo - {c};
      }
    }

    /**
     * `balanceChangedDelayed` for the i-th wallet of a chain, given the
     * outcome of the fresh balance fetch.
     */
    method BalanceChangedDelayed(chain: int, i: nat, newBalance: Option<int>, blockNumber: int) returns (d: Detection)
      requires chain in wallets && i < |wallets[chain]|
      modifies this`wallets, this`pending
      ensures d == Detect(old(wallets[chain][i]), newBalance)
      ensures wallets == old(wallets)[chain := old(wallets[chain])[i := AfterObservation(old(wallets[chain][i]), newBalance)]]
      ensures pending == old(pending) + TasksFor(old(wallets[chain][i]), newBalance, chain, blockNumber)
    {
      var wallet := wallets[chain][i];
      ghost var same := wallets[chain := wallets[chain][i := wallet]];
      assert wallets[chain][i := wallet] == wallets[chain];
      assert same.Keys == wallets.Keys;
      assert forall c :: c in same ==> same[c] == wallets[c];
      if newBalance.None? {
        return FetchFailed;
      }
      if wallet.balance.None? {
        return NoCachedBalance;
      }
      if newBalance.value == wallet.balance.value {
        return Unchanged;
      }
      pending := pending + [Task(wallet.address, chain, blockNumber)];
      wallets := wallets[chain := wallets[chain][i := wallet.(balance := newBalance)]];
      return Changed;
    }

    /** The block listener: every wallet of the chain goes through the detector. */
    method OnBlock(chain: int, blockNumber: int, balanceOf: BalanceSource)
      requires chain in wallets
      modifies this`wallets, this`pending
      ensures wallets == old(wallets)[chain := PollWallets(old(wallets[chain]), chain, balanceOf)]
      ensures pending == old(pending) + PollTasks(old(wallets[chain]), chain, blockNumber, balanceOf)
    {
      var ws := wallets[chain];
      var i := 0;
      PollEnds(ws, chain, balanceOf);
      RegistryUpdate(wallets, old(wallets), chain, ws);
      while i < |ws|
        invariant 0 <= i <= |ws|
        invariant wallets == old(wallets)[chain := PollPrefix(ws, i, chain, balanceOf)]
        invariant pending == old(pending) + PollTasks(ws[..i], chain, blockNumber, balanceOf)
      {
        assert ws[..i + 1][..i] == ws[..i];
        PollStep(ws, i, chain, balanceOf);
        var _ := BalanceChangedDelayed(chain, i, balanceOf(chain, ws[i].address), blockNumber);
        UpdateTwice(old(wallets), chain, PollPrefix(ws, i, chain, balanceOf), PollPrefix(ws, i + 1, chain, balanceOf));
        i := i + 1;
      }
      assert ws[..i] == ws;
    }

    /** `handleNotifications`: one emitted notification per transaction, in order. */
    method HandleNotifications(walletAddress: string, chainId: int, txs: seq<Scanners.Transaction>)
      modifies this`emitted
      ensures emitted == old(emitted) + Notifications(walletAddress, chainId, txs)
    {
      for i := 0 to |txs|
        invariant emitted == old(emitted) + Notifications(walletAddress, chainId, txs[..i])
      {
        assert txs[..i + 1][..i] == txs[..i];
        var direction := SetToOrFromTransaction(txs[i], walletAddress);
        var methodLabel := FunctionNames.FormatFunctionName(txs[i]);
        var notification := Notification(
          walletAddress, chainId, direction, txs[i].from, txs[i].to,
          txs[i].value, methodLabel, txs[i].timeStamp, txs[i].hash);
        assert notification == ToNotification(walletAddress, chainId, txs[i]);
        emitted := emitted + [notification];
      }
      assert txs[..|txs|] == txs;
    }

    /**
     * The timer of the k-th pending task fires: the task leaves the list and
     * its history, if fetched, is turned into notifications; when the history
     * is `undefined` the callback throws (`threw`) and emits nothing. Registry
     * membership is not checked.
     */
    method FireTask(k: nat, explorer: Scanners.Explorer) returns (threw: bool)
      requires k < |pending|
      modifies this`pending, this`emitted
      ensures pending == old(pending[..k] + pending[k + 1..])
      ensures threw <==> Reconstructed(old(pending[k]), explorer).FetchFailedThrow?
      ensures emitted == old(emitted) + match Reconstructed(old(pending[k]), explorer)
                                        case Emits(ns) => ns
                                        case FetchFailedThrow => []
    {
      var task := pending[k];
      pending := pending[..k] + pending[k + 1..];
      var txs := Scanners.FetchHistory(task.address, task.chain, Some(task.blockNumber), explorer);
      if txs.None? {
        return true;
      }
      HandleNotifications(task.address, task.chain, txs.value);
      threw := false;
    }


    /**
     * `addWallet`: an unknown chain is an error; otherwise the balance is
     * fetched (a missing provider or a rejected fetch escapes as a rejected
     * promise) and one entry is appended, without checking for duplicates.
     */
    method AddWallet(address: string, chain: int, balanceOf: BalanceSource, explorer: Scanners.Explorer)
      returns (r: AddResult)
      modifies this`wallets
      ensures r == ChainNotFound <==> chain !in old(wallets)
      ensures r.Added? <==> chain in old(wallets) && chain == Sepolia && balanceOf(chain, address).Some?
      ensures r.Added? ==>
                && r.balance == balanceOf(chain, address).value
                && wallets == old(wallets)[chain := old(wallets[chain]) + [Wallet(address, Some(r.balance))]]
                && r.latestTimestamp == Scanners.GetLatestTimestamp(address, chain, explorer)
      ensures !r.Added? ==> wallets == old(wallets)
    {
      if chain !in wallets {
        return ChainNotFound;
      }
      var provider := GetProvider(chain);
      if provider.None? {
        return ProviderNotFound;
      }
      var balance := balanceOf(chain, address);
      if balance.None? {
        return BalanceUnavailable;
      }
      wallets := wallets[chain := wallets[chain] + [Wallet(address, balance)]];
      var latest := Scanners.GetLatestTimestamp(address, chain, explorer);
      return Added(latest, balance.value);
    }

    /** `removeWallet`. */
    method RemoveWallet(address: string, chain: int) returns (err: Option<string>)
      modifies this`wallets
      ensures (wallets, err) == RemoveFrom(old(wallets), address, chain)
    {
      if chain !in wallets {
        return Some("Chain not found");
      }
      wallets := wallets[chain := WithoutAddress(wallets[chain], address)];
      return None;
    }
  }
}
