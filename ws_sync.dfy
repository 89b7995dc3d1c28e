/**
 * The `WALLETS_TO_TRACK` handler of the tracking server's relay socket
 * (server/src/ws.ts): it folds the peer's `chainId -> addresses` payload into
 * the registry. It only adds: a missing chain gets an empty list, each
 * address not yet on its chain is pushed without a balance, and nothing is
 * removed or reordered.
 */
module WsSync {
  import opened Wrappers
  import opened Lists
  import opened WalletTracker

  /** The `WALLETS_TO_TRACK` payload: chain id to addresses. */
  type Payload = map<int, seq<string>>

  /** The list of a chain, or the empty list a missing chain is created with. */
  function ChainOf(reg: Registry, chain: int): seq<Wallet>
  {
    if chain in reg then reg[chain] else []
  }

  /** The inner loop for one chain: push `{address}` for each address not yet on the list. */
  function MergeChain(ws: seq<Wallet>, addresses: seq<string>): (r: seq<Wallet>)
    ensures ws <= r
    ensures forall i :: |ws| <= i < |r| ==> r[i].balance == None
    decreases |addresses|
  {
    if |addresses| == 0 then ws
    else
      var p := MergeChain(ws, addresses[..|addresses| - 1]);
      var a := addresses[|addresses| - 1];
      if a in Addresses(p) then p else p + [Wallet(a, None)]
  }

  /** Seen through its addresses, the inner loop is the "push unless included" loop. */
  lemma {:induction false} MergeChainAddresses(ws: seq<Wallet>, addresses: seq<string>)
    ensures Addresses(MergeChain(ws, addresses)) == DedupOnto(Addresses(ws), addresses)
    decreases |addresses|
  {
    if |addresses| > 0 {
      var init := addresses[..|addresses| - 1];
      MergeChainAddresses(ws, init);
      var p := MergeChain(ws, init);
      var a := addresses[|addresses| - 1];
      assert Addresses(p + [Wallet(a, None)]) == Addresses(p) + [a];
    }
  }

  /** Addresses that are all on the list already add nothing. */
  lemma {:induction false} MergeChainPresent(ws: seq<Wallet>, addresses: seq<string>)
    requires forall i :: 0 <= i < |addresses| ==> addresses[i] in Addresses(ws)
    ensures MergeChain(ws, addresses) == ws
    decreases |addresses|
  {
    if |addresses| > 0 {
      MergeChainPresent(ws, addresses[..|addresses| - 1]);
    }
  }

  /**
   * One chain after the merge: the old entries are untouched at the front;
   * after them come, without a balance and in payload order, the payload's
   * addresses that were not on the chain, each at its first occurrence; every
   * payload address is then on the chain; a duplicate-free chain stays
   * duplicate-free; and merging the same addresses again changes nothing.
   */
  lemma MergeChainSpec(ws: seq<Wallet>, addresses: seq<string>)
    ensures var r := MergeChain(ws, addresses);
            && ws <= r
            && (forall i :: |ws| <= i < |r| ==> r[i].balance == None)
            && Addresses(r) == Addresses(ws) + FirstOccurrences((set a | a in Addresses(ws)), addresses)
            && (forall i :: 0 <= i < |addresses| ==> addresses[i] in Addresses(r))
            && (NoDuplicates(Addresses(ws)) ==> NoDuplicates(Addresses(r)))
            && MergeChain(r, addresses) == r
  {
    var r := MergeChain(ws, addresses);
    MergeChainAddresses(ws, addresses);
    DedupOntoIsFirstOccurrences(Addresses(ws), addresses);
    if NoDuplicates(Addresses(ws)) {
      DedupOntoNoDuplicates(Addresses(ws), addresses);
    }
    MergeChainPresent(r, addresses);
  }

  /** Merging the same addresses a second time changes nothing. */
  lemma MergeChainTwice(ws: seq<Wallet>, addresses: seq<string>)
    ensures MergeChain(MergeChain(ws, addresses), addresses) == MergeChain(ws, addresses)
  {
    MergeChainSpec(ws, addresses);
  }

  /** The registry after the handler. */
  function Merged(reg: Registry, data: Payload): Registry
  {
    map k | k in reg.Keys + data.Keys :: if k in data then MergeChain(ChainOf(reg, k), data[k]) else reg[k]
  }

  /**
   * After the merge every payload chain exists and holds every payload
   * address for it; chains absent from the payload are untouched; no existing
   * entry is removed, moved or changed.
   */
  lemma MergedSpec(reg: Registry, data: Payload)
    ensures var r := Merged(reg, data);
            && r.Keys == reg.Keys + data.Keys
            && (forall k :: k in reg && k !in data ==> r[k] == reg[k])
            && (forall k :: k in reg ==> reg[k] <= r[k])
            && (forall k, i :: k in data && 0 <= i < |data[k]| ==> data[k][i] in Addresses(r[k]))
  {
    forall k, i | k in data && 0 <= i < |data[k]|
      ensures data[k][i] in Addresses(Merged(reg, data)[k])
    {
      MergeChainSpec(ChainOf(reg, k), data[k]);
    }
  }

  /** Replaying a payload gives the same registry as applying it once. */
  lemma MergedIdempotent(reg: Registry, data: Payload)
    ensures Merged(Merged(reg, data), data) == Merged(reg, data)
  {
    var once := Merged(reg, data);
    var twice := Merged(once, data);
    forall k | k in data
      ensures twice[k] == once[k]
    {
      assert once[k] == MergeChain(ChainOf(reg, k), data[k]);
      assert ChainOf(once, k) == once[k];
      assert twice[k] == MergeChain(once[k], data[k]);
      MergeChainTwice(ChainOf(reg, k), data[k]);
    }
    assert twice.Keys == once.Keys;
    assert forall k :: k in twice ==> twice[k] == once[k];
  }

  /**
   * A payload whose chains are known and whose addresses are all tracked
   * already leaves the registry exactly as it was: no entry is duplicated and
   * none is cleared.
   */
  lemma MergeAlreadyTracked(reg: Registry, data: Payload)
    requires forall k :: k in data ==> k in reg
    requires forall k, i :: k in data && 0 <= i < |data[k]| ==> data[k][i] in Addresses(reg[k])
    ensures Merged(reg, data) == reg
  {
    var r := Merged(reg, data);
    forall k | k in data
      ensures r[k] == reg[k]
    {
      MergeChainPresent(reg[k], data[k]);
    }
    assert r.Keys == reg.Keys;
    assert forall k :: k in r ==> r[k] == reg[k];
  }

  /** Two registries with the same chains and the same list on each chain are equal. */
  lemma RegistriesEqual(a: Registry, b: Registry)
    requires a.Keys == b.Keys
    requires forall k :: k in a ==> a[k] == b[k]
    ensures a == b
  {
    assert a.Keys == b.Keys;
    assert forall k :: k in a ==> a[k] == b[k];
  }

  /** The inner loop for one chain: push `{address}` for each address not on the chain yet. */
  method PushMissing(t: Tracker, chainKey: int, addresses: seq<string>)
    requires chainKey in t.wallets
    modifies t`wallets
    ensures t.wallets == old(t.wallets)[chainKey := MergeChain(old(t.wallets[chainKey]), addresses)]
  {
    ghost var before := t.wallets[chainKey];
    for i := 0 to |addresses|
      invariant t.wallets == old(t.wallets)[chainKey := MergeChain(before, addresses[..i])]
    {
      assert addresses[..i + 1][..i] == addresses[..i];
      var address := addresses[i];
      if address !in Addresses(t.wallets[chainKey]) {
        t.wallets := t.wallets[chainKey := t.wallets[chainKey] + [Wallet(address, None)]];
      }
    }
    assert addresses[..|addresses|] == addresses;
  }

  /** The `WALLETS_TO_TRACK` listener's merge loop, run against the tracker's registry. */
  method OnWalletsToTrack(t: Tracker, data: Payload)
    modifies t`wallets
    ensures t.wallets == Merged(old(t.wallets), data)
  {
    var todo := data.Keys;
    while todo != {}
      invariant todo <= data.Keys
      invariant t.wallets.Keys == old(t.wallets).Keys + (data.Keys - todo)
      invariant forall k :: k in t.wallets ==>
                  t.wallets[k] == if k in data && k !in todo then MergeChain(ChainOf(old(t.wallets), k), data[k])
                                  else old(t.wallets)[k]
      decreases todo
    {
      if forall k :: k !in todo {
        assert false;
      }
      var chainKey :| chainKey in todo;
      if chainKey !in t.wallets {
        t.wallets := t.wallets[chainKey := []];
      }
      assert t.wallets[chainKey] == ChainOf(old(t.wallets), chainKey);
      PushMissing(t, chainKey, data[chainKey]);
      todo := todo - {chainKey};
    }
    RegistriesEqual(t.wallets, Merged(old(t.wallets), data));
  }
}
