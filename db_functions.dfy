/**
 * The bot's database queries (bot/src/db/functions.ts) over the `users` and
 * `wallets` tables, modelled as sequences of rows in table order.
 */
module DbFunctions {
  import opened Lists

  /** A `users` row. */
  datatype User = User(id: int, telegramId: int)

  /** A `wallets` row: a user's named subscription to an address on a chain. */
  datatype WalletRow = WalletRow(id: int, address: string, chainId: int, name: string, userId: int)

  /** `getWalletEntries(address)`: the rows tracking exactly this address, in table order. */
  function GetWalletEntries(rows: seq<WalletRow>, address: string): seq<WalletRow>
  {
    Filter(rows, (r: WalletRow) => r.address == address)
  }

  /**
   * `getWalletEntries` returns exactly the rows whose address equals the
   * argument (case-sensitive), keeping table order across any split of the
   * table.
   */
  lemma GetWalletEntriesSpec(rows: seq<WalletRow>, more: seq<WalletRow>, address: string)
    ensures forall r :: r in GetWalletEntries(rows, address) <==> r in rows && r.address == address
    ensures GetWalletEntries(rows + more, address) == GetWalletEntries(rows, address) + GetWalletEntries(more, address)
  {
    var keep := (r: WalletRow) => r.address == address;
    forall r | r in rows && r.address == address
      ensures r in GetWalletEntries(rows, address)
    {
      var i :| 0 <= i < |rows| && rows[i] == r;
      assert keep(rows[i]);
    }
    FilterAppend(rows, more, keep);
  }

  /** The addresses of the rows on one chain, in table order. */
  function AddressesOn(rows: seq<WalletRow>, chainId: int): (r: seq<string>)
    ensures forall a :: a in r <==> exists i :: 0 <= i < |rows| && rows[i].chainId == chainId && rows[i].address == a
    ensures (forall i :: 0 <= i < |rows| ==> rows[i].chainId != chainId) ==> r == []
  {
    if |rows| == 0 then []
    else
      var init := AddressesOn(rows[..|rows| - 1], chainId);
      var last := rows[|rows| - 1];
      assert forall i :: 0 <= i < |rows| - 1 ==> rows[..|rows| - 1][i] == rows[i];
      if last.chainId == chainId then init + [last.address] else init
  }

  /** The loop of `getWalletsToTrack` over the table rows. */
  function Grouped(rows: seq<WalletRow>): map<int, seq<string>>
  {
    if |rows| == 0 then map[]
    else
      var g := Grouped(rows[..|rows| - 1]);
      var w := rows[|rows| - 1];
      var g1 := if w.chainId in g then g else g[w.chainId := []];
      if w.address in g1[w.chainId] then g1 else g1[w.chainId := g1[w.chainId] + [w.address]]
  }

  /** A chain is a key of the grouping exactly when some row has it. */
  lemma {:induction false} GroupedKeys(rows: seq<WalletRow>)
    ensures forall c :: c in Grouped(rows) <==> exists i :: 0 <= i < |rows| && rows[i].chainId == c
  {
    if |rows| > 0 {
      var init := rows[..|rows| - 1];
      GroupedKeys(init);
      assert forall i :: 0 <= i < |init| ==> init[i] == rows[i];
      forall c | exists i :: 0 <= i < |rows| && rows[i].chainId == c
        ensures c in Grouped(rows)
      {
        var i :| 0 <= i < |rows| && rows[i].chainId == c;
        if i < |rows| - 1 {
          assert init[i].chainId == c;
        }
      }
    }
  }

  /**
   * The grouping loop agrees with "filter the rows by chain, then keep the
   * first occurrence of each address": a chain is a key exactly when some
   * row has it, and its list is what "push unless included" makes of the
   * addresses of the rows on that chain.
   */
  lemma {:induction false} GroupedIsDedupByChain(rows: seq<WalletRow>)
    ensures forall c :: c in Grouped(rows) <==> exists i :: 0 <= i < |rows| && rows[i].chainId == c
    ensures forall c :: c in Grouped(rows) ==> Grouped(rows)[c] == DedupOnto([], AddressesOn(rows, c))
  {
    GroupedKeys(rows);
    if |rows| > 0 {
      var init := rows[..|rows| - 1];
      var w := rows[|rows| - 1];
      GroupedIsDedupByChain(init);
      var g := Grouped(init);
      forall c | c in Grouped(rows)
        ensures Grouped(rows)[c] == DedupOnto([], AddressesOn(rows, c))
      {
        if c == w.chainId {
          var xs := AddressesOn(rows, c);
          assert xs == AddressesOn(init, c) + [w.address];
          assert xs[..|xs| - 1] == AddressesOn(init, c);
          if c !in g {
            assert AddressesOn(init, c) == [];
          }
        } else {
          assert AddressesOn(rows, c) == AddressesOn(init, c);
        }
      }
    }
  }

  /**
   * What `getWalletsToTrack` promises the server: every row's address is in
   * the list of its chain; each list holds only addresses of rows on that
   * chain, has no duplicates, and lists them in the order they first occur
   * in the table.
   */
  lemma GroupedSpec(rows: seq<WalletRow>)
    ensures forall i :: 0 <= i < |rows| ==>
              && rows[i].chainId in Grouped(rows)
              && rows[i].address in Grouped(rows)[rows[i].chainId]
    ensures forall c :: c in Grouped(rows) ==>
              && NoDuplicates(Grouped(rows)[c])
              && Grouped(rows)[c] == FirstOccurrences({}, AddressesOn(rows, c))
              && forall a :: a in Grouped(rows)[c] ==>
                   exists i :: 0 <= i < |rows| && rows[i].chainId == c && rows[i].address == a
  {
    GroupedIsDedupByChain(rows);
    forall c | c in Grouped(rows)
      ensures NoDuplicates(Grouped(rows)[c])
      ensures Grouped(rows)[c] == FirstOccurrences({}, AddressesOn(rows, c))
    {
      DedupOntoNoDuplicates([], AddressesOn(rows, c));
      DedupOntoIsFirstOccurrences([], AddressesOn(rows, c));
      assert (set x: string | x in []) == {};
    }
    forall i | 0 <= i < |rows|
      ensures rows[i].address in Grouped(rows)[rows[i].chainId]
    {
      assert rows[i].address in AddressesOn(rows, rows[i].chainId);
    }
  }

  /** `getWalletsToTrack()` over a snapshot of the `wallets` table. */
  method GetWalletsToTrack(rows: seq<WalletRow>) returns (result: map<int, seq<string>>)
    ensures result == Grouped(rows)
  {
    result := map[];
    for i := 0 to |rows|
      invariant result == Grouped(rows[..i])
    {
      assert rows[..i + 1][..i] == rows[..i];
      var wallet := rows[i];
      if wallet.chainId !in result {
        result := result[wallet.chainId := []];
      }
      if wallet.address !in result[wallet.chainId] {
        result := result[wallet.chainId := result[wallet.chainId] + [wallet.address]];
      }
    }
    assert rows[..|rows|] == rows;
  }
}
