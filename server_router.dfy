/**
 * The tracking server's `DELETE /wallet` route (server/router.ts), the
 * receiving end of the bot's `/untrack` request.
 */
module ServerRouter {
  import opened Wrappers
  import opened WalletTracker
  import opened UntrackWallet
  import DbFunctions

  /**
   * `removeWallet(body.address, body.chain)`, answered 400 on an error and
   * 200 otherwise. A body without `chain` looks up the key `undefined`,
   * which is never a registry key, so it is the "Chain not found" error.
   */
  function DeleteWalletRoute(reg: Registry, body: DeleteBody): (Registry, int)
  {
    var removal := match body.chain
      case None => (reg, Some("Chain not found"))
      case Some(chain) => RemoveFrom(reg, body.address, chain);
    (removal.0, if removal.1.Some? then 400 else 200)
  }

  /** As written, the `/untrack` request is always answered 400 and leaves the registry as it was. */
  lemma AsWrittenUntrackIsRejected(reg: Registry, address: string)
    ensures DeleteWalletRoute(reg, AsWrittenRemoveBody(address)) == (reg, 400)
  {
  }

  /** A Sepolia wallet untracked in the bot stays tracked on the server. */
  lemma AsWrittenUntrackKeepsWallet()
    ensures var address := "0x00000000000000000000000000000000000000aa";
            var reg: Registry := map[Sepolia := [Wallet(address, Some(5))]];
            var answer := DeleteWalletRoute(reg, AsWrittenRemoveBody(address));
            answer.1 == 400 && address in Addresses(answer.0[Sepolia])
  {
    var address := "0x00000000000000000000000000000000000000aa";
    var reg: Registry := map[Sepolia := [Wallet(address, Some(5))]];
    AsWrittenUntrackIsRejected(reg, address);
    assert Addresses(reg[Sepolia])[0] == address;
  }

  /**
   * With the deleted row's chain in the body, the route answers 200, drops
   * every entry with that address from that chain, keeps every other entry
   * and leaves the other chains alone.
   */
  lemma UntrackRemovesFromChain(reg: Registry, wallet: DbFunctions.WalletRow)
    requires wallet.chainId in reg
    ensures var answer := DeleteWalletRoute(reg, RemoveBody(wallet));
            && answer.1 == 200
            && answer.0.Keys == reg.Keys
            && (forall w :: w in answer.0[wallet.chainId] <==> w in reg[wallet.chainId] && w.address != wallet.address)
            && (forall c :: c in reg && c != wallet.chainId ==> answer.0[c] == reg[c])
  {
    RemoveKnownChain(reg, wallet.address, wallet.chainId);
  }
}
