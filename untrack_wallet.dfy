/**
 * The pure parts of the bot's `/untrack` command
 * (bot/src/commands/untrackWallet.ts): the argument check and the JSON body
 * of the `DELETE /wallet` request that `removeRecord` sends.
 */
module UntrackWallet {
  import opened Wrappers
  import opened JsStrings
  import DbFunctions
  import TrackWallet

  datatype UntrackArgs = UntrackUsage | Name(name: string)

  /** Trim, split on single spaces; only exactly two parts with a non-empty second one are accepted. */
  function ParseUntrack(text: string): UntrackArgs
  {
    var parts := Split(Trim(text), ' ');
    if |parts| != 2 || parts[1] == "" then UntrackUsage
    else Name(parts[1])
  }

  /**
   * A message is accepted exactly when, once trimmed, it holds exactly one
   * space; the name is what follows it, is never empty and never holds a
   * space. (The empty-second-part guard never fires: trimming removes a
   * trailing space.)
   */
  lemma ParseUntrackSpec(text: string)
    ensures ParseUntrack(text).Name? <==> multiset(Trim(text))[' '] == 1
    ensures ParseUntrack(text).Name? ==>
              var m := Trim(text);
              var name := ParseUntrack(text).name;
              && name != "" && ' ' !in name
              && m == Split(m, ' ')[0] + " " + name
  {
    var m := Trim(text);
    var parts := Split(m, ' ');
    SplitCount(m, ' ');
    if |parts| == 2 {
      JoinSplit(m, ' ');
      assert Join(parts, ' ') == parts[0] + " " + Join(parts[1..], ' ');
      assert m == parts[0] + " " + parts[1];
    }
  }

  /**
   * A wallet tracked under a name with a space in it can never be named by
   * `/untrack`, whatever is typed.
   */
  lemma SpacedNameCannotBeUntracked(trackText: string, untrackText: string)
    requires TrackWallet.ParseTrack(trackText).Args?
    requires multiset(Trim(trackText))[' '] >= 3
    ensures ParseUntrack(untrackText) != Name(TrackWallet.ParseTrack(trackText).name)
  {
    var name := TrackWallet.ParseTrack(trackText).name;
    TrackWallet.ParseTrackSpec(trackText);
    assert ' ' in name;
    ParseUntrackSpec(untrackText);
  }

  /** The JSON body of `DELETE /wallet`; `chain` is `None` when the body leaves it out. */
  datatype DeleteBody = DeleteBody(address: string, chain: Option<int>)

  /** The body `removeRecord` sends, as written: the address alone. */
  function AsWrittenRemoveBody(address: string): (b: DeleteBody)
    ensures b.address == address && b.chain.None?
  {
    DeleteBody(address, None)
  }

  /** The body the route needs: the deleted row's address and its chain. */
  function RemoveBody(wallet: DbFunctions.WalletRow): (b: DeleteBody)
    ensures b.address == wallet.address && b.chain == Some(wallet.chainId)
  {
    DeleteBody(wallet.address, Some(wallet.chainId))
  }
}
