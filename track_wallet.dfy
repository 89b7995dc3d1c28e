/**
 * The pure parts of the bot's `/track` command (bot/src/commands/trackWallet.ts):
 * splitting the message into an address and a name, the address validator
 * and the address shortener used in the reply.
 */
module TrackWallet {
  import opened JsStrings

  /** What the argument split of `trackWalletFn` yields. */
  datatype TrackArgs =
    | Usage                                  // fewer than three parts
    | NoAddress                              // the second part is empty
    | Args(address: string, name: string)

  /** Trim, split on single spaces, take the second part as address and join the rest as name. */
  function ParseTrack(text: string): TrackArgs
  {
    var parts := Split(Trim(text), ' ');
    if |parts| < 3 then Usage
    else if parts[1] == "" then NoAddress
    else Args(parts[1], Join(parts[2..], ' '))
  }

  /**
   * The usage reply is given exactly when the trimmed message has fewer than
   * two spaces. An accepted message is the command word, one space, the
   * address (non-empty, no space), one space, and then the name: the name is
   * everything after the second space, and it holds a space exactly when the
   * message holds three or more.
   */
  lemma ParseTrackSpec(text: string)
    ensures ParseTrack(text).Usage? <==> multiset(Trim(text))[' '] < 2
    ensures var m := Trim(text);
            var p := ParseTrack(text);
            p.Args? ==>
              var head := Split(m, ' ')[0];
              && ' ' !in head
              && p.address != "" && ' ' !in p.address
              && m == head + " " + p.address + " " + p.name
              && multiset(m)[' '] == 2 + multiset(p.name)[' ']
  {
    var m := Trim(text);
    var parts := Split(m, ' ');
    SplitCount(m, ' ');
    if |parts| >= 3 {
      JoinSplit(m, ' ');
      JoinFirstTwo(parts, ' ');
      var name := Join(parts[2..], ' ');
      assert m == parts[0] + " " + parts[1] + " " + name;
      assert multiset(m) == multiset(parts[0]) + multiset(" ") + multiset(parts[1]) + multiset(" ") + multiset(name);
      assert multiset(parts[0])[' '] == 0 && multiset(parts[1])[' '] == 0;
    }
  }

  /** One character of the class `[a-fA-F0-9]`. */
  predicate IsHexDigit(c: char) {
    '0' <= c <= '9' || 'a' <= c <= 'f' || 'A' <= c <= 'F'
  }

  /** `[a-fA-F0-9]{n}$`: exactly `n` hex digits and then the end of the input. */
  predicate HexRun(s: string, n: nat)
  {
    if n == 0 then s == ""
    else |s| > 0 && IsHexDigit(s[0]) && HexRun(s[1..], n - 1)
  }

  /** `/^0x[a-fA-F0-9]{40}$/.test(address)`, matched left to right. */
  predicate IsValidAddress(address: string)
  {
    |address| >= 2 && address[0] == '0' && address[1] == 'x' && HexRun(address[2..], 40)
  }

  lemma {:induction false} HexRunSpec(s: string, n: nat)
    ensures HexRun(s, n) <==> |s| == n && forall i :: 0 <= i < |s| ==> IsHexDigit(s[i])
  {
    if n > 0 && |s| > 0 {
      HexRunSpec(s[1..], n - 1);
      assert forall i :: 1 <= i < |s| ==> s[i] == s[1..][i - 1];
    }
  }

  /**
   * A valid address is exactly a 42-character string starting with a
   * lower-case `0x` whose other 40 characters are hex digits of either case.
   */
  lemma IsValidAddressSpec(address: string)
    ensures IsValidAddress(address) <==>
              && |address| == 42
              && address[..2] == "0x"
              && forall i :: 2 <= i < |address| ==> IsHexDigit(address[i])
  {
    if |address| >= 2 {
      HexRunSpec(address[2..], 40);
      assert forall i :: 2 <= i < |address| ==> address[i] == address[2..][i - 2];
    }
  }

  /** `shortenAddress`: the first six characters, `...`, the last four. */
  function ShortenAddress(address: string): string
  {
    Substring(address, 0, 6) + "..." + Substring(address, |address| - 4, |address|)
  }

  /**
   * For any address of at least six characters the short form is its first
   * six characters, `...` and its last four; a valid address shortens to 13
   * characters that still start with `0x`.
   */
  lemma ShortenAddressSpec(address: string)
    ensures |address| >= 6 ==>
              ShortenAddress(address) == address[..6] + "..." + address[|address| - 4..]
    ensures IsValidAddress(address) ==>
              |ShortenAddress(address)| == 13 && ShortenAddress(address)[..2] == "0x"
  {
    if IsValidAddress(address) {
      IsValidAddressSpec(address);
      assert address[..6][..2] == address[..2];
    }
  }
}
