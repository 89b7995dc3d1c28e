/**
 * The bot's handler for `NEW_TRANSACTION` notifications
 * (bot/src/notificationManager.ts): it looks up the wallet rows tracking the
 * notified address and sends one Telegram message per row whose user exists.
 * Telegram is the `telegram` parameter; the messages sent are the result.
 */
module NotificationManager {
  import opened Wrappers
  import opened Lists
  import opened DbFunctions

  /** The notification as the bot receives it (`TransactionData`). */
  datatype TransactionData = TransactionData(
    walletCA: string,
    chainId: int,
    direction: string,
    from: string,
    to: string,
    value: string,
    methodLabel: string,  // the `method` field
    timestamp: string,
    hash: string)

  /** One `bot.api.sendMessage` call and whether Telegram accepted it. */
  datatype Send = Send(chatId: int, text: string, delivered: bool)

  /** Telegram's answer to a message for a chat: `false` when the call rejects. */
  type Telegram = (int, string) -> bool

  /** `db.query.users.findFirst` by id: the first user row with that id. */
  function FindUser(users: seq<User>, id: int): (u: Option<User>)
    ensures u.Some? ==> u.value in users && u.value.id == id
    ensures u.None? <==> forall i :: 0 <= i < |users| ==> users[i].id != id
  {
    FindFirst(users, (u: User) => u.id == id)
  }

  /** The message text for a wallet row's name and a transaction hash. */
  function MessageText(name: string, hash: string): string
  {
    "New transaction for wallet *" + name + "*\nHash: " + hash
  }

  /** One iteration of the loop: a send to the row's user, or nothing when the user is missing. */
  function SendFor(entry: WalletRow, users: seq<User>, tx: TransactionData, telegram: Telegram): seq<Send>
  {
    match FindUser(users, entry.userId)
    case None => []
    case Some(user) =>
      var text := MessageText(entry.name, tx.hash);
      [Send(user.telegramId, text, telegram(user.telegramId, text))]
  }

  /** The whole loop over the matching rows. */
  function Fanout(entries: seq<WalletRow>, users: seq<User>, tx: TransactionData, telegram: Telegram): seq<Send>
  {
    if |entries| == 0 then []
    else SendFor(entries[0], users, tx, telegram) + Fanout(entries[1..], users, tx, telegram)
  }

  /** The loop over two runs of rows is the loop over the first, then over the second. */
  lemma {:induction false} FanoutAppend(a: seq<WalletRow>, b: seq<WalletRow>, users: seq<User>, tx: TransactionData, telegram: Telegram)
    ensures Fanout(a + b, users, tx, telegram) == Fanout(a, users, tx, telegram) + Fanout(b, users, tx, telegram)
  {
    if |a| == 0 {
      assert a + b == b;
    } else {
      assert (a + b)[1..] == a[1..] + b;
      FanoutAppend(a[1..], b, users, tx, telegram);
    }
  }

  predicate HasUser(users: seq<User>, entry: WalletRow) {
    FindUser(users, entry.userId).Some?
  }

  /**
   * Exactly one message per row whose user exists, in row order, to that
   * user's chat, with the fixed text; rows without a user send nothing.
   */
  lemma {:induction false} FanoutSpec(entries: seq<WalletRow>, users: seq<User>, tx: TransactionData, telegram: Telegram)
    ensures var served := Filter(entries, (e: WalletRow) => HasUser(users, e));
            var sends := Fanout(entries, users, tx, telegram);
            && |sends| == |served|
            && forall j :: 0 <= j < |served| ==>
                 var user := FindUser(users, served[j].userId).value;
                 && sends[j].chatId == user.telegramId
                 && sends[j].text == MessageText(served[j].name, tx.hash)
  {
    if |entries| > 0 {
      FanoutSpec(entries[1..], users, tx, telegram);
    }
  }

  /** The chat and text of a send, whatever Telegram answered. */
  function Attempt(s: Send): (int, string) {
    (s.chatId, s.text)
  }

  function Attempts(sends: seq<Send>): seq<(int, string)>
  {
    seq(|sends|, i requires 0 <= i < |sends| => Attempt(sends[i]))
  }

  lemma AttemptsAppend(a: seq<Send>, b: seq<Send>)
    ensures Attempts(a + b) == Attempts(a) + Attempts(b)
  {
    var l, r := Attempts(a + b), Attempts(a) + Attempts(b);
    assert |l| == |r|;
    assert forall i :: 0 <= i < |l| ==> l[i] == r[i];
  }

  /**
   * Failures are isolated: which messages are attempted does not depend on
   * whether Telegram accepted the earlier ones.
   */
  lemma {:induction false} FanoutIgnoresFailures(entries: seq<WalletRow>, users: seq<User>, tx: TransactionData, t1: Telegram, t2: Telegram)
    ensures Attempts(Fanout(entries, users, tx, t1)) == Attempts(Fanout(entries, users, tx, t2))
  {
    if |entries| > 0 {
      FanoutIgnoresFailures(entries[1..], users, tx, t1, t2);
      var h1, h2 := SendFor(entries[0], users, tx, t1), SendFor(entries[0], users, tx, t2);
      var r1, r2 := Fanout(entries[1..], users, tx, t1), Fanout(entries[1..], users, tx, t2);
      match FindUser(users, entries[0].userId) {
        case None =>
          assert h1 == [] && h2 == [];
        case Some(user) =>
          var text := MessageText(entries[0].name, tx.hash);
          assert Attempts(h1) == [(user.telegramId, text)] == Attempts(h2);
      }
      assert Fanout(entries, users, tx, t1) == h1 + r1 && Fanout(entries, users, tx, t2) == h2 + r2;
      AttemptsAppend(h1, r1);
      AttemptsAppend(h2, r2);
    }
  }

  /** Adding a row to the loop adds that row's iteration at the end. */
  lemma FanoutSnoc(entries: seq<WalletRow>, i: nat, users: seq<User>, tx: TransactionData, telegram: Telegram)
    requires i < |entries|
    ensures Fanout(entries[..i + 1], users, tx, telegram)
         == Fanout(entries[..i], users, tx, telegram) + SendFor(entries[i], users, tx, telegram)
  {
    assert entries[..i + 1] == entries[..i] + [entries[i]];
    FanoutAppend(entries[..i], [entries[i]], users, tx, telegram);
    assert Fanout([entries[i]], users, tx, telegram) == SendFor(entries[i], users, tx, telegram) + [];
  }

  /** `handleTransaction`: find the rows for the address, then one guarded send per row. */
  method HandleTransaction(users: seq<User>, rows: seq<WalletRow>, tx: TransactionData, telegram: Telegram)
    returns (sends: seq<Send>)
    ensures sends == Fanout(GetWalletEntries(rows, tx.walletCA), users, tx, telegram)
  {
    var wallets := GetWalletEntries(rows, tx.walletCA);
    sends := [];
    for i := 0 to |wallets|
      invariant sends == Fanout(wallets[..i], users, tx, telegram)
    {
      FanoutSnoc(wallets, i, users, tx, telegram);
      var user := FindUser(users, wallets[i].userId);
      var message := MessageText(wallets[i].name, tx.hash);
      if user.Some? {
        var delivered := telegram(user.value.telegramId, message);
        sends := sends + [Send(user.value.telegramId, message, delivered)];
      }
    }
    assert wallets[..|wallets|] == wallets;
  }
}
