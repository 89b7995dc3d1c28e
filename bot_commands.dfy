/**
 * The effects of the bot's `/track` and `/untrack` commands
 * (bot/src/commands/trackWallet.ts, bot/src/commands/untrackWallet.ts): rows
 * written to the `users` and `wallets` tables, requests sent to the
 * tracking server and replies sent to the chat. Every database insert
 * answer, HTTP status and the `deleteWalletByName` answer is a parameter.
 */
module BotCommands {
  import opened Wrappers
  import opened Lists
  import opened JsStrings
  import opened DbFunctions
  import opened TrackWallet
  import opened UntrackWallet

  /** The chain `/track` always records. */
  const Sepolia: int := 11155111

  /** A request to the tracking server's `/wallet` route. */
  datatype Request =
    | PostWallet(chain: int, address: string)
    | DeleteWallet(body: DeleteBody)

  /** A reply to the chat. */
  datatype Reply =
    | ProcessingError
    | TrackUsageReply
    | InvalidAddressReply
    | NameTaken(name: string)
    | NowTracking(name: string, address: string)
    | TrackingError
    | UntrackUsageReply
    | NotFound(name: string)
    | Removed(name: string, address: string)
  {
    /** The text the user sees. */
    function Text(): string {
      match this
      case ProcessingError => "Sorry, there was an error processing your request."
      case TrackUsageReply => "Please provide both wallet address and name: /track <address> <name>"
      case InvalidAddressReply => "Invalid wallet address format."
      case NameTaken(name) => "You already have a wallet named \"" + name + "\". Please choose a different name."
      case NowTracking(name, address) => "Now tracking wallet \"" + name + "\" (" + ShortenAddress(address) + ")"
      case TrackingError => "Sorry, there was an error tracking this wallet. Please try again."
      case UntrackUsageReply => "Please follow this format: /untrack <name>"
      case NotFound(name) => "Wallet of name \"" + name + "\" not found."
      case Removed(name, address) => "Wallet of name \"" + name + "\" and address \"" + address + "\" removed from tracking list."
    }
  }

  /** `deleteWalletByName(name, telegramId)`'s first returned row, if any. */
  type DeleteByName = (string, int) -> Option<WalletRow>

  /** The tables, the next serial ids, the requests sent and the replies sent. */
  datatype BotState = BotState(
    users: seq<User>,
    wallets: seq<WalletRow>,
    nextUserId: int,
    nextWalletId: int,
    requests: seq<Request>,
    replies: seq<Reply>)

  function UserIds(users: seq<User>): set<int> {
    set u | u in users :: u.id
  }

  /**
   * What the tables keep: unique Telegram ids and serial ids below the next
   * one, every wallet row owned by a user, no user with two rows of one
   * name, and every row a valid address on Sepolia.
   */
  predicate Consistent(s: BotState) {
    && (forall i, j :: 0 <= i < j < |s.users| ==> s.users[i].telegramId != s.users[j].telegramId)
    && (forall i :: 0 <= i < |s.users| ==> s.users[i].id < s.nextUserId)
    && (forall i, j :: 0 <= i < j < |s.users| ==> s.users[i].id != s.users[j].id)
    && (forall i :: 0 <= i < |s.wallets| ==> s.wallets[i].id < s.nextWalletId)
    && (forall i, j :: 0 <= i < j < |s.wallets| ==> s.wallets[i].id != s.wallets[j].id)
    && (forall i :: 0 <= i < |s.wallets| ==> s.wallets[i].userId in UserIds(s.users))
    && (forall i, j :: 0 <= i < j < |s.wallets| && s.wallets[i].userId == s.wallets[j].userId ==>
          s.wallets[i].name != s.wallets[j].name)
    && (forall i :: 0 <= i < |s.wallets| ==> IsValidAddress(s.wallets[i].address) && s.wallets[i].chainId == Sepolia)
  }

  /** `db.query.users.findFirst` by Telegram id. */
  function UserByTelegramId(users: seq<User>, telegramId: int): (u: Option<User>)
    ensures u.Some? ==> u.value in users && u.value.telegramId == telegramId
    ensures u.None? <==> forall i :: 0 <= i < |users| ==> users[i].telegramId != telegramId
  {
    FindFirst(users, (u: User) => u.telegramId == telegramId)
  }

  /** The `select` of the user's rows with that name. */
  function SameNameRows(wallets: seq<WalletRow>, userId: int, name: string): seq<WalletRow>
  {
    Filter(wallets, (r: WalletRow) => r.userId == userId && r.name == name)
  }

  function WithReply(s: BotState, reply: Reply): BotState {
    s.(replies := s.replies + [reply])
  }

  /** The user's id, inserting a new `users` row when there is none. */
  function WithUser(s: BotState, telegramId: int): (BotState, int)
  {
    match UserByTelegramId(s.users, telegramId)
    case Some(user) => (s, user.id)
    case None =>
      (s.(users := s.users + [User(s.nextUserId, telegramId)], nextUserId := s.nextUserId + 1), s.nextUserId)
  }

  /**
   * `recordWallet`: insert the row; only when the insert returns it, POST
   * `{chain, address}`; true only on status 200.
   */
  function AfterRecord(s: BotState, userId: int, address: string, name: string, chain: int,
                       insertReturnsRow: bool, status: int): (BotState, bool)
  {
    if !insertReturnsRow then (s, false)
    else
      (s.(wallets := s.wallets + [WalletRow(s.nextWalletId, address, chain, name, userId)],
          nextWalletId := s.nextWalletId + 1,
          requests := s.requests + [PostWallet(chain, address)]),
       status == 200)
  }

  /** `trackWalletFn`; a thrown error is the generic reply. */
  function AfterTrack(s: BotState, from: Option<int>, text: Option<string>,
                      insertReturnsRow: bool, status: int): BotState
  {
    if from.None? || text.None? || text.value == "" then WithReply(s, ProcessingError)
    else AfterParsedTrack(s, from.value, ParseTrack(text.value), insertReturnsRow, status)
  }

  /** `trackWalletFn` from the parsed message on, for the sender `telegramId`. */
  function AfterParsedTrack(s: BotState, telegramId: int, p: TrackArgs,
                            insertReturnsRow: bool, status: int): BotState
  {
    match p
    case Usage => WithReply(s, TrackUsageReply)
    case NoAddress => WithReply(s, ProcessingError)
    case Args(address, name) =>
      if !IsValidAddress(address) then WithReply(s, InvalidAddressReply)
      else
        var withUser := WithUser(s, telegramId);
        if |SameNameRows(withUser.0.wallets, withUser.1, name)| > 0 then WithReply(withUser.0, NameTaken(name))
        else
          var recorded := AfterRecord(withUser.0, withUser.1, address, name, Sepolia, insertReturnsRow, status);
          WithReply(recorded.0, if recorded.1 then NowTracking(name, address) else TrackingError)
  }

  /** `removeRecord`: DELETE the row's address and chain; true only on status 200. */
  function AfterRemoveRecord(s: BotState, wallet: WalletRow, status: int): (BotState, bool)
  {
    (s.(requests := s.requests + [DeleteWallet(RemoveBody(wallet))]), status == 200)
  }

  /** `untrackWalletFn`: `removeRecord` is not awaited, so the reply does not depend on its outcome. */
  function AfterUntrack(s: BotState, from: Option<int>, text: Option<string>,
                        deleteByName: DeleteByName, status: int): BotState
  {
    if from.None? || text.None? || text.value == "" then WithReply(s, ProcessingError)
    else AfterParsedUntrack(s, from.value, ParseUntrack(text.value), deleteByName, status)
  }

  /** `untrackWalletFn` from the parsed message on, for the sender `telegramId`. */
  function AfterParsedUntrack(s: BotState, telegramId: int, p: UntrackArgs,
                              deleteByName: DeleteByName, status: int): BotState
  {
    match p
    case UntrackUsage => WithReply(s, UntrackUsageReply)
    case Name(name) =>
      match deleteByName(name, telegramId)
      case None => WithReply(s, NotFound(name))
      case Some(wallet) => WithReply(AfterRemoveRecord(s, wallet, status).0, Removed(name, wallet.address))
  }


  /** Finding or creating the user keeps the tables consistent and yields a user's id. */
  lemma WithUserKeepsConsistent(s: BotState, telegramId: int)
    requires Consistent(s)
    ensures Consistent(WithUser(s, telegramId).0)
    ensures WithUser(s, telegramId).1 in UserIds(WithUser(s, telegramId).0.users)
    ensures WithUser(s, telegramId).0.wallets == s.wallets
  {
    var s1 := WithUser(s, telegramId).0;
    if UserByTelegramId(s.users, telegramId).None? {
      var u := User(s.nextUserId, telegramId);
      assert s1.users == s.users + [u];
      assert u in s1.users;
      assert UserIds(s.users) <= UserIds(s1.users);
    }
  }

  /** Recording a valid Sepolia address under a name the user has not used keeps the tables consistent. */
  lemma RecordKeepsConsistent(s: BotState, userId: int, address: string, name: string,
                              insertReturnsRow: bool, status: int)
    requires Consistent(s)
    requires userId in UserIds(s.users) && IsValidAddress(address)
    requires |SameNameRows(s.wallets, userId, name)| == 0
    ensures Consistent(AfterRecord(s, userId, address, name, Sepolia, insertReturnsRow, status).0)
  {
    if insertReturnsRow {
      var s' := AfterRecord(s, userId, address, name, Sepolia, insertReturnsRow, status).0;
      var row := WalletRow(s.nextWalletId, address, Sepolia, name, userId);
      assert s'.wallets == s.wallets + [row];
      forall i | 0 <= i < |s.wallets|
        ensures !(s.wallets[i].userId == userId && s.wallets[i].name == name)
      {
        assert s.wallets[i] !in SameNameRows(s.wallets, userId, name);
      }
    }
  }

  /** A reply leaves the tables as they were. */
  lemma ReplyKeepsConsistent(s: BotState, reply: Reply)
    requires Consistent(s)
    ensures Consistent(WithReply(s, reply))
  {
  }

  /** A parsed `/track` keeps the tables consistent. */
  lemma ParsedTrackKeepsConsistent(s: BotState, telegramId: int, p: TrackArgs,
                                   insertReturnsRow: bool, status: int)
    requires Consistent(s)
    ensures Consistent(AfterParsedTrack(s, telegramId, p, insertReturnsRow, status))
  {
    var s' := AfterParsedTrack(s, telegramId, p, insertReturnsRow, status);
    if !p.Args? || !IsValidAddress(p.address) {
      assert s' == WithReply(s, s'.replies[|s.replies|]);
      ReplyKeepsConsistent(s, s'.replies[|s.replies|]);
    } else {
      WithUserKeepsConsistent(s, telegramId);
      var withUser := WithUser(s, telegramId);
      var s1, userId := withUser.0, withUser.1;
      if |SameNameRows(s1.wallets, userId, p.name)| > 0 {
        assert s' == WithReply(s1, NameTaken(p.name));
        ReplyKeepsConsistent(s1, NameTaken(p.name));
      } else {
        RecordKeepsConsistent(s1, userId, p.address, p.name, insertReturnsRow, status);
        var recorded := AfterRecord(s1, userId, p.address, p.name, Sepolia, insertReturnsRow, status);
        var reply := if recorded.1 then NowTracking(p.name, p.address) else TrackingError;
        assert s' == WithReply(recorded.0, reply);
        ReplyKeepsConsistent(recorded.0, reply);
      }
    }
  }

  /** `/track` keeps the tables consistent. */
  lemma TrackKeepsConsistent(s: BotState, from: Option<int>, text: Option<string>,
                             insertReturnsRow: bool, status: int)
    requires Consistent(s)
    ensures Consistent(AfterTrack(s, from, text, insertReturnsRow, status))
  {
    if from.None? || text.None? || text.value == "" {
      ReplyKeepsConsistent(s, ProcessingError);
    } else {
      ParsedTrackKeepsConsistent(s, from.value, ParseTrack(text.value), insertReturnsRow, status);
    }
  }

  /**
   * How a parsed `/track` grows the state: exactly one reply; the tables and
   * the requests only grow, by at most one entry each; a request exactly
   * when a row was added, always a POST to Sepolia for the parsed address.
   */
  lemma ParsedTrackGrowth(s: BotState, telegramId: int, p: TrackArgs,
                          insertReturnsRow: bool, status: int)
    ensures var s' := AfterParsedTrack(s, telegramId, p, insertReturnsRow, status);
            && s'.replies[..|s.replies|] == s.replies && |s'.replies| == |s.replies| + 1
            && s.users <= s'.users && |s'.users| <= |s.users| + 1
            && s.wallets <= s'.wallets && |s'.wallets| <= |s.wallets| + 1
            && (|s'.requests| == |s.requests| <==> s'.wallets == s.wallets)
            && (s'.requests == s.requests || (p.Args? && s'.requests == s.requests + [PostWallet(Sepolia, p.address)]))
  {
    if p.Args? && IsValidAddress(p.address) {
      var withUser := WithUser(s, telegramId);
      assert s.users <= withUser.0.users && withUser.0.wallets == s.wallets;
    }
  }

  /** How one `/track` message grows the state (see `ParsedTrackGrowth`). */
  lemma TrackGrowth(s: BotState, from: Option<int>, text: Option<string>,
                    insertReturnsRow: bool, status: int)
    ensures var s' := AfterTrack(s, from, text, insertReturnsRow, status);
            && s'.replies[..|s.replies|] == s.replies && |s'.replies| == |s.replies| + 1
            && s.users <= s'.users && |s'.users| <= |s.users| + 1
            && s.wallets <= s'.wallets && |s'.wallets| <= |s.wallets| + 1
            && (|s'.requests| == |s.requests| <==> s'.wallets == s.wallets)
    ensures var s' := AfterTrack(s, from, text, insertReturnsRow, status);
            var p := if text.Some? && text.value != "" then ParseTrack(text.value) else Usage;
            s'.requests == s.requests || (p.Args? && s'.requests == s.requests + [PostWallet(Sepolia, p.address)])
  {
    var s' := AfterTrack(s, from, text, insertReturnsRow, status);
    if from.Some? && text.Some? && text.value != "" {
      assert s' == AfterParsedTrack(s, from.value, ParseTrack(text.value), insertReturnsRow, status);
      ParsedTrackGrowth(s, from.value, ParseTrack(text.value), insertReturnsRow, status);
    } else {
      assert s' == WithReply(s, ProcessingError);
      assert s'.replies == s.replies + [ProcessingError];
      assert s'.users == s.users && s'.wallets == s.wallets && s'.requests == s.requests;
    }
  }

  /**
   * When a parsed `/track` changes the tables: nothing but the reply before
   * a valid address; a new row only for a valid address, a name the user
   * has not used and an insert that returned the row, and it holds the
   * parsed address and name; the success reply exactly when the row was
   * inserted and the server answered 200.
   */
  lemma ParsedTrackOutcomes(s: BotState, telegramId: int, p: TrackArgs,
                            insertReturnsRow: bool, status: int)
    ensures var s' := AfterParsedTrack(s, telegramId, p, insertReturnsRow, status);
            && |s'.replies| == |s.replies| + 1
            && (!p.Args? || !IsValidAddress(p.address) ==> s'.users == s.users && s'.wallets == s.wallets && s'.requests == s.requests)
            && (|s'.wallets| > |s.wallets| ==>
                  && p.Args? && IsValidAddress(p.address) && insertReturnsRow
                  && |SameNameRows(s.wallets, WithUser(s, telegramId).1, p.name)| == 0
                  && s'.wallets[|s.wallets|].address == p.address
                  && s'.wallets[|s.wallets|].name == p.name)
            && (s'.replies[|s.replies|].NowTracking? <==> |s'.wallets| > |s.wallets| && status == 200)
    ensures var s' := AfterParsedTrack(s, telegramId, p, insertReturnsRow, status);
            var taken := p.Args? && |SameNameRows(s.wallets, WithUser(s, telegramId).1, p.name)| > 0;
            && |s'.replies| == |s.replies| + 1
            && s'.replies[..|s.replies|] == s.replies
            && s'.replies[|s.replies|] == match p
                 case Usage => TrackUsageReply
                 case NoAddress => ProcessingError
                 case Args(address, name) =>
                   if !IsValidAddress(address) then InvalidAddressReply
                   else if taken then NameTaken(name)
                   else if insertReturnsRow && status == 200 then NowTracking(name, address)
                   else TrackingError
  {
    if p.Args? && IsValidAddress(p.address) {
      var withUser := WithUser(s, telegramId);
      assert withUser.0.wallets == s.wallets;
    }
  }

  /** When one `/track` message changes the tables (see `ParsedTrackOutcomes`). */
  lemma TrackOutcomes(s: BotState, from: Option<int>, text: Option<string>,
                      insertReturnsRow: bool, status: int)
    ensures var s' := AfterTrack(s, from, text, insertReturnsRow, status);
            var p := if text.Some? && text.value != "" then ParseTrack(text.value) else Usage;
            && |s'.replies| == |s.replies| + 1
            && (!p.Args? || !IsValidAddress(p.address) ==> s'.users == s.users && s'.wallets == s.wallets && s'.requests == s.requests)
            && (|s'.wallets| > |s.wallets| ==>
                  && from.Some? && p.Args? && IsValidAddress(p.address) && insertReturnsRow
                  && |SameNameRows(s.wallets, WithUser(s, from.value).1, p.name)| == 0
                  && s'.wallets[|s.wallets|].address == p.address
                  && s'.wallets[|s.wallets|].name == p.name)
            && (s'.replies[|s.replies|].NowTracking? <==> |s'.wallets| > |s.wallets| && status == 200)
    ensures var s' := AfterTrack(s, from, text, insertReturnsRow, status);
            var p := if text.Some? && text.value != "" then ParseTrack(text.value) else Usage;
            && |s'.replies| == |s.replies| + 1
            && (from.None? || text.None? || text.value == "" ==> s'.replies[|s.replies|] == ProcessingError)
            && (from.Some? && text.Some? && text.value != "" ==>
                  var taken := p.Args? && |SameNameRows(s.wallets, WithUser(s, from.value).1, p.name)| > 0;
                  s'.replies[|s.replies|] == match p
                    case Usage => TrackUsageReply
                    case NoAddress => ProcessingError
                    case Args(address, name) =>
                      if !IsValidAddress(address) then InvalidAddressReply
                      else if taken then NameTaken(name)
                      else if insertReturnsRow && status == 200 then NowTracking(name, address)
                      else TrackingError)
  {
    if from.Some? && text.Some? && text.value != "" {
      ParsedTrackOutcomes(s, from.value, ParseTrack(text.value), insertReturnsRow, status);
    } else {
      assert AfterTrack(s, from, text, insertReturnsRow, status) == WithReply(s, ProcessingError);
    }
  }

  /**
   * What a parsed `/untrack` does: the tables are untouched; exactly one
   * reply; a request exactly when the name was accepted and the delete
   * returned a row, and then a DELETE carrying that row's address and
   * chain; the server's answer changes nothing.
   */
  lemma ParsedUntrackOutcomes(s: BotState, telegramId: int, p: UntrackArgs,
                              deleteByName: DeleteByName, status: int, otherStatus: int)
    ensures var s' := AfterParsedUntrack(s, telegramId, p, deleteByName, status);
            && s'.users == s.users && s'.wallets == s.wallets
            && s'.nextUserId == s.nextUserId && s'.nextWalletId == s.nextWalletId
            && s'.replies[..|s.replies|] == s.replies && |s'.replies| == |s.replies| + 1
            && (if p.Name? && deleteByName(p.name, telegramId).Some?
                then var wallet := deleteByName(p.name, telegramId).value;
                     s'.requests == s.requests + [DeleteWallet(DeleteBody(wallet.address, Some(wallet.chainId)))]
                else s'.requests == s.requests)
    ensures AfterParsedUntrack(s, telegramId, p, deleteByName, status)
            == AfterParsedUntrack(s, telegramId, p, deleteByName, otherStatus)
    ensures var s' := AfterParsedUntrack(s, telegramId, p, deleteByName, status);
            && |s'.replies| == |s.replies| + 1
            && s'.replies[|s.replies|] == match p
                 case UntrackUsage => UntrackUsageReply
                 case Name(name) =>
                   match deleteByName(name, telegramId)
                   case None => NotFound(name)
                   case Some(wallet) => Removed(name, wallet.address)
  {
  }

  /** What one `/untrack` message does (see `ParsedUntrackOutcomes`). */
  lemma UntrackOutcomes(s: BotState, from: Option<int>, text: Option<string>,
                        deleteByName: DeleteByName, status: int, otherStatus: int)
    ensures var s' := AfterUntrack(s, from, text, deleteByName, status);
            var p := if text.Some? && text.value != "" then ParseUntrack(text.value) else UntrackUsage;
            && s'.users == s.users && s'.wallets == s.wallets
            && s'.nextUserId == s.nextUserId && s'.nextWalletId == s.nextWalletId
            && s'.replies[..|s.replies|] == s.replies && |s'.replies| == |s.replies| + 1
            && (if from.Some? && p.Name? && deleteByName(p.name, from.value).Some?
                then var wallet := deleteByName(p.name, from.value).value;
                     s'.requests == s.requests + [DeleteWallet(DeleteBody(wallet.address, Some(wallet.chainId)))]
                else s'.requests == s.requests)
    ensures AfterUntrack(s, from, text, deleteByName, status) == AfterUntrack(s, from, text, deleteByName, otherStatus)
    ensures var s' := AfterUntrack(s, from, text, deleteByName, status);
            && |s'.replies| == |s.replies| + 1
            && (from.None? || text.None? || text.value == "" ==> s'.replies[|s.replies|] == ProcessingError)
            && (from.Some? && text.Some? && text.value != "" ==>
                  s'.replies[|s.replies|] == match ParseUntrack(text.value)
                    case UntrackUsage => UntrackUsageReply
                    case Name(name) =>
                      match deleteByName(name, from.value)
                      case None => NotFound(name)
                      case Some(wallet) => Removed(name, wallet.address))
  {
    if from.Some? && text.Some? && text.value != "" {
      ParsedUntrackOutcomes(s, from.value, ParseUntrack(text.value), deleteByName, status, otherStatus);
    }
  }

  /** The bot's view of the database, the server and the chat. */
  class Bot {
    var users: seq<User>
    var wallets: seq<WalletRow>
    var nextUserId: int
    var nextWalletId: int
    var requests: seq<Request>
    var replies: seq<Reply>

    function State(): BotState
      reads this
    {
      BotState(users, wallets, nextUserId, nextWalletId, requests, replies)
    }

    /** Empty tables whose serial ids start at 1, nothing sent yet. */
    constructor()
      ensures State() == BotState([], [], 1, 1, [], [])
      ensures Consistent(State())
    {
      users, wallets := [], [];
      nextUserId, nextWalletId := 1, 1;
      requests, replies := [], [];
    }

    method RecordWallet(userId: int, address: string, name: string, chain: int,
                        insertReturnsRow: bool, status: int) returns (ok: bool)
      modifies this`wallets, this`nextWalletId, this`requests
      ensures (State(), ok) == AfterRecord(old(State()), userId, address, name, chain, insertReturnsRow, status)
    {
      if !insertReturnsRow {
        return false;
      }
      wallets := wallets + [WalletRow(nextWalletId, address, chain, name, userId)];
      nextWalletId := nextWalletId + 1;
      requests := requests + [PostWallet(chain, address)];
      ok := status == 200;
    }

    /** The sender's user id, inserting a `users` row when there is none. */
    method EnsureUser(telegramId: int) returns (userId: int)
      modifies this`users, this`nextUserId
      ensures (State(), userId) == WithUser(old(State()), telegramId)
    {
      var user := UserByTelegramId(users, telegramId);
      if user.None? {
        userId := nextUserId;
        users := users + [User(userId, telegramId)];
        nextUserId := nextUserId + 1;
      } else {
        userId := user.value.id;
      }
    }

    method TrackWalletFn(from: Option<int>, text: Option<string>, insertReturnsRow: bool, status: int)
      modifies this
      ensures State() == AfterTrack(old(State()), from, text, insertReturnsRow, status)
    {
      if from.None? || text.None? || text.value == "" {
        replies := replies + [ProcessingError];
        return;
      }
      var message := Trim(text.value);
      var parts := Split(message, ' ');
      if |parts| < 3 {
        assert ParseTrack(text.value) == Usage;
        replies := replies + [TrackUsageReply];
        return;
      }
      var address := parts[1];
      if address == "" {
        assert ParseTrack(text.value) == NoAddress;
        replies := replies + [ProcessingError];
        return;
      }
      var name := Join(parts[2..], ' ');
      assert ParseTrack(text.value) == Args(address, name);
      if !IsValidAddress(address) {
        replies := replies + [InvalidAddressReply];
        return;
      }
      ghost var withUser := WithUser(State(), from.value);
      var userId := EnsureUser(from.value);
      var existingWallets := SameNameRows(wallets, userId, name);
      if |existingWallets| > 0 {
        replies := replies + [NameTaken(name)];
        return;
      }
      var success := RecordWallet(userId, address, name, Sepolia, insertReturnsRow, status);
      assert (State(), success) == AfterRecord(withUser.0, withUser.1, address, name, Sepolia, insertReturnsRow, status);
      if success {
        replies := replies + [NowTracking(name, address)];
      } else {
        replies := replies + [TrackingError];
      }
    }

    method RemoveRecord(wallet: WalletRow, status: int) returns (ok: bool)
      modifies this`requests
      ensures (State(), ok) == AfterRemoveRecord(old(State()), wallet, status)
    {
      requests := requests + [DeleteWallet(RemoveBody(wallet))];
      ok := status == 200;
    }

    method UntrackWalletFn(from: Option<int>, text: Option<string>, deleteByName: DeleteByName, status: int)
      modifies this`requests, this`replies
      ensures State() == AfterUntrack(old(State()), from, text, deleteByName, status)
    {
      if from.None? || text.None? || text.value == "" {
        replies := replies + [ProcessingError];
        return;
      }
      var message := Trim(text.value);
      var parts := Split(message, ' ');
      if |parts| != 2 || parts[1] == "" {
        assert ParseUntrack(text.value) == UntrackUsage;
        replies := replies + [UntrackUsageReply];
        return;
      }
      var name := parts[1];
      assert ParseUntrack(text.value) == Name(name);
      var wallet := deleteByName(name, from.value);
      if wallet.None? {
        replies := replies + [NotFound(name)];
        return;
      }
      var _ := RemoveRecord(wallet.value, status);
      replies := replies + [Removed(name, wallet.value.address)];
    }
  }
}
