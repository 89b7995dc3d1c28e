# WatcherTG wallet watcher — a Dafny model

WatcherTG watches blockchain wallets for its Telegram users. It has two halves:

- The **tracking server** keeps a registry from chain id to tracked wallets, each with a cached balance. On every new block it re-reads the balances. When a cached balance changes, it schedules a reconstruction 30 seconds later. The reconstruction fetches the wallet's transactions from Etherscan, labels each one, and emits one notification per transaction on its relay socket.
- The **bot** stores users and their named wallets in a database. It answers `/track` and `/untrack` and forwards each notification to every user who tracks the wallet. When the socket connects, it sends the server its list of wallets to track.

This project models that core and proves its properties. One module per source file:

| module | file | models |
|---|---|---|
| `WalletTracker` | wallet_tracker.dfy | the registry and the balance-change detector, as the class `Tracker` (registry, pending timer tasks, emitted notifications) |
| `Scanners` | scanners.dfy | explorer endpoint choice, start-block defaulting, reply normalisation and reversal, latest timestamp |
| `FunctionNames` | format_function_name.dfy | the method label of a notification |
| `WsSync` | ws_sync.dfy | the `WALLETS_TO_TRACK` merge into the registry |
| `DbFunctions` | db_functions.dfy | `getWalletEntries` and the `getWalletsToTrack` grouping loop |
| `NotificationManager` | notification_manager.dfy | the per-subscriber Telegram fan-out |
| `TrackWallet`, `UntrackWallet` | track_wallet.dfy, untrack_wallet.dfy | command parsing, the address validator, the shortener, the DELETE body |
| `BotCommands` | bot_commands.dfy | the effects of `/track` and `/untrack` on the tables, the server requests and the chat, as the class `Bot` |
| `ServerRouter` | server_router.dfy | the server's `DELETE /wallet` route |
| `JsStrings`, `Lists`, `Wrappers` | js_strings.dfy, lists.dfy, wrappers.dfy | JavaScript's `trim`, `split`, `join` and `substring`; filter and "push unless included"; `Option` |

Everything outside the process is a parameter:

- the RPC provider's `getBalance` is `balanceOf`, where `None` means the call rejected;
- the Etherscan call is `explorer`, with its four kinds of reply;
- Telegram's `sendMessage` is `telegram`;
- the database's insert results, the `deleteWalletByName` answer and every HTTP status are also parameters.

Two joins across files are assumed:

- server/src/ws.ts imports `wallets` and `getBalances` from a server/src/walletTracker.ts that is not part of this model. The tracker of server/walletTracker.ts stands in for it, so `WsSync` merges into `WalletTracker.Tracker`.
- The reads of bot/src/db/functions.ts:49-72 have no `ORDER BY`. Wherever a contract says "table order", it assumes the database returns rows in the order the `wallets` sequence lists them.

The 30-second timer is the `pending` task list: `Tracker.FireTask` fires any pending task. `io.emit` appends to `emitted`.

Three behaviours of the code worth knowing:

- On the first observation of a wallet without a cached balance, the code does not set a baseline. It throws and logs, and the balance stays unset.
- A fired reconstruction task does not check whether its wallet is still in the registry.
- `addWallet` appends without checking for duplicates. It is not an idempotent insert.

## Model

| member | source | states |
|---|---|---|
| WalletTracker.Tracker.constructor | server/walletTracker.ts:20-30 | the registry starts as just Sepolia with the two development wallets, without balances |
| WalletTracker.GetProvider | server/walletTracker.ts:54-63 | a provider exists exactly for chain 11155111 |
| WalletTracker.RemoveUnknownChain | server/walletTracker.ts:184-187 | removing on an unknown chain gives "Chain not found" and leaves the registry unchanged |
| WalletTracker.RemoveKnownChain | server/walletTracker.ts:188-190 | on a known chain: no error, same keys, other chains untouched, an entry stays iff its address differs, and a second removal changes nothing |
| WalletTracker.RemoveKeepsOrder | server/walletTracker.ts:188-190 | removal distributes over any split of the list, so survivors keep their relative order |
| WalletTracker.RemoveAbsent | server/walletTracker.ts:188-190 | removing an address that is not on the list leaves the list unchanged |
| WalletTracker.Tracker.RemoveWallet | server/walletTracker.ts:184-191 | the new registry and the error are exactly those of `RemoveFrom` (see the two lemmas above) |
| WalletTracker.Tracker.AddWallet | server/walletTracker.ts:170-182 | unknown chain is the error, with no mutation; with a provider and a balance, exactly one `{address, balance}` is appended at the end without deduplication, and the latest timestamp is returned; any other outcome leaves the registry unchanged |
| WalletTracker.WithBalances | server/walletTracker.ts:75-77 | the i-th wallet gets the i-th result as its balance; addresses and length are kept |
| WalletTracker.FetchAll | server/walletTracker.ts:69-73 | `Promise.all` gives every balance in wallet order, or fails when some fetch fails |
| WalletTracker.Tracker.FetchAndSetBalances | server/walletTracker.ts:65-78 | the index-aligned write loop sets exactly that chain's balances from the results |
| WalletTracker.RefreshedSpec | server/walletTracker.ts:35-52 | `getBalances` never changes membership or order; a chain with a provider whose fetches all succeed gets every balance; any other chain is left as it was |
| WalletTracker.Tracker.GetBalances | server/walletTracker.ts:35-52 | the loop over the chains produces `Refreshed` of the old registry |
| WalletTracker.ObservationSpec | server/walletTracker.ts:90-111 | no cached balance: it stays unset and no task is scheduled; equal balance: no change, no task; different balance: it becomes the cached one and exactly one task is scheduled for this wallet, chain and block |
| WalletTracker.Tracker.BalanceChangedDelayed | server/walletTracker.ts:84-112 | returns the detected branch, rewrites only the observed wallet, and appends that observation's tasks to the pending list |
| WalletTracker.PollWallets | server/walletTracker.ts:208-212 | after a block, each wallet of the chain is its own observation result, position by position |
| WalletTracker.PollTasksSpec | server/walletTracker.ts:208-212 | a block schedules at most one task per wallet; every task is for that chain and block and for a wallet whose balance changed; and every wallet whose balance changed gets a task |
| WalletTracker.PollTasksInOrder | server/walletTracker.ts:208-212 | the tasks of a block are exactly one per changed wallet, in wallet order: the changed wallets, filtered from the chain's list, each mapped to its task |
| WalletTracker.PollQuiet | server/walletTracker.ts:93-97 | when no balance differs from a cached one, a block changes nothing and schedules nothing |
| WalletTracker.Tracker.OnBlock | server/walletTracker.ts:206-212 | the block listener leaves the chain as `PollWallets` and appends `PollTasks`; other chains are untouched |
| WalletTracker.NotificationsSpec | server/walletTracker.ts:130-168 | one notification per transaction, in order; direction is "in" exactly when the recipient equals the wallet; the method is the formatted label; the other fields are copied |
| WalletTracker.Tracker.HandleNotifications | server/walletTracker.ts:130-154 | the loop appends exactly `Notifications` for the transactions |
| WalletTracker.ReconstructedOutcome | server/walletTracker.ts:99-106 | a fired task throws "Failed to fetch transactions" exactly when the explorer call threw or did not return a list; an absent result or a chain without an endpoint emits nothing |
| WalletTracker.ReconstructedSpec | server/walletTracker.ts:99-106 | a fired task whose explorer reply is a list emits exactly `Notifications` of the reversed list (every field as in `NotificationsSpec`): one notification per transaction, in reverse order, with direction "in" exactly when the recipient is the wallet |
| WalletTracker.Tracker.FireTask | server/walletTracker.ts:99-106 | the task leaves the pending list; it reports the unhandled throw exactly when the reconstruction throws, and otherwise appends the reconstruction's notifications; there is no membership check |
| Scanners.EndpointFor | server/src/scanners.ts:84-86 | chain 1 gets the mainnet Etherscan URL, chain 11155111 the Sepolia one, and no other chain has an endpoint |
| Scanners.StartBlock | server/src/scanners.ts:84-86 | a falsy block falls back to the default of 0: an absent block and block 0 both query from 0 |
| Scanners.Reverse | server/src/scanners.ts:96 | element i of the result is element n-1-i of the input |
| Scanners.ReverseMultiset | server/src/scanners.ts:96 | reversal keeps the same elements with the same multiplicities |
| Scanners.ReverseReverse | server/src/scanners.ts:96 | reversing twice gives back the list |
| Scanners.FetchHistory | server/src/scanners.ts:77-100 | a chain without an endpoint yields the empty list |
| Scanners.FetchHistoryNormalises | server/src/scanners.ts:82-99 | on a chain with an endpoint: a list comes back reversed; a throw or a non-list is `undefined`; a missing result is `[]` |
| Scanners.FetchHistoryZeroBlock | server/src/scanners.ts:84-86 | asking from block 0 and asking with no block are the same query |
| Scanners.LatestTimestampFromLastEntry | server/src/scanners.ts:102-106 | the reported timestamp is that of the last entry of the explorer's list, or "0" otherwise; it is never empty |
| FunctionNames.ToUpper | server/src/utilities/formatFunctionName.ts:8 | a lower-case ASCII letter becomes the capital 32 code points below it; other characters are unchanged |
| FunctionNames.SpaceCapitalsSpaced | server/src/utilities/formatFunctionName.ts:11 | every capital in the result has a space right before it, so the result does not start with a capital |
| FunctionNames.SpaceCapitalsLength | server/src/utilities/formatFunctionName.ts:11 | exactly one character is inserted per capital letter |
| FunctionNames.SpaceCapitalsAppend | server/src/utilities/formatFunctionName.ts:11 | the replacement works character by character: spacing a concatenation spaces each part |
| FunctionNames.SpaceCapitalsNoCapitals | server/src/utilities/formatFunctionName.ts:11 | a text without capitals is left unchanged |
| FunctionNames.SpaceCapital | server/src/utilities/formatFunctionName.ts:11 | a single capital gets a space in front |
| FunctionNames.SpaceCapitalsKeepsNonBlank | server/src/utilities/formatFunctionName.ts:11 | only spaces are inserted: the non-blank characters are unchanged and in order |
| FunctionNames.SpaceCapitalsChars | server/src/utilities/formatFunctionName.ts:11 | the result's characters are the input's characters plus spaces |
| FunctionNames.FirstPieceIsPrefix | server/src/utilities/formatFunctionName.ts:9-10 | the first piece of a split is the longest prefix without the separator |
| FunctionNames.Fallback | server/src/utilities/formatFunctionName.ts:4-5 | selector "0x" reads as "Transfer"; any other selector is kept |
| FunctionNames.FormatFunctionName | server/src/utilities/formatFunctionName.ts:3-14 | with no function name, or one starting with "(", the label is the fallback |
| FunctionNames.DerivedLabel | server/src/utilities/formatFunctionName.ts:6-12 | a derived label comes from the non-empty text before the first "(" with its first letter upper-cased; it keeps that text's non-blank characters, has no "(", has a space before every capital after the first, and has no leading or trailing whitespace |
| FunctionNames.NamePartOfCall | server/src/utilities/formatFunctionName.ts:7-9 | the name part of `name(args)`, for a name without "(", is that name with its first letter upper-cased |
| FunctionNames.TrimLeadingSpace | server/src/utilities/formatFunctionName.ts:12 | a single leading space before an already trimmed text is the only thing `trim` removes |
| FunctionNames.TransferFromLabel | server/src/utilities/formatFunctionName.ts:3-14 | "transferFrom(address,address,uint256)", or "transferFrom(" with any argument list, is labelled "Transfer From" |
| FunctionNames.SpacedLabel | server/src/utilities/formatFunctionName.ts:11 | the spaced and trimmed text of a parenthesis-free name: the same non-blank characters, no "(", and spaced capitals |
| FunctionNames.TrimKeepsChars | server/src/utilities/formatFunctionName.ts:11 | trimming introduces no character, and a text whose capitals all follow a space keeps that property |
| WsSync.MergeChain | server/src/ws.ts:32-38 | the old entries stay as a prefix; every added entry has no balance |
| WsSync.MergeChainAddresses | server/src/ws.ts:32-38 | through its addresses, the inner loop is "push unless already included" |
| WsSync.MergeChainPresent | server/src/ws.ts:33 | addresses that are all present already add nothing |
| WsSync.MergeChainSpec | server/src/ws.ts:27-39 | per chain: old entries untouched at the front; then the new addresses in payload order at their first occurrence, without balance; every payload address present; no duplicates created; idempotent |
| WsSync.PushMissing | server/src/ws.ts:32-38 | the inner loop leaves its chain as `MergeChain` of the old list and the payload addresses, and every other chain as it was |
| WsSync.MergedSpec | server/src/ws.ts:27-39 | every payload chain exists and holds all of its addresses; other chains are untouched; no entry is removed, moved or changed |
| WsSync.MergedIdempotent | server/src/ws.ts:27-39 | applying the same payload twice equals applying it once |
| WsSync.MergeAlreadyTracked | server/src/ws.ts:27-39 | a payload of known chains and tracked addresses leaves the registry unchanged; nothing is duplicated or cleared |
| WsSync.OnWalletsToTrack | server/src/ws.ts:27-39 | the nested loops leave the tracker's registry as `Merged` of the old one |
| DbFunctions.GetWalletEntriesSpec | bot/src/db/functions.ts:49-55 | the result is exactly the rows whose address equals the argument, in table order |
| DbFunctions.AddressesOn | bot/src/db/functions.ts:62-68 | the addresses of exactly the rows on a chain; empty when no row is on it |
| DbFunctions.GroupedKeys | bot/src/db/functions.ts:58-72 | a chain is a key of the grouping exactly when some row is on it |
| DbFunctions.GroupedIsDedupByChain | bot/src/db/functions.ts:58-72 | a chain is a key iff some row has it, and its list is the rows on that chain, deduplicated by "push unless included" |
| DbFunctions.GroupedSpec | bot/src/db/functions.ts:58-72 | every row's address is in its chain's list; each list has only that chain's addresses, no duplicates, and first-occurrence order |
| DbFunctions.GetWalletsToTrack | bot/src/db/functions.ts:58-72 | the loop's result is `Grouped` of the rows |
| Lists.FindFirst | bot/src/notificationManager.ts:40-42 | a `findFirst` result is an element satisfying the condition; there is none exactly when no element satisfies it |
| Lists.DedupOntoNoDuplicates | bot/src/db/functions.ts:66-68 | "push unless included" keeps a duplicate-free list duplicate-free |
| Lists.DedupOntoIdempotent | server/src/ws.ts:32-38 | pushing the same addresses again changes nothing |
| Lists.DedupOntoAppend | server/src/ws.ts:32-38 | pushing the addresses of one payload and then of another is pushing those of both, in order |
| Lists.DedupOntoIsFirstOccurrences | bot/src/db/functions.ts:66-68 | "push unless included" appends the first occurrence of each new element, in order |
| NotificationManager.FindUser | bot/src/notificationManager.ts:40-42 | a found user has the id asked for; no user is found exactly when no row has that id |
| NotificationManager.FanoutAppend | bot/src/notificationManager.ts:38-63 | the loop over two runs of rows is the first run's sends followed by the second's |
| NotificationManager.FanoutSnoc | bot/src/notificationManager.ts:38-63 | one more row adds that row's iteration at the end |
| NotificationManager.FanoutSpec | bot/src/notificationManager.ts:35-63 | exactly one message per matching row whose user exists, in row order, to that user's Telegram id, with the fixed text; rows without a user send nothing |
| NotificationManager.FanoutIgnoresFailures | bot/src/notificationManager.ts:38-62 | which messages are attempted does not depend on Telegram's earlier answers, so failures are isolated per row |
| NotificationManager.HandleTransaction | bot/src/notificationManager.ts:24-68 | the loop sends exactly `Fanout` over `getWalletEntries` of the wallet |
| JsStrings.Trim | bot/src/commands/trackWallet.ts:19 | the result is the contiguous slice of the input that starts where the leading whitespace ends, with no whitespace at either end |
| JsStrings.TrimStartKeepsNonBlank | bot/src/commands/trackWallet.ts:19 | cutting the leading whitespace keeps every other character, in order |
| JsStrings.TrimEndKeepsNonBlank | bot/src/commands/trackWallet.ts:19 | cutting the trailing whitespace keeps every other character, in order |
| JsStrings.TrimKeepsNonBlank | bot/src/commands/trackWallet.ts:19 | `trim` removes whitespace only: the non-whitespace characters are those of the input, in order |
| JsStrings.Split | bot/src/commands/trackWallet.ts:21 | at least one piece, none containing the separator |
| JsStrings.JoinSplit | bot/src/commands/trackWallet.ts:21-34 | joining the pieces of a split gives back the string |
| JsStrings.SplitJoin | bot/src/commands/trackWallet.ts:21-34 | splitting a join of separator-free pieces gives back the pieces |
| JsStrings.SplitCount | bot/src/commands/untrackWallet.ts:18-21 | a split has one more piece than the string has separators |
| JsStrings.Substring | bot/src/commands/trackWallet.ts:138 | `substring` on in-range or half-clamped bounds is the expected slice |
| TrackWallet.ParseTrackSpec | bot/src/commands/trackWallet.ts:19-34 | usage reply iff the trimmed message has fewer than two spaces; an accepted message is command, space, non-empty space-free address, space, then the name (the rest); the name has a space iff the message has three or more |
| TrackWallet.HexRunSpec | bot/src/commands/trackWallet.ts:134 | `[a-fA-F0-9]{n}$` matches exactly n hex digits and nothing more |
| TrackWallet.IsValidAddressSpec | bot/src/commands/trackWallet.ts:133-135 | valid iff 42 characters, starting with lower-case "0x", then 40 hex digits of either case |
| TrackWallet.ShortenAddressSpec | bot/src/commands/trackWallet.ts:137-139 | the first six characters, "...", then the last four; a valid address gives 13 characters starting with "0x" |
| UntrackWallet.ParseUntrackSpec | bot/src/commands/untrackWallet.ts:16-25 | accepted iff the trimmed message has exactly one space; the name is what follows it, non-empty and space-free |
| UntrackWallet.SpacedNameCannotBeUntracked | bot/src/commands/untrackWallet.ts:18-25 | a wallet tracked under a multi-word name can never be named by `/untrack` |
| UntrackWallet.AsWrittenRemoveBody | bot/src/commands/untrackWallet.ts:44-51 | the DELETE body as written carries the address and no chain |
| UntrackWallet.RemoveBody | bot/src/commands/untrackWallet.ts:44-51 | the corrected DELETE body carries the deleted row's address and chain |
| ServerRouter.AsWrittenUntrackIsRejected | server/router.ts:19-28 | a body without a chain is always answered 400 and leaves the registry unchanged |
| ServerRouter.AsWrittenUntrackKeepsWallet | server/router.ts:19-28 | a Sepolia wallet untracked in the bot stays tracked on the server |
| ServerRouter.UntrackRemovesFromChain | server/router.ts:19-28 | with the row's chain in the body: 200, that address gone from that chain, every other entry and chain kept |
| BotCommands.UserByTelegramId | bot/src/commands/trackWallet.ts:41-43 | a found user has that Telegram id; none is found exactly when no user has it |
| BotCommands.WithUserKeepsConsistent | bot/src/commands/trackWallet.ts:41-61 | finding or creating the user keeps the tables consistent, yields an existing user's id, and leaves the wallets table alone |
| BotCommands.RecordKeepsConsistent | bot/src/commands/trackWallet.ts:91-106 | inserting a valid Sepolia address under a name the user has not used keeps the tables consistent |
| BotCommands.ParsedTrackKeepsConsistent | bot/src/commands/trackWallet.ts:24-84 | from the parsed message on, `/track` keeps the tables consistent |
| BotCommands.TrackKeepsConsistent | bot/src/commands/trackWallet.ts:12-89 | `/track` keeps the tables consistent: unique Telegram ids, fresh serial ids, rows owned by users, names unique per user, every row a valid address on 11155111 |
| BotCommands.ParsedTrackGrowth | bot/src/commands/trackWallet.ts:24-126 | one reply; the tables and the requests only grow, by at most one entry each; a request exactly when a row was added, and then a POST to 11155111 for the parsed address |
| BotCommands.TrackGrowth | bot/src/commands/trackWallet.ts:12-126 | the same growth bounds for a whole `/track` message, whatever its sender and text |
| BotCommands.ParsedTrackOutcomes | bot/src/commands/trackWallet.ts:24-126 | from the parsed message on: when the tables change, which row is added; the one reply is the usage text without arguments, the generic error without an address, "invalid address" for a bad address, "name taken" for a used name, success with the name and address iff the row was inserted and the status was 200, and the tracking error otherwise |
| BotCommands.TrackOutcomes | bot/src/commands/trackWallet.ts:12-126 | exactly one reply; nothing but the reply before a valid address; a new row only for a valid address, an unused name and an insert that returned the row, holding the parsed address and name; success reply iff the row was inserted and the status was 200; the reply is the generic error for a message without sender or text, and otherwise the reply for each parse outcome as in `ParsedTrackOutcomes` |
| BotCommands.ParsedUntrackOutcomes | bot/src/commands/untrackWallet.ts:21-62 | from the parsed message on: tables untouched; one reply, which is the usage text without a name, "not found" with the name when no row was deleted, and "removed" with the name and the row's address otherwise; a DELETE with the row's address and chain exactly when the delete returned a row; the status changes nothing |
| BotCommands.UntrackOutcomes | bot/src/commands/untrackWallet.ts:8-62 | tables untouched; exactly one reply; a DELETE with the deleted row's address and chain iff the name was accepted and the delete returned a row; the server's status changes nothing; the reply is the generic error for a message without sender or text, otherwise usage, "not found" or "removed" as in `ParsedUntrackOutcomes` |
| BotCommands.Bot.constructor | bot/src/db/schema.ts:17-53 | empty tables whose serial ids start at 1, which are consistent |
| BotCommands.Bot.EnsureUser | bot/src/commands/trackWallet.ts:41-61 | the lookup-or-insert of the sender leaves the state and id of `WithUser` (see `WithUserKeepsConsistent`): an existing user's id, or a new row with the next serial id |
| BotCommands.Bot.RecordWallet | bot/src/commands/trackWallet.ts:91-130 | the state and result are those of `AfterRecord`: insert first, POST only if a row came back, true only on 200 |
| BotCommands.Bot.TrackWalletFn | bot/src/commands/trackWallet.ts:12-89 | the new state is `AfterTrack` of the old one (see `TrackOutcomes`, `TrackKeepsConsistent`) |
| BotCommands.Bot.RemoveRecord | bot/src/commands/untrackWallet.ts:44-62 | one DELETE request with the corrected body; true only on status 200 |
| BotCommands.Bot.UntrackWalletFn | bot/src/commands/untrackWallet.ts:8-42 | the new state is `AfterUntrack` of the old one (see `UntrackOutcomes`) |

## Left out

- Network I/O is not modelled: ethers providers, `provider.on("block")`, the Etherscan HTTP calls, the `fetch` calls and Telegram. Their answers are parameters.
- The 30-second `setTimeout` has no clock. A scheduled task is a `pending` entry, and `FireTask` may fire any of them at any time.
- Concurrency is not modelled. Every operation runs to completion. Interleavings of async callbacks, such as two blocks observed while a balance fetch is pending, are not modelled.
- Wallets and transactions are values. `wallet.balance = …`, the in-place `reverse()` and the in-place `direction` write are modelled as replacing the value, so aliasing between the registry and in-flight callbacks is not captured.
- Balances are unbounded integers, and a rejected `getBalance` is `None`. BigNumber objects are always truthy, so the "Wallet hasn't been found" branch of `addWallet` cannot be reached. `AddWallet` models a rejected fetch as `BalanceUnavailable`.
- The Etherscan entry is modelled only with the fields the tracker reads.
- `toUpperCase` is modelled for ASCII letters only. Unicode case mapping is left out.
- `main`'s retry recursion, logging and the relay socket's connection handling are not modelled. The `getBalances` call after a `WALLETS_TO_TRACK` merge is the separate `Tracker.GetBalances`.
- Database failures (thrown errors) are not modelled. The exception is the wallet insert that returns no row. Creating a user always returns its row.
- `deleteWalletByName` is imported by bot/src/commands/untrackWallet.ts:3 and bot/src/commands.ts:7, but bot/src/db/functions.ts does not define it. As written, the import fails. Under an ES-module loader the bot never loads. Under CommonJS the call at untrackWallet.ts:27 throws, and the catch at untrackWallet.ts:38-40 turns that into the generic error reply. The model assumes an implementation that deletes the sender's row of that name and returns it, or returns none. That answer is the parameter `deleteByName`, and the modelled `wallets` table is not changed by it. The "not found" and "removed" replies of `/untrack` depend on that assumed implementation.
- Telegram ids are integers throughout. The string conversion `ctx.from.id.toString()` is left out.
- The relay socket between the halves is not modelled. The server emits the event `transaction` (server/walletTracker.ts:152), while the bot listens for `NEW_TRANSACTION` (bot/src/services/websocket.ts:69). `NotificationManager.HandleTransaction` is modelled as if the bot received every emitted notification.
- The POST `/wallet` route and the duplicated helpers of bot/src/commands.ts and bot/src/serviceManager.ts are not modelled.
- BotCommands.AfterRemoveRecord: states the corrected DELETE body, `{address, chain}`, not the `{address}` the source sends. The as-written body is `UntrackWallet.AsWrittenRemoveBody` (see Findings).
- BotCommands.Bot.RemoveRecord: sends the corrected DELETE body with the chain, not the source's `{address}` (see Findings).
- BotCommands.ParsedUntrackOutcomes: states the request as the corrected DELETE body with the chain, not the source's `{address}` (see Findings).
- BotCommands.UntrackOutcomes: states the request as the corrected DELETE body with the chain, not the source's `{address}` (see Findings).
- WalletTracker.Tracker.FireTask: reports the unhandled rejection as `threw`. What Node does with the rejection afterwards, such as a warning or ending the process, is not modelled.
- BotCommands.Bot.UntrackWalletFn: models the corrected DELETE body, which carries the chain, rather than the body as written. The as-written body is kept as `UntrackWallet.AsWrittenRemoveBody` (see Findings).

## Findings

| source | as written | input that shows it | evidently intended | confidence | as-written member | corrected member |
|---|---|---|---|---|---|---|
| bot/src/commands/untrackWallet.ts:50 with server/router.ts:19-28 | `removeRecord` sends `{address}` only; the route passes `req.body.chain` (undefined) to `removeWallet`, which answers "Chain not found" with status 400 | `/untrack main` for a row on chain 11155111, given an implementation of `deleteWalletByName` (which bot/src/db/functions.ts lacks) that returns the deleted row: the server keeps the address in its registry, while the bot still replies "removed from tracking list" | the body carries the deleted row's `chainId`, so the server removes the address from that chain | not executed | ServerRouter.AsWrittenUntrackKeepsWallet | ServerRouter.UntrackRemovesFromChain |
