# Atlas Economy Bot — a Dafny model of its economy commands

Atlas is a Discord bot that keeps one currency account per user (a JSON
record per user id) and one settings record per guild (a YAML record per
guild id). Users pay each other (`/pay`), see a leaderboard (`/baltop`),
collect a daily payout (`/daily`), buy ranks with currency (`/rankup`,
`/view-ranks`), hide their account (`/private`, `/public`) and read their
history (`/logs`, `/transactions`, `/join-date`). Managers can pay out of
nothing, take currency away, inspect anyone's balance and logs, and tune
the propaganda images and the daily amount. Administrators configure the
embed colour, the manager roles and users, the ranks and the roles that
gate rankup.

The model keeps the bot's own shape:

- Records are values. `Ledger.Account`, `Ledger.Settings`, `Ledger.Rank`,
  `Ledger.Log` and `Ledger.Transaction` are datatypes, because in the bot
  they are structs. Every command loads snapshots, edits its copies and
  writes whole records back, so the save order decides what survives.
  The model states that order exactly.
- The record files are the `Ledger.Store` class. It has an `accounts`
  map and a `guilds` map. Its methods `GetAccountFromId`, `UpdateAccount`,
  `LoadSettings` and `SaveSettings` load (creating a missing record) and
  overwrite records.
- Each command is a method on the store that follows the handler
  statement by statement. Its `ensures` gives the whole new store through
  a function of the old store (`AfterPay`, `AfterManagerPay`, `Logged`, …).
  Lemmas about those functions state what the bot promises.
- The loops of the bot are loops here too, each proved against a function:
  the rankup walk (`Ranks.ChooseRank`), the minimum-role check, the
  `/view-ranks` listing, the baltop leaderboard and the log and
  transaction listings.
- Log and transaction texts become an `Event` datatype. It holds the ids
  and amounts the sentences are built from.
- The current time is a parameter `now`, in whole seconds. Currency
  amounts are integers.
- The records created on first access follow the account defaults in
  `Economy Management/Accounts.cs` (lines 172-185) and the settings
  defaults in `Bot System/GuildSettings.cs` (lines 48-61); the store's
  methods are what every command calls to load and save them.
- Facts the bot asks the platform for are parameters: the roles a user
  holds, guild membership, whether a role grant succeeds, whether a URL
  parses, the token kind.

## Model

| member | source | states |
|---|---|---|
| Ledger.DaysAgo | Modules/EconomyModule.cs:187 | the "first used … days ago" count is the elapsed time rounded up to whole days: (d-1) days < elapsed <= d days |
| Ledger.LoadedAfterTouch | Modules/EconomyModule.cs:66-67 | loading (and creating) one record never changes what loading any id yields afterwards |
| Ledger.SaveAfterTouch | Modules/Private.cs:29-43 | saving a record over one just loaded leaves the same store as saving it alone |
| Ledger.Store.GetAccountFromId | Modules/DailyModule.cs:40 | returns the stored record, or creates, saves and returns the default record (balance 0, public, one "created" log, last daily a day back) |
| Ledger.Store.UpdateAccount | Modules/DailyModule.cs:70 | overwrites exactly the record filed under the account's id |
| Ledger.Store.LoadSettings | Modules/DailyModule.cs:31 | returns the stored settings, or creates and saves the defaults (no managers, ranks or gate, daily off, configured colour) |
| Ledger.Store.SaveSettings | Modules/SettingsModule.cs:148 | overwrites exactly the settings of the guild they name |
| Seqs.Reverse | Modules/EconomyModule.cs:150 | the reversed list has the same length and element i is element n-1-i of the input |
| Seqs.FilterMembers | Modules/EconomyModule.cs:162-163 | an element survives the filter exactly when it is in the list and satisfies the predicate |
| Seqs.RemoveFirst | Modules/SettingsModule.cs:171 | `List.Remove` drops one element when the value is present and changes nothing otherwise |
| Seqs.RemoveFirstMultiset | Modules/SettingsModule.cs:171 | when the value is present, exactly one copy of it is taken out |
| Seqs.RemoveFirstAt | Modules/SettingsModule.cs:338 | the element removed is the one at the first position holding the value; the others keep their order |
| Seqs.RemoveFirstDistinct | Modules/SettingsModule.cs:164-171 | in a list without repeats, removal leaves no copy of the value and no repeats |
| Seqs.DistinctAppend | Modules/SettingsModule.cs:139-146 | appending a value the list does not hold keeps it free of repeats |
| Sorting.SortBy | Modules/Ranks.cs:43 | `OrderBy(cost)` returns a permutation of its input, sorted by the key |
| Sorting.SortStable | Modules/EconomyModule.cs:150 | `OrderBy` is stable: the elements with a given key keep their input order |
| Permissions.HoldsAny | Attributes/RequireManagerAttribute.cs:24-29 | true exactly when some listed role is among the roles held |
| Permissions.CheckRequirements | Attributes/RequireManagerAttribute.cs:17-41 | success exactly for a bot token when the user holds a manager role or is a manager user; otherwise the custom or default error, or the unsupported-token error |
| Permissions.AccessMonotone | Attributes/RequireManagerAttribute.cs:24-36 | growing the manager role or user lists never takes access away |
| Ranks.OrderedSameElements | Modules/Ranks.cs:43 | the cost order holds exactly the guild's ranks |
| Ranks.CheapestUnowned | Modules/Ranks.cs:43-53 | the walk stops at the cheapest rank the user lacks, or runs off the end exactly when the user holds every rank |
| Ranks.HoldsMinimumRole | Modules/Ranks.cs:58-75 | the gate loop finds a minimum role exactly when the user holds one |
| Ranks.RankupDecision | Modules/Ranks.cs:32-122 | no ranks, max rank, gate refused, shortfall and purchase happen exactly in their cases; a rank is sold only if it is the cheapest unowned one, the gate is met and the balance covers it; the shortfall is cost minus balance |
| Ranks.DecideAt | Modules/Ranks.cs:45-117 | the decision read off at the index where the walk stops |
| Ranks.ChooseRank | Modules/Ranks.cs:43-122 | the walk over the ordered ranks returns the decision the rankup rules prescribe |
| Ranks.Purchase | Modules/Ranks.cs:86-103 | the purchase debits the cost, logs it, records a payment to the bot and saves the account |
| Ranks.Rankup | Modules/Ranks.cs:27-131 | returns the decision for the loaded settings and balance; nothing changes without ranks; a paid outcome stores the debited account even when the role grant fails; otherwise only the load is stored |
| Ranks.ViewRanks | Modules/Ranks.cs:133-174 | no listing without ranks; otherwise one line per rank, numbered from 1 in rankup order, with the description or the fixed placeholder, climbing in cost |
| Economy.Pay | Modules/EconomyModule.cs:61-128 | refuses with the missing amount when the balance is short; otherwise stores the payee's credited copy and then the payer's debited copy |
| Economy.PayConserves | Modules/EconomyModule.cs:77-111 | between two users the payer loses the amount, the payee gains it, the sum is kept and the payer stays non-negative; each side gains exactly one transaction with that amount, payer and payee, and one log entry; every other record is untouched |
| Economy.PayRefusedChangesNothing | Modules/EconomyModule.cs:70-75 | a refused payment changes no stored record and only creates missing ones |
| Economy.PaySelfLoses | Modules/EconomyModule.cs:110-111 | paying oneself is not refused; the payer's debited copy, saved last, is the record kept, so the user is poorer by the amount and the "received" transaction and log entry are lost |
| Economy.Top | Modules/EconomyModule.cs:165-166 | the accounts shown are a prefix of the ranking: all of it when it has at most ten accounts, otherwise exactly its first ten |
| Economy.Leaderboard | Modules/EconomyModule.cs:153-189 | the loop skips private accounts, numbers and shows the first ten public ones, and keeps the first shown guild member as the richest |
| Economy.Baltop | Modules/EconomyModule.cs:130-209 | the leaderboard of the ranking (ordered by balance, reversed, public only) |
| Economy.RankingMembers | Modules/EconomyModule.cs:150-163 | the ranking holds exactly the public accounts |
| Economy.RankingDescending | Modules/EconomyModule.cs:150 | the ranking runs from the highest balance to the lowest |
| Economy.RankingTies | Modules/EconomyModule.cs:150 | among public accounts of equal balance, the ranking has them in the reverse of their reading order |
| Economy.RichestMember | Modules/EconomyModule.cs:177-182 | the richest user named is a public account of a guild member, and no public member account holds more |
| Daily.Breakdown | Modules/DailyModule.cs:48-52 | the hours, minutes and seconds shown are in range and add up to the wait when it is under a day |
| Daily.Daily | Modules/DailyModule.cs:28-75 | an amount of 0 switches the command off; before a day has passed only the wait is returned; otherwise the cooldown restarts and the payout is credited, logged and recorded from nobody |
| Daily.NewAccountDue | Modules/DailyModule.cs:42-45 | a brand-new account may collect at once |
| Daily.ClaimBlocksForADay | Modules/DailyModule.cs:43-53 | after a claim, any other claim (earlier, in the same second or later) is refused exactly until a full day has passed; for a later one the wait shown is what is left of that day |
| Daily.ClaimCredits | Modules/DailyModule.cs:57-71 | a claim credits exactly the payout, recorded as coming from nobody, and only appends to the logs |
| Privacy.Visibility | Modules/Private.cs:27-68 | the requested mode is set; the account is unchanged if it was already in that mode, and otherwise gains one log entry |
| Privacy.VisibilityIdempotent | Modules/Private.cs:31-36 | asking twice for the same mode changes nothing the second time |
| Privacy.PrivateThenPublic | Modules/Private.cs:27-68 | going private and back public restores the account except for the two log entries |
| Privacy.SetPrivate | Modules/Private.cs:27-46 | reports whether the account changed, and stores it in private mode |
| Privacy.SetPublic | Modules/Private.cs:48-68 | reports whether the account changed, and stores it in public mode |
| Reports.LogReport | Modules/LogsAndTransactions.cs:41-49 | one line per log, newest first, numbered from 1 |
| Reports.TransactionReport | Modules/LogsAndTransactions.cs:71-81 | one line per transaction, newest first, numbered from 1, with the ids the given detail picks out when details are asked for |
| Reports.DetailAsWrittenWrongPayee | Modules/LogsAndTransactions.cs:78 | as written, the listing names the right payee only when a user paid themselves |
| Reports.DetailAsWrittenExample | Modules/LogsAndTransactions.cs:78 | a payment from user 1 to user 2 is listed with payee 1 |
| Reports.ViewLogs | Modules/LogsAndTransactions.cs:29-58 | logs the access, saves, and lists the logs including that entry |
| Reports.TransactionsAsWritten | Modules/LogsAndTransactions.cs:60-90 | `/transactions` as written: lists the user's transactions newest first, and each detailed line names the payer as the payee; only the load touches the store |
| Reports.Transactions | Modules/LogsAndTransactions.cs:60-90 | the corrected `/transactions` of the Findings table: lists the user's transactions newest first, each detailed line naming the transaction's payer and payee; only the load touches the store |
| Reports.JoinDateOf | Modules/LogsAndTransactions.cs:103-113 | the join date is the time of the first log, with the days since rounded up; there is none without logs |
| Reports.NewAccountJoinDate | Modules/LogsAndTransactions.cs:97-113 | a record created by the lookup itself, measured by a later clock reading within a day, joined at its creation, 1 day ago |
| Reports.JoinDateStable | Modules/LogsAndTransactions.cs:104 | appending a log never moves the join date |
| Reports.JoinDate | Modules/LogsAndTransactions.cs:93-115 | the join date of the given user, or of the invoker when none is given, with the elapsed days measured at the second clock reading |
| Reports.AppGetJoinDate | Modules/LogsAndTransactions.cs:117-138 | the same lookup as `/join-date` |
| Management.BalanceAsWritten | Modules/Manager.cs:31-41 | returns the target's balance and stores the target's own copy back; the manager's entry is dropped |
| Management.Balance | Modules/Manager.cs:31-41 | returns the target's balance and stores the manager's record with an entry naming the target and its privacy |
| Management.BalanceLogLost | Modules/Manager.cs:38-40 | as written the manager's record stays exactly as loaded; corrected it gains that one entry; no balance changes |
| Management.BalanceLogLostExample | Modules/Manager.cs:38-40 | a manager viewing a private account of 7: as written nothing of the look is stored |
| Management.Pay | Modules/Manager.cs:43-101 | stores the manager's recorded copy, then the payee's credited copy |
| Management.ManagerPayCreates | Modules/Manager.cs:50-86 | between two users the payee gains the amount, the manager's balance is unchanged (currency is created) and the manager's log records it; the two stored records are exactly the manager's recorded copy and the payee's credited copy, and no other record changes |
| Management.ManagerPaySelf | Modules/Manager.cs:66-86 | paying oneself keeps the credit but loses the manager's own record of the payment |
| Management.Clamped | Modules/Manager.cs:124-130 | the balance left is never below 0, is never below balance minus amount, and is one of the two |
| Management.Remove | Modules/Manager.cs:103-152 | stores the manager's recorded copy, then the target's debited copy |
| Management.RemoveNeverNegative | Modules/Manager.cs:124-148 | the target ends non-negative, loses the whole amount when covered and is emptied otherwise, while the record shows the amount requested; the manager keeps their balance; the two stored records are exactly the manager's recorded copy and the target's clamped copy, and no other record changes |
| Management.RemoveTakesAtMost | Modules/Manager.cs:124-130 | for a non-negative amount the target never loses more than asked |
| Management.Logs | Modules/Manager.cs:156-190 | logs the access in the manager's record and lists the target's logs as loaded, newest first |
| Management.AddPropaganda | Modules/Manager.cs:193-222 | refuses a non-web URL before loading and refuses a listed one; otherwise appends and saves, keeping the list free of repeats |
| Management.RemovePropaganda | Modules/Manager.cs:224-243 | refuses an unlisted URL; otherwise removes its first copy and saves |
| Management.SetDaily | Modules/Manager.cs:246-264 | stores the amount; the reply calls it enabled exactly when the amount is above 0 |
| Management.NegativeDailyStillPays | Modules/Manager.cs:254 | for a negative amount the reply says disabled, but `/daily` stays on and a claim lowers the balance |
| SettingsCommands.DefaultWellFormed | Modules/SettingsModule.cs:136 | a guild's first settings have no repeats and no clashing ranks |
| SettingsCommands.LogChange | Modules/SettingsModule.cs:152-155 | the invoker's record gains one entry for the change and is saved |
| SettingsCommands.ColorOf | Modules/SettingsModule.cs:62-115 | every colour name gives components between 0 and 255 |
| SettingsCommands.ColorOfInjective | Modules/SettingsModule.cs:62-115 | no two colour names give the same colour |
| SettingsCommands.ChangeColor | Modules/SettingsModule.cs:57-125 | stores the named colour and logs the change |
| SettingsCommands.AddManager | Modules/SettingsModule.cs:127-156 | refuses a bot-managed role before loading and refuses a listed one; otherwise appends, saves, logs and keeps the settings well formed |
| SettingsCommands.RemoveManager | Modules/SettingsModule.cs:158-181 | refuses an unlisted role; otherwise removes it, saves and logs, and the role is gone |
| SettingsCommands.AddManagerUser | Modules/SettingsModule.cs:205-228 | refuses a listed user; otherwise appends, saves and logs |
| SettingsCommands.RemoveManagerUserAsWrittenKeepsAccess | Modules/SettingsModule.cs:236-243 | as written, a manager user whose id is not a manager role id is reported unlisted, nothing changes, and they keep passing the manager check |
| SettingsCommands.RemoveManagerUser | Modules/SettingsModule.cs:230-253 | refuses a user not in the manager users list; otherwise removes them, saves and logs, and the user is gone |
| SettingsCommands.ManagerUserAccess | Modules/SettingsModule.cs:218-243 | once removed, a user passes the manager check exactly when they hold a manager role; once added, they always pass |
| SettingsCommands.AddRankDistinct | Modules/SettingsModule.cs:289-313 | a rank with a new role and a new cost keeps role ids and costs apart |
| SettingsCommands.RemoveRankDistinct | Modules/SettingsModule.cs:331-338 | removing the first rank with the role keeps the ranks apart and leaves no rank with that role |
| SettingsCommands.OrderedStrictly | Modules/SettingsModule.cs:296-305 | with no two ranks at one cost, the rankup order strictly climbs in cost |
| SettingsCommands.AddRank | Modules/SettingsModule.cs:276-323 | refuses bot-managed and everyone roles, an existing rank's role, and a taken cost (naming the first rank at that cost); otherwise appends, saves and logs |
| SettingsCommands.RemoveRank | Modules/SettingsModule.cs:325-348 | refuses a role without a rank; otherwise removes the first rank with it, saves and logs |
| SettingsCommands.AddMinimumRole | Modules/SettingsModule.cs:350-379 | refuses a bot-managed role and a listed one; otherwise appends, saves and logs |
| SettingsCommands.RemoveMinimumRole | Modules/SettingsModule.cs:381-404 | refuses an unlisted role; otherwise removes it, saves and logs |
| Seqs.RemoveFirstAppended | Modules/SettingsModule.cs:146-171 | adding a value the list lacks (a manager role or user, a minimum role, a propaganda image) and removing it again gives the list back |
| SettingsCommands.RankRoundTrip | Modules/SettingsModule.cs:308-338 | removing a rank right after adding it gives the ranks back |

## Left out

- File and YAML/JSON input and output, replies, embeds, direct messages and the files sent as attachments: the model returns the data the replies and files are built from.
- User names, role names, mentions and currency formatting in messages and logs: events carry ids and amounts instead.
- Floating-point amounts (`double`): amounts are unbounded integers, so rounding and special values are not modelled.
- Clock readings: each command reads the time once as `now` in whole seconds, while the bot reads `DateTime.Now` several times per command; only `/join-date` and the "Join Date" command take a second reading, `measuredAt`.
- Reports.NewAccountJoinDate: the clock counts whole seconds, so a measurement in the same second as the creation (0 days) is not covered; the bot's clock ticks finer and prints 1 there.
- Concurrency: each command is modelled as one atomic step. In the bot, handlers can interleave at their awaits, so an update made by another command between a load and the matching save is overwritten (for example `/manager bal` awaits its reply between loading the target and saving it).
- The corrupt-record fallback of `GetAccountFromId`, which returns an empty account when a file exists but cannot be read.
- Roles deleted from a guild while still listed in the settings, and the check on the exception text after a failed role grant: a failed grant is the `GrantFailed` outcome.
- Economy.Baltop: the bot dereferences a missing richest user when no shown account belongs to a guild member; the model returns `None` instead. The bot also fails on a shown account without logs, where the model reports `None` as that entry's first-use days.
- Reports.JoinDate: the bot fails on an account without logs; the model returns `None`.
- Daily.Breakdown: a wait of exactly one day shows as 0 hours; the sum property is stated for waits under a day only.
- Permissions.CheckRequirements: loading the settings inside the check can create default settings; the model takes the settings as an input.
- The `view-manager-roles` and `view-manager-users` commands, the administrator precondition and the propaganda display command, which only read data.
- Economy.Pay and Management.Pay: the direct message sent to the payee.
- Reports.AppGetJoinDate: the user command's target comes from the platform; the model takes it as the same optional id as `/join-date`.

## Findings

| source | as written | input that shows it | evidently intended | confidence | as-written member | corrected member |
|---|---|---|---|---|---|---|
| Modules/SettingsModule.cs:236 | `remove-manager-user` checks the manager roles list, then removes from the manager users list | settings with manager users [5] and no manager roles; removing user 5 | check the manager users list, so that the user is removed and loses manager access | not executed | SettingsCommands.RemoveManagerUserAsWritten (shown by SettingsCommands.RemoveManagerUserAsWrittenKeepsAccess) | SettingsCommands.RemoveManagerUser (with SettingsCommands.ManagerUserAccess) |
| Modules/Manager.cs:40 | `/manager bal` adds the entry to the manager's copy, then saves the target's copy | manager 1 viewing user 2: the manager's logs stay as they were | save the manager's copy, so that the audit entry is kept | not executed | Management.BalanceAsWritten (shown by Management.BalanceLogLost and Management.BalanceLogLostExample) | Management.Balance |
| Modules/LogsAndTransactions.cs:78 | the detailed transaction listing prints the payer id in the payee position | a payment of 5 from user 1 to user 2 is listed with payee 1 | print the payee id | not executed | Reports.TransactionsAsWritten with Reports.DetailAsWritten (shown by Reports.DetailAsWrittenWrongPayee and Reports.DetailAsWrittenExample) | Reports.Transactions with Reports.Detail |
