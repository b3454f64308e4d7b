# AmandaBOT's CBCoin economy, modelled in Dafny

AmandaBOT is a WhatsApp group bot. Its CBCoin module runs a small virtual
economy in each group. Every (user, group) pair has one ledger record: a
balance, XP and a level, skills, an inventory, one growing crop, timed
effects, cooldown stamps and daily counters. A set of managers act on that
record: the daily reward, work, mining, fishing, farming, robbery, three
games, transfers with a tax paid into the group's bank, the shop and item
use, and levelling. Each manager reads a record, checks its preconditions,
computes an outcome and writes fields back. A command router
(`CBCoinSystem.handleCommand`) tokenises a message and lets only listed
commands through. In a group where the economy is closed, only the
administrative commands pass. The router then dispatches to a manager and
hands the XP the manager reports to the level manager. A small state
machine (`CBCoinState`) records which groups have the economy open.

Four small pieces of the bot outside the economy are modelled as well:

- the per-chat rate limiter;
- the freshness check and clearing of the group-metadata cache;
- the test for whether a message calls the bot;
- the `!ban` command's checks and its choice of whom to remove.

## How the model is built

- **The ledger** (`Ledger.Database`) is a class with three fields: a map
  from (user id, group id) to a `User` record, the transfer log (a `seq`)
  and the banks (a map from group id).
- **Record updates.** The source's `updateOne` with `$set` becomes a
  `UserPatch` with one `Option` per field. It is applied by
  `Types.ApplyPatch`, which overwrites the given fields, stamps
  `updated_at`, and does nothing for a missing key.
- **Managers.** Each manager has three parts:
  - a pure result function that says which reply is given and when
    (`Daily.ClaimDailyOutcome`, `Robbery.RobResult`, …);
  - a function that lists the writes the source issues, in its order;
  - a method on the ledger, whose `ensures` ties the reply to the result
    function and the new ledger to `Ledger.Replay` of those writes.
- **Stored-record lemmas** state what the record holds afterwards
  (`Ledger.ReplayUser` gives one key's record after a list of writes).
- **Classes.** The stateful objects of the bot are classes whose methods
  update their fields: `GroupState.CBCoinState`, `RateLimit.RateLimiter`,
  `MetadataCache.GroupMetadataManager` and `Router.CBCoinSystem`. Loops of
  the source are loops with invariants: `Levels.CalculateLevel`,
  `Levels.NewAchievements`, `Fishing.TryFishing` and
  `Inventory.ShowInventory`.
- **Parameters.** The clock (`now`, in milliseconds) and every
  `Math.random()` draw are parameters. A draw is a `Draw`, a real in
  [0, 1). The local calendar is two function parameters: `dateOf`
  gives the calendar day of an instant, and `nextReset` gives the
  midnight that starts the day after it. Whether a database or socket call fails is a `bool`
  parameter. The group metadata the socket would return is a parameter
  too.
- **Numbers.** Multipliers and rates are exact reals, rounded down with
  `.Floor` where the source calls `Math.floor`. Balances, XP and times are
  unbounded integers.

## Model

| member | source | states |
|---|---|---|
| Common.Lower | config/index.ts:46 | lowercasing keeps the length and maps each character by `LowerChar`: A to Z and À to Þ move to their small letters; no such capital is left |
| Common.TrimStart | amandacbcoin/src/CBCoinSystem.ts:96-97 | a suffix of the text whose removed characters are all white space and which does not start with white space |
| Common.TrimEnd | amandacbcoin/src/CBCoinSystem.ts:96-97 | a prefix of the text whose removed characters are all white space and which does not end with white space |
| Common.Trim | amandacbcoin/src/CBCoinSystem.ts:96-97 | the middle slice of the text left after removing white space from both ends: everything cut is white space and the result neither starts nor ends with it |
| Common.LowerIdempotent | config/index.ts:46 | lowercasing twice is lowercasing once |
| Common.Split | amandacbcoin/src/CBCoinSystem.ts:96-97 | `split(' ')` yields at least one part, and no part holds the separator |
| Common.SplitJoin | amandacbcoin/src/CBCoinSystem.ts:96-97 | joining the parts of a split with the separator gives back the text |
| Common.SplitWithoutSeparator | commands/admin/ban.ts:49 | a text without the separator splits into itself alone |
| Common.Includes | config/index.ts:54-55 | `includes` holds exactly when the pattern occurs at some position |
| Common.OnlyDigits | commands/admin/ban.ts:21 | the result is no longer than the input and holds only digits |
| Common.OnlyDigitsKeepsDigits | commands/admin/ban.ts:21 | a text of digits is kept whole |
| Common.OnlyDigitsAppend | commands/admin/ban.ts:21 | filtering distributes over concatenation, so characters keep their order |
| Common.Pick | amandacbcoin/src/work/WorkManager.ts:48 | `floor(r * n)` is a valid index of a non-empty table |
| Common.Millis | amandacbcoin/src/daily/DailyManager.ts:10-12 | a missing timestamp reads as 0, the epoch |
| Common.OrOne | amandacbcoin/src/work/WorkManager.ts:55-57 | `x \|\| 1` is never 0 and keeps any non-zero value |
| Common.FormatRemaining | amandacbcoin/src/mining/MiningManager.ts:150-162 | hours and minutes from one hour up, minutes and seconds from one minute up, else seconds; each form adds up to the time left, rounded down |
| Common.FormatAnyRemaining | amandacbcoin/src/mining/MiningManager.ts:150-162 | `formatRemainingTime` for any input: from zero up it is `FormatRemaining`, and below zero, where JavaScript's `%` truncates, it shows only seconds, between -60 and 0 |
| Common.ParseIntDigits | amandacbcoin/src/CBCoinSystem.ts:242-247 | `parseInt` of a run of digits is its decimal value |
| Common.ParseInt | amandacbcoin/src/CBCoinSystem.ts:242-247 | a text without a digit is not a number (`NaN`); a negative value needs a minus sign in the text |
| Common.ParseIntNegativeDigits | amandacbcoin/src/CBCoinSystem.ts:242-247 | `parseInt` of a minus sign and digits is the negated value, so negative stakes parse |
| Jid.UserJid | commands/admin/ban.ts:23-26 | the id is the digits of the input followed by `@s.whatsapp.net`, and only digits precede the suffix |
| Jid.UserJidIdempotent | commands/admin/ban.ts:23-26 | building a user id from a user id gives the same id |
| Types.Merge | amandacbcoin/src/database/Database.ts:112-122 | a patch never changes the record's key or its creation stamp |
| Types.ApplyPatch | amandacbcoin/src/database/Database.ts:112-122 | key and creation stamp kept, `updated_at` set to now, each of balance, XP, level and inventory taken from the patch when given and kept otherwise; an empty patch only stamps |
| Types.MergeThen | amandacbcoin/src/database/Database.ts:112-122 | two successive patches on disjoint fields act as one combined patch |
| Types.ApplyIdempotent | amandacbcoin/src/database/Database.ts:112-122 | applying the same patch twice equals applying it once at the later time |
| Types.NoChangeOnlyStamps | amandacbcoin/src/database/Database.ts:112-122 | an empty patch changes only `updated_at` |
| Ledger.NewUser | amandacbcoin/src/database/Database.ts:69-109 | a new record has the given key, the given name or the default one, balance 0, XP 0 and level 1 |
| Ledger.Fetched | amandacbcoin/src/database/Database.ts:54-110 | an existing record is returned as stored; a missing one is a new record under that key |
| Ledger.Greeted | amandacbcoin/src/database/Database.ts:57-67 | the stored record, renamed exactly when a non-empty different name is given; a missing key gives a new record under the given name |
| Ledger.Database.GetUser | amandacbcoin/src/database/Database.ts:54-110 | the record under the key is returned and stored (inserted when missing, renamed when a different name is given); no other key changes |
| Ledger.Database.UpdateUser | amandacbcoin/src/database/Database.ts:112-122 | the stored record gets exactly the patch's fields and a new `updated_at`; other keys and a missing key are untouched |
| Ledger.Store | amandacbcoin/src/database/Database.ts:112-122 | one write keeps the key set, changes only its own key and applies the patch there |
| Ledger.ReplayOthers | amandacbcoin/src/database/Database.ts:112-122 | a key that no write names keeps its record |
| Ledger.ReplayKeyed | amandacbcoin/src/database/Database.ts:112-122 | every record stays stored under its own (user, group) key |
| Ledger.ReplayAtKey | amandacbcoin/src/database/Database.ts:112-122 | the ledger after a list of writes holds, at each key, that key's record after the writes naming it |
| Ledger.Database.TopUsers | amandacbcoin/src/database/Database.ts:124-130 | the group's records only, each once, sorted by balance descending, ten of them or all when fewer |
| Ledger.InsertByBalanceOrdered | amandacbcoin/src/database/Database.ts:124-130 | inserting into a list sorted by balance keeps it sorted |
| Ledger.CollectedByBalanceOf | amandacbcoin/src/database/Database.ts:124-130 | the sorted list holds exactly the records of the chosen keys, without repeats |
| Ledger.Database.AddToInventory | amandacbcoin/src/database/Database.ts:132-140 | the item is appended to the stored inventory; a missing key changes nothing |
| Ledger.Database.RemoveFromInventory | amandacbcoin/src/database/Database.ts:142-150 | every entry with that id is removed from the stored inventory; a missing key changes nothing |
| Ledger.WithoutId | amandacbcoin/src/database/Database.ts:142-150 | the kept entries are exactly those with another id |
| Ledger.WithoutIdIdempotent | amandacbcoin/src/database/Database.ts:142-150 | removing an id twice is removing it once |
| Ledger.Database.AddAchievement | amandacbcoin/src/database/Database.ts:169-177 | the achievement is added to the stored list as to a set |
| Ledger.AddToSet | amandacbcoin/src/database/Database.ts:169-177 | a held achievement leaves the list unchanged; a new one is appended |
| Ledger.AddToSetIdempotent | amandacbcoin/src/database/Database.ts:169-177 | adding the same achievement twice is adding it once |
| Ledger.AddToSetKeepsDistinct | amandacbcoin/src/database/Database.ts:169-177 | a list without repeats stays without repeats |
| Ledger.Database.DailyTransfers | amandacbcoin/src/database/Database.ts:179-192 | exactly the logged transfers of that sender made in the day from `date`, across all groups |
| Ledger.SentBetweenMembers | amandacbcoin/src/database/Database.ts:179-192 | a transfer is selected exactly when its sender and time match |
| Ledger.SentTotalAppend | amandacbcoin/src/database/Database.ts:179-192 | a new log entry adds its amount to the day's total exactly when it falls in the window |
| Ledger.Database.AddTransfer | amandacbcoin/src/database/Database.ts:194-196 | the transfer is appended to the log |
| Ledger.Database.GetBank | amandacbcoin/src/database/Database.ts:198-217 | an existing bank is returned unchanged; a missing one is created zeroed and stored |
| Ledger.BankAfterTax | amandacbcoin/src/database/Database.ts:219-232 | the tax is added to the balance and the tax total and the transfer count grows by one, starting from zero when there is no bank |
| Ledger.Database.UpdateBank | amandacbcoin/src/database/Database.ts:219-232 | the group's bank is upserted as `BankAfterTax` and no other bank changes |
| GroupState.Open | amandacbcoin/src/CBCoinState.ts:39-65 | an active group is refused with nothing changed; a failed write changes nothing; otherwise the group becomes active and its row is upserted active, stamped now, with the creation stamp kept or set to now; no other group's row changes |
| GroupState.Close | amandacbcoin/src/CBCoinState.ts:67-89 | an inactive group is refused with nothing changed; a failed write changes nothing; otherwise the group becomes inactive and an existing row is marked inactive and stamped, while a missing row stays missing; no other group's row changes |
| GroupState.OpenCloseMirror | amandacbcoin/src/CBCoinState.ts:39-89 | the in-memory set stays equal to the stored rows marked active |
| GroupState.OpenThenClose | amandacbcoin/src/CBCoinState.ts:39-89 | after opening, a second open is refused and a close restores the original active set |
| GroupState.FailedWriteChangesNothing | amandacbcoin/src/CBCoinState.ts:45-63 | when the write throws, neither the set nor the rows change |
| GroupState.CBCoinState.Connect | amandacbcoin/src/CBCoinState.ts:29-30 | the groups stored as active are loaded into the set |
| GroupState.CBCoinState.OpenCBCoin | amandacbcoin/src/CBCoinState.ts:39-65 | the object's state and reply are those of `Open` |
| GroupState.CBCoinState.CloseCBCoin | amandacbcoin/src/CBCoinState.ts:67-89 | the object's state and reply are those of `Close` |
| GroupState.CBCoinState.IsActive | amandacbcoin/src/CBCoinState.ts:91-93 | true exactly for groups in the active set |
| Router.ExtractText | amandacbcoin/src/utils/messageUtils.ts:3-8 | the conversation, else the extended text, else the image caption; empty exactly when the message has none of them |
| Router.GameText | amandacbcoin/src/CBCoinSystem.ts:225-227 | the games' text equals the extracted text whenever the message has a conversation or an extended text, and is empty otherwise |
| Router.CaptionOnlyGamesRefused | amandacbcoin/src/CBCoinSystem.ts:225-231 | a message whose only text is a caption gets the flip's and the slots' usage reply |
| Router.Tokens | amandacbcoin/src/CBCoinSystem.ts:96-97 | the tokens are space-free, there is at least one, and joined with spaces they give the trimmed, lowercased text |
| Router.GateOf | amandacbcoin/src/CBCoinSystem.ts:89-114 | empty text, a first word outside the command list, and a non-administrative command in a closed group are each stopped, exactly then; otherwise the command and its arguments go on |
| Router.SwitchCase | amandacbcoin/src/CBCoinSystem.ts:120-414 | a word selects a `case` exactly when it is one of the `switch`'s labels (`CaseWords`), each a `!` and 3 to 12 more characters |
| Router.CasesMatchList | amandacbcoin/src/CBCoinSystem.ts:62-87 | a word has a `case` exactly when it is in the command list, except `!menuagricultura` (listed, no case) and `!apostar` (a case, not listed) |
| Router.ListedHaveCases | amandacbcoin/src/CBCoinSystem.ts:120-414 | each listed command word but `!menuagricultura` has a `case` in the `switch` |
| Router.ClosedGroupOnlyAdmin | amandacbcoin/src/CBCoinSystem.ts:111-114 | in a closed group only the four administrative commands pass; in an open group every listed command passes |
| Router.FlipDecision | amandacbcoin/src/CBCoinSystem.ts:222-260 | the raw text needs three words, a side of `cara` or `coroa`, a number and level 2; each refusal comes exactly when its check is the first to fail, and the flip runs exactly when all pass, with that side and amount |
| Router.SlotsDecision | amandacbcoin/src/CBCoinSystem.ts:262-292 | the raw text needs two words, a number and level 2; each refusal comes exactly when its check is the first to fail, and the spin runs exactly when all pass, with that amount |
| Router.PayDecision | amandacbcoin/src/CBCoinSystem.ts:304-333 | two arguments and a number are needed, and a receiver equal to the sender is refused, each exactly then; the transfer runs exactly when all pass, to the id built from the first argument |
| Router.Decide | amandacbcoin/src/CBCoinSystem.ts:120-414 | the branch each command word selects: the argument checks of rob, buy, use and plant, the three decisions above, the crop view, and `default` refusing exactly the words without a case |
| Router.ApostarUnreachable | amandacbcoin/src/CBCoinSystem.ts:224 | `!apostar` has a flip case but is stopped at the gate as unknown, so the case never runs |
| Router.MenuAgriculturaUnhandled | amandacbcoin/src/CBCoinSystem.ts:82 | `!menuagricultura` passes the gate but has no case and is refused by `default` |
| Router.CropStatusOf | amandacbcoin/src/CBCoinSystem.ts:368-376 | growing before the ripe time, ready until the deadline, "may rot" from the deadline on |
| Router.DeadlineViewDisagrees | amandacbcoin/src/CBCoinSystem.ts:368-376 | at the very deadline the view says "may rot" while a harvest still succeeds, for 0 coins |
| Router.OnSale | amandacbcoin/src/CBCoinSystem.ts:161-165 | the listed items are exactly the catalogue items on sale |
| Router.XpOf | amandacbcoin/src/CBCoinSystem.ts:416-423 | only work, robbery, mining and fishing report XP, each the amount its manager granted |
| Router.CBCoinSystem.HandleCommand | amandacbcoin/src/CBCoinSystem.ts:89-434 | the gate reads the extracted text and the games their own text; a stopped message changes nothing; otherwise the record is read and greeted, the `switch` decides, the manager runs as its own contract says, and the XP is added |
| Router.CBCoinSystem.Serve | amandacbcoin/src/CBCoinSystem.ts:116-414 | a refused command changes only the greeting; a decided one runs and then awards XP |
| Router.CBCoinSystem.Greet | amandacbcoin/src/CBCoinSystem.ts:116 | the sender's record as `getUser` returns and stores it; nothing else changes |
| Router.CBCoinSystem.Execute | amandacbcoin/src/CBCoinSystem.ts:120-414 | each branch's manager answers as its result function says and the ledger, log, banks and groups change as its writes say |
| Router.CBCoinSystem.AwardXP | amandacbcoin/src/CBCoinSystem.ts:416-423 | with no XP nothing more is written; otherwise `addXP` runs on the record as read before the manager |
| Router.CBCoinSystem.AddEarnedXP | amandacbcoin/src/CBCoinSystem.ts:418 | only the records change, by the write `addXP` computes; a level-up is reported exactly when the level rose |
| Daily.DailyReward | amandacbcoin/src/daily/DailyManager.ts:21-23 | the reward lies in [1000, 1499] |
| Daily.ClaimDailyOutcome | amandacbcoin/src/daily/DailyManager.ts:7-34 | a claim within 10 s of the last is refused without writes, with the whole seconds left; otherwise one write sets `last_daily` and adds the reward |
| Daily.ClaimDaily | amandacbcoin/src/daily/DailyManager.ts:7-34 | the reply and the new ledger are those of `ClaimDailyOutcome` |
| Daily.DailyNeverLowersBalance | amandacbcoin/src/daily/DailyManager.ts:21-28 | the balance never falls, and grows by exactly the reward on a claim |
| Daily.DailyBoundaryPays | amandacbcoin/src/daily/DailyManager.ts:12-20 | a claim exactly 10 s after the last one pays |
| Work.WorkPay | amandacbcoin/src/work/WorkManager.ts:55-61 | a multiplier of 0 (absent) or 1 pays the base amount; a larger one pays at least that |
| Work.WorkOutcome | amandacbcoin/src/work/WorkManager.ts:34-80 | refused within 10 s with a reported wait that is always 0; otherwise a table job, `last_work` written first, pay and XP in [40, 79] exactly when the draw is below the job's rate |
| Work.DoWork | amandacbcoin/src/work/WorkManager.ts:34-80 | the reply and the new ledger are those of `WorkOutcome` |
| Work.JobsWellFormed | amandacbcoin/src/work/WorkManager.ts:4-29 | every job pays a positive base with a success rate strictly between 0 and 1 |
| Work.WorkStoredRecord | amandacbcoin/src/work/WorkManager.ts:51-79 | paid work adds pay and XP and stamps `last_work`; failed work only stamps it; a refusal changes nothing |
| Mining.MineResetWrites | amandacbcoin/src/mining/MiningManager.ts:50-56 | on a new calendar day the count is reset and the reset time stamped; otherwise nothing |
| Mining.MinePayout | amandacbcoin/src/mining/MiningManager.ts:81-83 | the payout lies in [1000, 4999] |
| Mining.SpecialItem | amandacbcoin/src/mining/MiningManager.ts:164-166 | the found item is one of the special items |
| Mining.MineResult | amandacbcoin/src/mining/MiningManager.ts:46-125 | refused at 50 mines today, showing the time from now to the midnight after the stored reset stamp (or after now); then refused within 10 s; otherwise the payout, an item exactly when the find draw is below 0.1, XP in [50, 99] exactly when an item was found or the payout exceeds 3000 |
| Mining.MinePatch | amandacbcoin/src/mining/MiningManager.ts:94-104 | the update stamps `last_mine`, counts the mine and adds the payout, and writes the inventory only when an item was appended |
| Mining.MineWrites | amandacbcoin/src/mining/MiningManager.ts:46-125 | the reset comes first; a refusal writes nothing more; a mine adds one or two writes |
| Mining.Mine | amandacbcoin/src/mining/MiningManager.ts:46-125 | the reply and the new ledger are those of `MineResult` and `MineWrites` |
| Mining.Dig | amandacbcoin/src/mining/MiningManager.ts:80-113 | past the cap and the cooldown, the reply is `MineResult`'s payout and the ledger gets the payout update, then the XP update |
| Mining.MineStoredRecord | amandacbcoin/src/mining/MiningManager.ts:86-113 | after a mine the count is one more than today's, the balance grows by the payout, the inventory by exactly the found item, the XP by the granted XP |
| Mining.MineXPStage | amandacbcoin/src/mining/MiningManager.ts:86-113 | the XP update after the payout changes only the XP (and the stamp) of the stored record |
| Mining.RefusedMineOnlyResets | amandacbcoin/src/mining/MiningManager.ts:59-78 | a refused mine changes at most the daily reset |
| Mining.MineBoundaryAllowed | amandacbcoin/src/mining/MiningManager.ts:69-78 | mining exactly 10 s after the last one is allowed |
| Robbery.RobCeiling | amandacbcoin/src/robbery/RobberyManager.ts:49-50 | the ceiling is at most 5000 and at most the target's balance |
| Robbery.RobAmount | amandacbcoin/src/robbery/RobberyManager.ts:49-50 | the amount is non-negative, below the ceiling and at most the target's balance |
| Robbery.SuccessChance | amandacbcoin/src/robbery/RobberyManager.ts:51-52 | the chance is `0.6 + rob_chance` capped at 0.9, reaching 0.9 exactly from 0.3 up |
| Robbery.Fine | amandacbcoin/src/robbery/RobberyManager.ts:75-77 | the fine is half the amount, rounded down |
| Robbery.RobResetWrites | amandacbcoin/src/robbery/RobberyManager.ts:11-17 | on a new calendar day the count is reset and the reset time stamped; otherwise nothing |
| Robbery.RobResult | amandacbcoin/src/robbery/RobberyManager.ts:7-88 | refused at 50 robberies today, showing the time to the midnight after the stored reset stamp (or after now); then within 10 s, or for a target under 100; otherwise robbed exactly when the draw is below the chance, taking an amount the target has, with XP in [60, 119], else caught with the fine |
| Robbery.RobberWrite | amandacbcoin/src/robbery/RobberyManager.ts:54-81 | the robber's update stamps `last_rob`, counts the robbery and sets the balance |
| Robbery.Rob | amandacbcoin/src/robbery/RobberyManager.ts:7-88 | the reply and the new ledger are those of `RobResult` and the robbery's writes |
| Robbery.DefaultSkillsSucceedAtNinety | amandacbcoin/src/robbery/RobberyManager.ts:51-52 | with the default `rob_chance` of 1 the chance is 0.9 |
| Robbery.RobberySuccessConserves | amandacbcoin/src/robbery/RobberyManager.ts:54-74 | a robbery moves the amount from target to robber, the pair's total is kept and the target stays non-negative |
| Robbery.CaughtChangesOnlyRobber | amandacbcoin/src/robbery/RobberyManager.ts:75-87 | a caught robber pays the fine and is counted; the target is untouched |
| Robbery.CaughtRobberGoesNegative | amandacbcoin/src/robbery/RobberyManager.ts:75-87 | a robber with 0 coins caught robbing a target of 10000 ends at -750 |
| Robbery.SelfRobberyLoses | amandacbcoin/src/robbery/RobberyManager.ts:54-74 | robbing oneself "successfully" lowers one's balance by the amount |
| Robbery.RefusedRobberyOnlyResets | amandacbcoin/src/robbery/RobberyManager.ts:20-47 | a refused robbery changes at most the robber's daily reset |
| Fishing.RodById | amandacbcoin/src/fishing/FishingManager.ts:52-83 | the rod with that id is in the rod table |
| Fishing.FindFishingRod | amandacbcoin/src/fishing/FishingManager.ts:177-185 | no rod exactly when no inventory entry has a rod id; otherwise the rod of the first such entry |
| Fishing.FirstCatch | amandacbcoin/src/fishing/FishingManager.ts:193-198 | a catch is always one of the listed fish |
| Fishing.FishingCatch | amandacbcoin/src/fishing/FishingManager.ts:187-221 | damage lies in [1, 3]; a catch pays the fish's value and XP; no catch pays 0 coins and 10 XP |
| Fishing.TryFishing | amandacbcoin/src/fishing/FishingManager.ts:187-221 | the loop's catch is `FishingCatch` |
| Fishing.FirstCatchScaleFree | amandacbcoin/src/fishing/FishingManager.ts:193-198 | scaling both sides of the test by the rod's multiplier gives the same catch as no multiplier |
| Fishing.RodDoesNotMatter | amandacbcoin/src/fishing/FishingManager.ts:189-198 | every rod gives the same catch for the same draws |
| Fishing.OnlySardinha | amandacbcoin/src/fishing/FishingManager.ts:187-221 | a fish is caught exactly when the draw is at most 0.4, and it is always the Sardinha |
| Fishing.FishResetWrites | amandacbcoin/src/fishing/FishingManager.ts:96-102 | on a new calendar day the count is reset and the reset time stamped; otherwise nothing |
| Fishing.FishResult | amandacbcoin/src/fishing/FishingManager.ts:91-175 | refused at 50 today, showing the time to the midnight after the stored reset stamp (or after now); then within 30 s, or without a rod; otherwise the catch of the first rod |
| Fishing.FishAttempt | amandacbcoin/src/fishing/FishingManager.ts:139-146 | the update stamps `last_fish`, counts the attempt and adds the coins and XP |
| Fishing.FishWrites | amandacbcoin/src/fishing/FishingManager.ts:91-175 | the reset, then one attempt write on a catch attempt and nothing otherwise |
| Fishing.GoFishing | amandacbcoin/src/fishing/FishingManager.ts:91-175 | the reply and the new ledger are those of `FishResult` and `FishWrites` |
| Fishing.FishingKeepsInventory | amandacbcoin/src/fishing/FishingManager.ts:139-160 | after fishing the inventory is unchanged (rod wear is never stored) while coins, XP and the count grow |
| Farming.FindSeed | amandacbcoin/src/farming/FarmingManager.ts:111 | no seed exactly when no entry has that id; otherwise an entry with it |
| Farming.FindCrop | amandacbcoin/src/farming/FarmingManager.ts:143 | no crop exactly when no entry has that id; otherwise an entry with it |
| Farming.SeedsHaveCrops | amandacbcoin/src/farming/FarmingManager.ts:6-80 | every seed names a crop of the table, with a positive harvest window |
| Farming.PlantResult | amandacbcoin/src/farming/FarmingManager.ts:89-173 | refused with a crop growing, an unknown seed, a level below the seed's or a balance below its price, each exactly then; otherwise the seed's CROPS entry, planted now and ripe after the growth time, for the price |
| Farming.PlantNeverMissesCrop | amandacbcoin/src/farming/FarmingManager.ts:143-151 | the "crop not found" reply is never given |
| Farming.Plant | amandacbcoin/src/farming/FarmingManager.ts:89-173 | the reply and the new ledger are those of `PlantResult` and its writes |
| Farming.PlantKeepsOneCrop | amandacbcoin/src/farming/FarmingManager.ts:101-164 | at most one crop stays at most one, a non-negative balance stays so, and a refusal changes nothing |
| Farming.HarvestFactor | amandacbcoin/src/farming/FarmingManager.ts:225-226 | the factor is non-negative and falls linearly from 1 to 0 over the window |
| Farming.HarvestShare | amandacbcoin/src/farming/FarmingManager.ts:225-228 | the share is the integer quotient of the value times the time left by the window, between 0 and the value |
| Farming.ShareIsQuotient | amandacbcoin/src/farming/FarmingManager.ts:225-228 | the floor of the real product equals that integer quotient |
| Farming.HarvestShareFalls | amandacbcoin/src/farming/FarmingManager.ts:225-228 | a later harvest never yields more |
| Farming.HarvestResult | amandacbcoin/src/farming/FarmingManager.ts:175-247 | no crop, not yet ripe, rotted (strictly after the deadline) and harvested are each given exactly then; the harvest pays the falling share of value and XP |
| Farming.Harvest | amandacbcoin/src/farming/FarmingManager.ts:175-247 | the reply and the new ledger are those of `HarvestResult` and its writes |
| Farming.Collect | amandacbcoin/src/farming/FarmingManager.ts:231-238 | a ripe harvest writes the coins, stamp and cleared crop, then the XP update of the record it left, and the ledger is those two writes replayed |
| Farming.HarvestedRecord | amandacbcoin/src/farming/FarmingManager.ts:211-238 | a harvest credits the coins, clears the crop and raises the level by at most one; a rotted crop is only cleared; a refusal changes nothing |
| Games.CoinSide | amandacbcoin/src/games/GamesManager.ts:20 | the coin shows `cara` or `coroa` |
| Games.FlipProfitIsEightTenths | amandacbcoin/src/games/GamesManager.ts:24-27 | `floor(1.8 a) - a` is `floor(0.8 a)`, positive from the minimum stake up |
| Games.FlipResult | amandacbcoin/src/games/GamesManager.ts:11-41 | refused below 100 or above the balance; won exactly when the coin shows the choice, paying the profit; otherwise the stake is lost |
| Games.PlayFlip | amandacbcoin/src/games/GamesManager.ts:11-41 | the reply and the new ledger are those of `FlipResult` and its write |
| Games.FlipRecord | amandacbcoin/src/games/GamesManager.ts:20-39 | a win raises the balance, a loss keeps it non-negative, a refusal changes nothing |
| Games.SlotsMultiplierLadder | amandacbcoin/src/games/GamesManager.ts:59-66 | 10 for three sevens, 7 for three diamonds, 3 for another triple, 1.5 for one adjacent pair, and 0 when only the outer symbols match |
| Games.SlotsMultiplier | amandacbcoin/src/games/GamesManager.ts:59-66 | one of 0, 1.5, 3, 7 and 10; it pays exactly when an adjacent pair matches, at least 3 exactly on a triple, and 10 exactly on three sevens |
| Games.SlotsProfitSign | amandacbcoin/src/games/GamesManager.ts:68-86 | a paying spin never loses, a blank loses the stake |
| Games.SlotsResult | amandacbcoin/src/games/GamesManager.ts:43-88 | refused below 100 or above the balance; otherwise three symbols, their multiplier and the net change |
| Games.PlaySlots | amandacbcoin/src/games/GamesManager.ts:43-88 | the reply and the new ledger are those of `SlotsResult` and its write |
| Games.SlotsRecord | amandacbcoin/src/games/GamesManager.ts:68-86 | a spin changes the balance by its net, keeping it non-negative |
| Games.ColorOf | amandacbcoin/src/games/GamesManager.ts:101-107 | 0 is green, the listed numbers red, the rest black |
| Games.RouletteResult | amandacbcoin/src/games/GamesManager.ts:90-131 | a bet outside [100, 50000] or above the balance is refused; a spin lands on 0..36 and pays 14 or 2 times the bet exactly when the colour matches |
| Games.Roulette | amandacbcoin/src/games/GamesManager.ts:90-131 | the reply and the new ledger are those of `RouletteResult` and its write |
| Games.RouletteRecord | amandacbcoin/src/games/GamesManager.ts:118-120 | a spin changes the balance by prize minus bet, keeping it non-negative |
| Games.GreenWinsOnlyOnZero | amandacbcoin/src/games/GamesManager.ts:101-115 | a bet on green wins exactly on 0, and then nets 13 times the bet |
| Transfers.TransferTax | amandacbcoin/src/transfer/TransferManager.ts:63-64 | the tax is 5% rounded down and never exceeds the amount |
| Transfers.TransferResult | amandacbcoin/src/transfer/TransferManager.ts:12-106 | below 100, above 1000000, above the balance, and over the daily 5000000 are each refused exactly then; otherwise tax plus received equals the amount |
| Transfers.Send | amandacbcoin/src/transfer/TransferManager.ts:12-106 | a refusal changes nothing; a transfer debits the sender, credits the receiver (created if missing), logs one entry and taxes the group's bank |
| Transfers.TransferConserves | amandacbcoin/src/transfer/TransferManager.ts:67-85 | sender's debit equals receiver's credit plus the tax, and the sender stays non-negative |
| Transfers.SelfTransferMints | amandacbcoin/src/transfer/TransferManager.ts:67-73 | a transfer to oneself leaves the sender richer by the amount minus tax |
| Transfers.DailyTotalGrows | amandacbcoin/src/transfer/TransferManager.ts:41-51 | a transfer adds its amount to the sender's total for the day, which stays within the cap |
| Transfers.OtherSendersUnaffected | amandacbcoin/src/transfer/TransferManager.ts:41-51 | another sender's daily total is unchanged by the new entry |
| Shop.StripMarks | src/shop/ShopManager.ts:120-121 | no combining mark is left, and a text without marks is kept |
| Shop.PlainWord | src/shop/ShopManager.ts:119-121 | a lowercase ASCII word is its own search word |
| Shop.FirstNameMatch | src/shop/ShopManager.ts:124-127 | the first item whose id equals the word or whose name contains it |
| Shop.FirstKeywordMatch | src/shop/ShopManager.ts:131-136 | the first item with the word as a keyword |
| Shop.FindIndex | src/shop/ShopManager.ts:124-139 | the first id or name match wins; a keyword match is taken only when no item matches by id or name |
| Shop.FindItem | src/shop/ShopManager.ts:115-140 | an empty term finds nothing; a found item is in the catalogue and matches the first word by name or keyword; nothing is found only when no item matches either way |
| Shop.FindIn | src/shop/ShopManager.ts:115-140 | an empty term finds nothing; otherwise the item `FindIndex` picks for the first word |
| Shop.BuyResult | src/shop/ShopManager.ts:142-172 | refused without a name, for an unknown or unavailable item, below its level, or without the price, each exactly then, with the missing amount; otherwise bought |
| Shop.BuyItem | src/shop/ShopManager.ts:142-172 | the reply and the new ledger are those of `BuyResult` and its write |
| Shop.PurchaseRecord | src/shop/ShopManager.ts:163-169 | a purchase takes the price, keeping the balance non-negative, and appends the item; a refusal changes nothing |
| Inventory.Count | amandacbcoin/src/inventory/InventoryManager.ts:21-32 | an id occurs no more often than there are entries |
| Inventory.CountRemove | amandacbcoin/src/inventory/InventoryManager.ts:83 | removing one entry lowers its id's count by one |
| Inventory.GroupedIsListing | amandacbcoin/src/inventory/InventoryManager.ts:18-32 | the groups have distinct ids, each quantity is that id's count, and each group holds the first entry with its id |
| Inventory.GroupedTotal | amandacbcoin/src/inventory/InventoryManager.ts:18-32 | the quantities add up to the number of entries |
| Inventory.ShowInventory | amandacbcoin/src/inventory/InventoryManager.ts:13-45 | "empty" exactly for an empty inventory; otherwise the listing of the grouped entries |
| Inventory.EffectDuration | amandacbcoin/src/inventory/InventoryManager.ts:70-80 | 24 h exactly for the shield, 5 h exactly for the star and the crystal, otherwise 1 h |
| Inventory.SkillsAfter | amandacbcoin/src/inventory/InventoryManager.ts:90-108 | XP boost and work multiplier are multiplied, rob chance becomes -1 for -1 and is increased otherwise; fishing and farming items change no skill |
| Inventory.FirstUsable | amandacbcoin/src/inventory/InventoryManager.ts:56-59 | the first entry whose id equals the term or whose name contains it |
| Inventory.UseResult | amandacbcoin/src/inventory/InventoryManager.ts:47-63 | an empty inventory and a term no entry matches are each refused exactly then; otherwise the first matching entry is used |
| Inventory.UseItem | amandacbcoin/src/inventory/InventoryManager.ts:47-121 | the reply and the new ledger are those of `UseResult` and its write |
| Inventory.UseRecord | amandacbcoin/src/inventory/InventoryManager.ts:82-118 | one entry, the used one, is removed with the others kept in order; skills and the effect's expiry are written; a refusal changes nothing |
| Inventory.BlankNameUsesFirst | amandacbcoin/src/inventory/InventoryManager.ts:53-59 | a blank item name uses the first entry |
| Levels.XPForLevelAtLeastBase | amandacbcoin/src/levels/LevelManager.ts:15-17 | a level needs at least 1000 XP, and level 1 exactly 1000 |
| Levels.XPForLevel | amandacbcoin/src/levels/LevelManager.ts:15-17 | every level from 1 up needs at least 1000 XP, and level 1 exactly 1000 |
| Levels.XPForLevelIncreasing | amandacbcoin/src/levels/LevelManager.ts:15-17 | each level needs more XP than the one before |
| Levels.XPForLevelMonotone | amandacbcoin/src/levels/LevelManager.ts:15-17 | a higher level needs more XP |
| Levels.CumulativeXP | amandacbcoin/src/levels/LevelManager.ts:19-33 | the XP of the first n levels is at least 1000 n |
| Levels.LevelFrom | amandacbcoin/src/levels/LevelManager.ts:23-26 | the loop's level is the first whose cumulative XP exceeds the XP |
| Levels.LevelOfBand | amandacbcoin/src/levels/LevelManager.ts:19-33 | for XP ≥ 0 the level is at least 1 and the XP lies in its band |
| Levels.LevelOfMonotone | amandacbcoin/src/levels/LevelManager.ts:23-26 | more XP never means a lower level |
| Levels.CalculateLevel | amandacbcoin/src/levels/LevelManager.ts:19-33 | the loop returns the level of the XP, the XP into that level and the XP the level needs |
| Levels.LevelInfoBounds | amandacbcoin/src/levels/LevelManager.ts:19-33 | the XP into the level is non-negative and below what the level needs |
| Levels.LevelReward | amandacbcoin/src/levels/LevelManager.ts:72-80 | the reward is positive exactly for levels 2 to 5 |
| Levels.LevelRewardIncreasing | amandacbcoin/src/levels/LevelManager.ts:72-80 | the reward grows from level 2 to level 5 |
| Levels.AddXPWrite | amandacbcoin/src/levels/LevelManager.ts:37-62 | XP and the level of the new XP are always written; the balance only on a level increase, by the reward of the final level |
| Levels.AddXPRaisesLevel | amandacbcoin/src/levels/LevelManager.ts:37-42 | non-negative XP never lowers the level, and raises it exactly when the new XP reaches the next band |
| Levels.AddXP | amandacbcoin/src/levels/LevelManager.ts:35-70 | the ledger gets `AddXPWrite`; a level-up reports old and new level and the reward, otherwise the XP added, the progress into the new level and the XP that level needs |
| Levels.AchievementTable | amandacbcoin/src/levels/LevelManager.ts:158-165 | the six achievements and their conditions |
| Levels.Unearned | amandacbcoin/src/levels/LevelManager.ts:167-171 | exactly the achievements whose condition holds and that are not held |
| Levels.NewAchievements | amandacbcoin/src/levels/LevelManager.ts:155-171 | the loop collects `Unearned` |
| Levels.NewAchievementsAreNew | amandacbcoin/src/levels/LevelManager.ts:158-171 | a new achievement is not held and its condition holds (a million coins, level 20, ten items) |
| Levels.CheckAchievements | amandacbcoin/src/levels/LevelManager.ts:155-181 | the new achievements are returned; nothing is written when there are none, otherwise old then new |
| Levels.UnearnedDistinct | amandacbcoin/src/levels/LevelManager.ts:167-171 | the new achievements hold no repeats |
| Levels.AchievementsStayDistinct | amandacbcoin/src/levels/LevelManager.ts:173-178 | a list without repeats stays without repeats |
| Levels.LevelUpWrite | amandacbcoin/src/levels/LevelManager.ts:307-317 | a write exactly when the XP reaches the next level's need; it raises the level by one and adds 1000 per new level |
| Levels.CheckLevelUp | amandacbcoin/src/levels/LevelManager.ts:307-325 | the bonus and the new ledger are those of `LevelUpWrite`; no level-up writes nothing |
| Levels.LevelUpBonusGrows | amandacbcoin/src/levels/LevelManager.ts:311-316 | a level-up adds at least 1000, and one from a higher level adds strictly more |
| Levels.ProgressBar | amandacbcoin/src/levels/LevelManager.ts:327-338 | ten cells, the filled ones and the percentage clamped to the bar, full at the maximum and empty at 0 |
| Levels.ProgressBarTens | amandacbcoin/src/levels/LevelManager.ts:332-335 | the filled cells are the percentage's tens |
| Levels.InsertRanked | amandacbcoin/src/levels/LevelManager.ts:135 | one insertion step grows the list by one, with the new user or the old head first |
| Levels.InsertPos | amandacbcoin/src/levels/LevelManager.ts:135 | the insertion point is within the list, and the entry there, if any, ranks below the new user |
| Levels.InsertPosAfterHigher | amandacbcoin/src/levels/LevelManager.ts:135 | every entry before the insertion point ranks at least as high as the new user, ties included, so the new user goes after the equal entries of that run |
| Levels.InsertRankedSplices | amandacbcoin/src/levels/LevelManager.ts:135 | insertion splices the user in at the insertion point and keeps every other entry in its order |
| Levels.InsertRankedPermutes | amandacbcoin/src/levels/LevelManager.ts:135 | insertion adds the user to the list, as a multiset |
| Levels.InsertRankedKeepsRanked | amandacbcoin/src/levels/LevelManager.ts:135 | inserting keeps the order by level, then XP, descending |
| Levels.LeaderboardOrder | amandacbcoin/src/levels/LevelManager.ts:135 | the sorted list is a permutation of the input |
| Levels.LeaderboardOrderRanked | amandacbcoin/src/levels/LevelManager.ts:135 | the sorted list is ordered by level, then XP, descending |
| XpUtil.LevelThreshold | amandacbcoin/src/utils/xp.ts:14 | from level 1 up the threshold is at least 100 |
| XpUtil.XpBoostOf | amandacbcoin/src/utils/xp.ts:8 | the boost is 1 without an XP-boost effect, else the effect's non-zero value |
| XpUtil.BoostedXP | amandacbcoin/src/utils/xp.ts:8-9 | without a boost the XP is unchanged; a boost of 1 or more never lowers it |
| XpUtil.XPWriteEffect | amandacbcoin/src/utils/xp.ts:11-25 | reaching the threshold raises the level by exactly one and keeps the excess XP; otherwise only XP grows |
| XpUtil.AddXP | amandacbcoin/src/utils/xp.ts:3-27 | the record is read (or created) and then gets the write `XPWriteEffect` describes |
| XpUtil.SchemesDisagree | amandacbcoin/src/utils/xp.ts:14-25 | 100 XP take a new user to level 2 with 0 XP here, which the level manager's curve calls level 1 |
| XPStep.LevelUpBalanceFromSnapshot | amandacbcoin/src/CBCoinSystem.ts:416-423 | on a level-up the balance becomes the pre-action snapshot's plus the reward, overwriting what the manager wrote |
| XPStep.WorkPayLostOnLevelUp | amandacbcoin/src/CBCoinSystem.ts:129-136 | paid work that crosses a level loses its pay: the final balance is the old one plus the level reward |
| RateLimit.LimitFor | AmandaBOT.ts:34-41 | 10 messages for a private chat, 20 for a group |
| RateLimit.Check | AmandaBOT.ts:39-57 | after resetting an expired window (which also drops the chat's pending timer), a chat below its limit passes and is counted once, one at the limit is refused with nothing more changed, and no other chat is touched |
| RateLimit.RateLimiter.CanProcess | AmandaBOT.ts:39-57 | the answer and the limiter's maps are those of `Check` |
| RateLimit.AtMostLimitPerWindow | AmandaBOT.ts:44-56 | within one window the calls let through never take the count past the limit |
| RateLimit.RefusedUntilWindowEnds | AmandaBOT.ts:50-53 | once at the limit, every call in the window is refused and nothing changes |
| RateLimit.FreshWindowPasses | AmandaBOT.ts:44-48 | the first call after the window passes and counts as one |
| RateLimit.Registered | AmandaBOT.ts:59-70 | only the chat's timer changes, now due 30 s later; other chats' timers and all counts and windows are kept |
| RateLimit.RateLimiter.WaitForCooldown | AmandaBOT.ts:59-70 | the limiter's maps become those of `Registered` |
| RateLimit.RateLimiter.CooldownElapsed | AmandaBOT.ts:61-65 | when the timer fires, the count goes to 0, the window restarts at the firing time and the timer is dropped |
| RateLimit.CooldownReopens | AmandaBOT.ts:50-70 | after a refusal and its fired cooldown, the next call passes at any time and counts as the first |
| RateLimit.NewWindowCancelsTimer | AmandaBOT.ts:44-48 | a call within the window keeps the pending timer; a call in a new window clears it |
| MetadataCache.Fresh | AmandaBOT.ts:99-102 | the cached metadata is used exactly when there is some and it is less than five minutes old |
| MetadataCache.Cleared | AmandaBOT.ts:162-170 | clearing one group drops only its entries; clearing all empties both maps |
| MetadataCache.GroupMetadataManager.GetGroupMetadata | AmandaBOT.ts:94-122 | a fresh entry is returned with nothing changed; otherwise the fetched metadata is stored, stamped with now, and returned |
| MetadataCache.GroupMetadataManager.ClearCache | AmandaBOT.ts:162-170 | the maps become those of `Cleared` |
| MetadataCache.StoredServedForTtl | AmandaBOT.ts:99-118 | metadata just stored is served for five minutes and not after |
| MetadataCache.ClearedLookups | AmandaBOT.ts:162-170 | a cleared group's next lookup misses and other groups' lookups are unchanged |
| Activation.IsAmandaActivated | config/index.ts:45-67 | false for a bare prefix; otherwise true exactly when the lowercased text starts with `!`, contains `amanda` or `amandinha`, or is a mention or a reply |
| Activation.NameNotInNickname | config/index.ts:54-55 | `amanda` does not occur in `amandinha` |
| Activation.NicknameNeedsOwnTest | config/index.ts:53-55 | the bare nickname has no prefix and no `amanda`, so it calls the bot only through the `amandinha` test |
| Activation.BarePrefixIgnored | config/index.ts:49-51 | `!` and `! ` never call the bot, even as a mention or a reply |
| Activation.MentionOrReplyActivates | config/index.ts:57-63 | outside a bare prefix, a mention or a reply always calls the bot |
| Activation.CommandActivates | config/index.ts:53 | a command after the prefix always calls the bot |
| Activation.CaseInsensitive | config/index.ts:46 | the decision is the same for the lowercased text |
| Ban.Target | commands/admin/ban.ts:78-95 | the answered message's author, else the first mention, else the id built from the first argument; none exactly when the message gives none of them |
| Ban.Decide | commands/admin/ban.ts:55-120 | removal exactly when the sender is an administrator and the target exists, is neither sender nor bot, and is in the group; each refusal exactly when its check is the first to fail; "could not identify" is never given |
| Ban.BanMember | commands/admin/ban.ts:40-151 | a removal of exactly the one target from the command's group exactly when the checks pass; success reported exactly when it went through; a failed fetch or removal gives the error reply |
| Ban.RemovedMemberIsSafe | commands/admin/ban.ts:98-127 | a removed member is in the group and is neither the sender nor the bot, and the sender is an administrator |
| Ban.NonAdminRefusedFirst | commands/admin/ban.ts:55-65 | a non-administrator is refused whatever the message names, and nothing is removed |
| Ban.TargetPriority | commands/admin/ban.ts:78-95 | an answered message outranks mentions and arguments; a mention outranks a typed number |
| Ban.CommandAloneNamesNobody | commands/admin/ban.ts:68-73 | the command word alone names nobody and is refused |
| Ban.TrailingSpaceNamesEmptyId | commands/admin/ban.ts:49 | `!ban ` with a trailing space has one empty argument and aims at the id `@s.whatsapp.net` |
| Ban.TypedIdNamesItself | commands/admin/ban.ts:86-88 | typing a full user id aims at that very id |

## Quirks of the code

- **Activation: the `amandinha` test is not redundant.** `amandinha` does
  not contain `amanda`: after `amand` it has an `i`, not an `a`. The bare
  nickname calls the bot only through its own test (config/index.ts:53-55).
  `Activation.NameNotInNickname` and `Activation.NicknameNeedsOwnTest`
  state this.
- **Work: the reported wait is always 0.** The reply `Aguarde ${seconds}s`
  shows `floor((remaining % 1000) / 1000)`, which is 0 for every remaining
  time (amandacbcoin/src/work/WorkManager.ts:39-43). `Work.WorkOutcome`
  states that it is 0.
- **Games: image captions.** `handleCommand` accepts a message whose only
  text is an image caption, but the coin flip and the slot machine read
  only the conversation and the extended text. Such a message passes the
  gate and then gets the games' usage reply
  (`Router.CaptionOnlyGamesRefused`).

## Left out

- MongoDB itself (connections, indexes, query planning) is left out. The
  ledger, the transfer log, the banks and the group rows are in-memory
  collections, with the `$set`, `$push`, `$pull`, `$addToSet` and upsert
  semantics the code relies on.
- Reply texts are left out: emoji, templates, `toLocaleString`, the profile
  boxes of `getProfile` and `showProfile`, the bank view's formatting, the
  `!top` text and the `mentions` it collects. Replies are datatypes that
  carry the numbers the texts show. `Ban.ReplyText` keeps the ban
  command's messages.
- `try`/`catch` around database calls is modelled only where a failure
  changes the outcome: the group switches (`writeFails`), the metadata
  fetch and the removal in `!ban`. Elsewhere a database call is assumed
  to succeed.
- The clock, `Math.random()` and the local calendar are parameters
  (`now`, draws, `dateOf`, `nextReset`). Time zones are not modelled.
- The clock is read once per command. `getTimeUntilReset` reads it again,
  a few milliseconds later, and the model uses the first reading.
- Floating-point rounding is not modelled. Multipliers are exact reals,
  so `amount * 0.05` and `1.5 ** n` are exact before the floor.
- Levels.XPForLevel: `floor(1000 * 1.5^(level - 1))` is computed with
  exact powers of 1.5. For levels below 1, which the code never asks for,
  the power is the exact reciprocal.
- Common.Lower: `toLowerCase` is modelled for A to Z and the Latin-1
  capitals À to Þ, which includes É, Ç and Ã. Capitals beyond Latin-1
  (Latin Extended, Greek, Cyrillic and others) and the few letters whose
  lowercase is longer than one character are kept as they are. Every
  user of `Lower` inherits this: `Router.Tokens` and `Router.GateOf`,
  the coin flip's side, `Inventory.FirstUsable`, `Shop.FindIn` and
  `Activation.IsAmandaActivated`.
- Common.Trim: `IsSpace` is ECMAScript's white space and line terminator
  set as of Unicode 15. A character added to the space separators in a
  later Unicode version is not trimmed.
- Shop.FindIn: the accent stripping removes combining marks (U+0300 to
  U+036F), but the NFD decomposition before it is not modelled. A
  precomposed accented letter is therefore kept as it is.
- Shop.BuyResult: the catalogue is a parameter. The router passes the
  source's `SHOP_ITEMS` (`Shop.Catalog`). Facts about particular
  catalogue entries are not stated.
- Farming.HarvestResult: it requires every stored crop to have a
  positive harvest window (`HarvestableCrops`). Every crop the table can
  plant has one (`Farming.SeedsHaveCrops`). For a crop with a zero
  window, the source's division by zero is not modelled; the router
  answers `HarvestSkipped` for it.
- `Inventory.ShowInventory` lists groups in order of first appearance,
  which is the order of a JavaScript `Map`. The time-left text for
  active items is left out.
- Levels.ProgressBar: for a maximum of 0, the source divides by zero and
  prints `NaN`. The model gives an empty bar with no percentage.
- XP-boost expiry is not modelled. `utils/xp.ts` reads
  `effects.xp_boost.value` whatever its `activeUntil`, and so does the
  model.
- `Database.updateSkills` is left out: no operation calls it.
- `BankManager.showBankStatus` is a formatted view. The router's `!banco`
  is modelled as `Database.getBank`.
- `Games.roulette` is modelled, although no router command reaches it.
- RateLimit.RateLimiter.CooldownElapsed: the timer's firing is a method
  the caller invokes, not a scheduled callback. The promise
  `waitForCooldown` returns, and an overwritten timer that still fires,
  are not modelled.
- MetadataCache.GroupMetadataManager.GetGroupMetadata: the in-flight
  `fetchQueue`, the retries on HTTP 429, the 5 s timeout and the fallback
  metadata are left out, since they are concurrency and network. The
  metadata the fetch yields is a parameter.
- The rest of `AmandaBOT.ts` is not part of this model: AI calls,
  history files, socket handling and media.
- Ban.BanMember: `socket.user.id` is taken as given. A device suffix in
  it is not modelled. The success reaction and the logging are left out.
- Router.CBCoinSystem.HandleCommand: the `!top` loop that builds the
  mentions is left out, with the ranking text. A message without any text
  is stopped at the gate (`NoText`) with the same effect as the source's
  "invalid message" reply.
- Common.OnlyDigits: it is characterised by `OnlyDigitsAppend`,
  `OnlyDigitsKeepsDigits` and `Jid.NoDigits` rather than by a single
  statement about its characters.
