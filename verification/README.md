# commerce-nexus-dao: a Dafny model of the store-community core

commerce-nexus-dao is a web front end for stores that run token-holding
communities. Each user holds a membership per store, with a tier, a token
balance and an active flag. That balance decides whether the user may vote on
the store's governance proposals and whether they may create them. Purchases
earn tokens at the store's reward rate. A notification list, a dashboard, a
purchase history card, a store directory, a launch wizard and a virtual-store
editor complete the core.

This project models that core as immutable datatypes and pure transition
functions, one module per source file:

| module | source file | what it holds |
|---|---|---|
| `StoreMembership` | src/hooks/useStoreMembership.ts | join, upgrade, token credit, the four capability flags |
| `TokenBalance`, `Eligibility` | src/hooks/useTokenBalance.ts | the stand-alone balance with its two threshold flags, its storage slot and one-second load, and how it agrees with the membership hook |
| `Governance` | src/pages/StoreGovernance.tsx | vote casting, the "for" share, the active count, the time-remaining label, the page's gating |
| `PurchaseLog` | src/hooks/usePurchaseHistory.ts | the browser-stored history and its two running totals |
| `PurchaseSimulator` | src/components/PurchaseSimulator.tsx | the reward formula, the guard, item parsing, the credit |
| `PurchaseDialog` | src/components/PurchaseDialog.tsx | the quantity picker, the totals, the purchase and stock writes, closing |
| `Notifications` | src/contexts/NotificationContext.tsx | the reducer, the unread count, the `notify.*` helpers |
| `Dashboard` | src/pages/Dashboard.tsx | holdings, recent purchases and votes, and the stats |
| `PurchaseHistoryView` | src/components/PurchaseHistory.tsx | the ten-row query, its stats, the status badge |
| `Launch` | src/pages/Launch.tsx | the five-step wizard and its form |
| `Stores` | src/pages/Stores.tsx | search, category filter, descending sort, catalogue totals |
| `MetaverseEditor` | src/components/MetaverseBuilder.tsx | partial config updates, the dirty flag, Save and Reset |

Two helper modules support them. `Common` holds `Option`, sums, counts,
filters, prefixes and decimal rendering. `Text` holds the JavaScript string
operations the core uses: `trim` with the ECMAScript whitespace set,
`split(',')`, ASCII `toLowerCase`/`toUpperCase` and `includes`.

The model treats the outside world as follows:

- Token and money amounts are exact `real`s. Counts, steps, stock and
  milliseconds are `int`s.
- Supabase tables are values passed in. The `localStorage` slot of the
  balance hook and of the purchase history travels beside the hook's state:
  it is read on mount and written where the source writes it.
- Whether a backend call succeeded is a boolean parameter. A failed call
  takes the handler's `catch` branch.
- Fresh ids, dates, hashes, the clock and the results of `parseFloat` or
  `parseInt` are parameters.

The code implements no token ledger: rewards are not issued exactly once
per purchase, no fee is debited on joining, duplicate votes are not
rejected, tallies are not updated and proposals do not expire. The model
states what the code does instead:

- `JoinIgnoresFees`: the join fee is never charged.
- `SecondVoteIsRecorded`: a second vote by the same user is recorded.
- `FailedUpdateKeepsRow`: the purchase and stock writes are not atomic; a failed stock update leaves the purchase row behind.
- `InconsistentSaveSurvives`: stored totals are trusted as they are.

## Model

| member | source | states |
|---|---|---|
| StoreMembership.JoinStore | src/hooks/useStoreMembership.ts:70-100 | succeeds iff a user and a store are present and the insert is accepted; otherwise the state is unchanged; on success the row has the requested tier, balance 0 and this store's id |
| StoreMembership.JoinedMemberCannotVote | src/hooks/useStoreMembership.ts:80-85 | after a successful join the member cannot vote, whatever the tier; membership follows the active default; premium iff the premium tier was asked for |
| StoreMembership.JoinIgnoresFees | src/hooks/useStoreMembership.ts:73-85 | the computed fee is never used: stores that differ only in their fee columns give the same row and outcome |
| StoreMembership.UpgradeToPremium | src/hooks/useStoreMembership.ts:102-124 | succeeds iff user, store and membership exist and the update is accepted; only the tier changes, to premium |
| StoreMembership.UpgradeMakesPremium | src/hooks/useStoreMembership.ts:152-155 | after an upgrade `isPremium` holds and `canVote`, `canCreateProposal` and `isMember` are as before |
| StoreMembership.PurchaseTokens | src/hooks/useStoreMembership.ts:126-150 | succeeds iff a membership exists and the update is accepted; the balance becomes old + amount and no other field changes; on failure nothing changes |
| StoreMembership.CapabilityChain | src/hooks/useStoreMembership.ts:152-154 | `canCreateProposal` implies `canVote`, which implies `isMember` |
| StoreMembership.CreditKeepsCapabilities | src/hooks/useStoreMembership.ts:130-155 | a non-negative credit never revokes `canVote` or `canCreateProposal` and leaves `isMember` and `isPremium` as they were |
| StoreMembership.CreditAllAddsTotal | src/hooks/useStoreMembership.ts:126-139 | a run of accepted credits moves the balance by their sum and changes nothing else in the row |
| TokenBalance.Load | src/hooks/useTokenBalance.ts:16-28 | once the timer has fired, loading is over and the threshold is the hook's; a saved balance is restored and the slot left alone; an empty slot shows the draw and stores it; either way the slot then holds the balance on screen |
| TokenBalance.PurchaseTokens | src/hooks/useTokenBalance.ts:30-34 | the balance moves by exactly the amount; the threshold is kept |
| TokenBalance.Credit | src/hooks/useTokenBalance.ts:30-34 | the wallet is credited by exactly the amount and the slot then holds the new balance |
| TokenBalance.ReloadRestoresBalance | src/hooks/useTokenBalance.ts:16-34 | after a load and any run of credits, a reload with any draw shows the balance the page last showed |
| TokenBalance.CreditBeforeLoadIsOverwritten | src/hooks/useTokenBalance.ts:13-34 | a credit in the second before the timer fires is overwritten on screen; with an empty slot the draw is stored, with a saved balance the slot keeps only the credited amount |
| TokenBalance.ProposalRightImpliesVote | src/hooks/useTokenBalance.ts:39-40 | with a positive threshold, `canCreateProposal` implies `canVote` |
| TokenBalance.ZeroThresholdSeparatesRights | src/hooks/useTokenBalance.ts:39-40 | with threshold 0 an empty wallet may propose but not vote |
| TokenBalance.CreditIsMonotone | src/hooks/useTokenBalance.ts:30-40 | a non-negative credit never revokes a right, and reaching the threshold grants proposal rights |
| TokenBalance.ThresholdScenario | src/hooks/useTokenBalance.ts:10-40 | with the default threshold of 1000, a saved 999 cannot propose and 999 + 50 can |
| Eligibility.ActiveMemberRulesAgree | src/hooks/useStoreMembership.ts:152-153 | for an active member both hooks grant the same voting and proposal rights on the same balance |
| Eligibility.InactiveMemberHasNoRights | src/hooks/useStoreMembership.ts:152-154 | without an active membership the membership hook grants no right |
| Eligibility.CreditKeepsAgreement | src/hooks/useStoreMembership.ts:130-139 | crediting both ledgers by the same amount keeps them equal |
| Governance.HandleVote | src/pages/StoreGovernance.tsx:87-105 | one vote is appended iff membership, user and insert all hold; it carries the voter's balance as its weight; otherwise the table is unchanged |
| Governance.WeightIsSnapshot | src/pages/StoreGovernance.tsx:93-97 | a later credit changes the balance but not the weight of the vote already cast |
| Governance.FortyTokenVoteScenario | src/pages/StoreGovernance.tsx:93-97 | a 40-token voter casts a vote of weight 40 that stays 40 after a 1000-token credit |
| Governance.SecondVoteIsRecorded | src/pages/StoreGovernance.tsx:87-98 | a second identical vote by the same user is appended as well |
| Governance.ForPercentage | src/pages/StoreGovernance.tsx:293-294 | 0 when there are no votes; otherwise the "for" tally times 100 over the total; within [0,100] for non-negative tallies, and 100 iff nobody voted against |
| Governance.ActiveProposalCount | src/pages/StoreGovernance.tsx:243 | the number of proposals with status `active`: 0 iff none is active, the list length iff all are |
| Governance.FormatTimeRemaining | src/pages/StoreGovernance.tsx:107-119 | expired iff no time is left; otherwise hours lie in 0..23, days and hours bound the time left from below within an hour, and the day form is used iff days > 0 |
| Governance.UnderAnHourIsNotExpired | src/pages/StoreGovernance.tsx:110-118 | with less than an hour left the label is "0 saat kaldı", not expired |
| Governance.ExpiredTextIffNoTimeLeft | src/pages/StoreGovernance.tsx:112-118 | the rendered text is the expired text iff the expiry is not after now |
| Governance.View | src/pages/StoreGovernance.tsx:121-140 | the member page shows iff loading is over and store, user and active membership are present; the join offer mentions premium iff the store has it |
| Governance.VoteButtonsNeedMembership | src/pages/StoreGovernance.tsx:328 | a shown vote button belongs to an active member with a positive balance, and pressing it records a vote of positive weight |
| Governance.CreateImpliesVoteButtons | src/pages/StoreGovernance.tsx:260 | whoever sees the create-proposal trigger sees the vote buttons on every active proposal |
| Governance.UpgradeHidesButton | src/pages/StoreGovernance.tsx:265 | a successful upgrade removes the upgrade button |
| PurchaseLog.Empty | src/hooks/usePurchaseHistory.ts:20-24 | the initial value is empty and its totals agree with its list |
| PurchaseLog.SeedTotals | src/hooks/usePurchaseHistory.ts:34-56 | the seeded history has two entries with totals 215.49 and 107.74, which are the sums over the list |
| PurchaseLog.Load | src/hooks/usePurchaseHistory.ts:29-66 | afterwards the slot holds the history on screen; a saved history leaves the slot untouched; an empty slot yields this store's consistent two-entry seed, 215.49 spent |
| PurchaseLog.AdditionsKeepSlot | src/hooks/usePurchaseHistory.ts:84-85 | once the slot holds the history on screen, every run of additions leaves it holding the history on screen |
| PurchaseLog.ReloadShowsLastHistory | src/hooks/usePurchaseHistory.ts:29-31 | loading again from the slot gives the same history, and after a load and any run of additions a reload from the slot they leave shows the history the page last showed |
| PurchaseLog.AddPurchase | src/hooks/usePurchaseHistory.ts:70-88 | the new entry copies the draft and the fresh values, goes in front of the old list, and advances both totals by its figures; consistency is kept; the slot then holds the new history |
| PurchaseLog.AdditionsKeepTotals | src/hooks/usePurchaseHistory.ts:78-82 | any run of additions keeps the totals equal to the sums and leaves the older entries, in order, behind the new ones |
| PurchaseLog.InconsistentSaveSurvives | src/hooks/usePurchaseHistory.ts:29-31 | a saved history whose totals disagree with its list stays inconsistent after loading and after an addition |
| PurchaseSimulator.TokensToEarn | src/components/PurchaseSimulator.tsx:30 | tokens times 100 equal the amount times the rate; non-negative for non-negative inputs |
| PurchaseSimulator.RewardScenarios | src/components/PurchaseSimulator.tsx:29-30 | 100 at 10% earns 10 tokens; an unparsable amount earns 0 |
| PurchaseSimulator.ParseItems | src/components/PurchaseSimulator.tsx:41 | at most one item more than the number of commas, and no item is empty |
| PurchaseSimulator.ParsedItemIsTrimmedPiece | src/components/PurchaseSimulator.tsx:41 | every item is the trimmed form of some comma-separated piece |
| PurchaseSimulator.ParsedItemsAreClean | src/components/PurchaseSimulator.tsx:41 | every item is non-empty, has no surrounding whitespace and contains no comma |
| PurchaseSimulator.ParsedItemsAreComplete | src/components/PurchaseSimulator.tsx:41 | every non-blank piece appears, trimmed, among the items |
| PurchaseSimulator.ParseItemsAtComma | src/components/PurchaseSimulator.tsx:41 | the items of `a,b` are the items of `a` followed by the items of `b`, so input order is kept |
| PurchaseSimulator.HandlePurchase | src/components/PurchaseSimulator.tsx:29-51 | ignored iff the amount is not positive or the text is blank; a completed purchase records the parsed amount, which is positive, so an unparsable amount never gets through; one entry with the parsed items and the reward is prepended, and the same figure is credited |
| PurchaseSimulator.HandlePurchaseKeepsConsistency | src/components/PurchaseSimulator.tsx:43-48 | a simulated purchase keeps a consistent history consistent |
| PurchaseSimulator.CreditMatchesHistory | src/components/PurchaseSimulator.tsx:43-51 | the balance credited on the store page moves by exactly what the history's token total moves by |
| PurchaseSimulator.LoneCommaRecordsNoItems | src/components/PurchaseSimulator.tsx:34-41 | the text "," passes the guard and records a purchase with no items |
| PurchaseDialog.Opened | src/components/PurchaseDialog.tsx:50-52 | the dialog opens with quantity 1 and nothing in progress |
| PurchaseDialog.TotalPrice | src/components/PurchaseDialog.tsx:54 | one item costs the unit price; the total is non-negative for a non-negative price and quantity |
| PurchaseDialog.TotalTokens | src/components/PurchaseDialog.tsx:55 | one item earns the per-purchase tokens; the total is non-negative for non-negative inputs |
| PurchaseDialog.HandleQuantityChange | src/components/PurchaseDialog.tsx:57-62 | a value in 1..stock is taken, anything else (including NaN) leaves the quantity as it was |
| PurchaseDialog.Decrement | src/components/PurchaseDialog.tsx:212-213 | the "-" button does nothing while disabled (quantity ≤ 1) and otherwise lowers the quantity by one |
| PurchaseDialog.Increment | src/components/PurchaseDialog.tsx:229-230 | the "+" button does nothing at the stock and otherwise raises the quantity by one |
| PurchaseDialog.QuantityStaysInRange | src/components/PurchaseDialog.tsx:57-62 | the field and both buttons keep the quantity within 1..stock |
| PurchaseDialog.OpenedInRange | src/components/PurchaseDialog.tsx:50 | for a product in stock the opening quantity is within range |
| PurchaseDialog.IncrementAddsOneUnit | src/components/PurchaseDialog.tsx:54-55 | one "+" adds one unit price and one unit of tokens to the totals |
| PurchaseDialog.IncrementThenDecrement | src/components/PurchaseDialog.tsx:212-230 | "+" followed by "-" restores the quantity |
| PurchaseDialog.HandlePurchase | src/components/PurchaseDialog.tsx:64-118 | without a user nothing happens; otherwise a completed row at the total price is appended, then only if both writes succeed the product's stock becomes stock − quantity with other products untouched, and a failed stock update leaves the stock unchanged; the dialog becomes complete iff both writes succeed, and a complete dialog stays complete |
| PurchaseDialog.StockStaysNonNegative | src/components/PurchaseDialog.tsx:85-90 | within the picker's range, when both writes succeed, the written stock is non-negative and below the old stock |
| PurchaseDialog.FailedUpdateKeepsRow | src/components/PurchaseDialog.tsx:82-92 | a failed stock update leaves the inserted row behind, the stock unchanged, and the dialog not complete |
| PurchaseDialog.HandleClose | src/components/PurchaseDialog.tsx:120-126 | closing is refused while loading or complete; otherwise the dialog closes with quantity 1 |
| PurchaseDialog.AfterSuccess | src/components/PurchaseDialog.tsx:101-106 | the success timer closes the dialog, clears completion and resets the quantity to 1 |
| PurchaseDialog.CloseIsGated | src/components/PurchaseDialog.tsx:120-128 | close is ignored in flight and on the success screen, and the success timer ends where an idle close ends |
| PurchaseDialog.ClosedDialogInRange | src/components/PurchaseDialog.tsx:101-126 | after a close or the success timer the quantity is back in range |
| Notifications.UnreadCount | src/contexts/NotificationContext.tsx:127 | the number of unread entries: at most the list length, and 0 iff every entry is read |
| Notifications.MarkRead | src/contexts/NotificationContext.tsx:39-47 | same length and entries; an entry is read iff it was read or carries the id |
| Notifications.MarkAllRead | src/contexts/NotificationContext.tsx:48-52 | same length and entries, all read |
| Notifications.RemoveId | src/contexts/NotificationContext.tsx:53-57 | no entry with the id remains, every other entry does, and nothing is added |
| Notifications.Reduce | src/contexts/NotificationContext.tsx:26-66 | each of the five actions: prepend a new unread entry, mark one id, mark all, remove an id, clear |
| Notifications.AddIsUnread | src/contexts/NotificationContext.tsx:28-38 | an added entry is unread and in front, the old list follows unchanged, and the unread count grows by one |
| Notifications.MarkReadLowersUnread | src/contexts/NotificationContext.tsx:39-47 | marking an id read never raises the unread count |
| Notifications.MarkAllClearsUnread | src/contexts/NotificationContext.tsx:48-52 | after "mark all as read" the unread count is 0 |
| Notifications.MarkReadIsIdempotent | src/contexts/NotificationContext.tsx:39-47 | marking the same id twice is marking it once |
| Notifications.MarkAllReadIsIdempotent | src/contexts/NotificationContext.tsx:48-52 | marking everything twice is marking it once |
| Notifications.RemoveKeepsOrder | src/contexts/NotificationContext.tsx:53-57 | removal distributes over concatenation, so survivors keep their order |
| Notifications.RemoveAbsentIsIdentity | src/contexts/NotificationContext.tsx:56 | removing an id nobody carries changes nothing |
| Notifications.RemoveIsIdempotent | src/contexts/NotificationContext.tsx:53-57 | removing the same id twice is removing it once |
| Notifications.AddWithToast | src/contexts/NotificationContext.tsx:89-98 | the notification is added and the toast carries its title and message, destructive iff it is an error |
| Notifications.Notify | src/contexts/NotificationContext.tsx:116-125 | each helper puts one unread entry of its own kind, with the fresh id and time, the given texts and link, in front of the old list, which follows unchanged; the toast carries the title and message and is destructive iff the kind is an error |
| Dashboard.Initial | src/pages/Dashboard.tsx:62-72 | the page starts loading, with all stats 0 and empty lists |
| Dashboard.ToHolding | src/pages/Dashboard.tsx:99-105 | a holding copies its row's store and tier, and a null balance becomes 0 |
| Dashboard.ActiveMemberships | src/pages/Dashboard.tsx:87-94 | exactly the user's active rows, drawn from the table |
| Dashboard.HoldingsOf | src/pages/Dashboard.tsx:99-105 | one holding per active membership row, in order |
| Dashboard.UserPurchases | src/pages/Dashboard.tsx:110-117 | exactly the user's purchase rows, drawn from the table |
| Dashboard.RecentPurchasesOf | src/pages/Dashboard.tsx:110-118 | a prefix of the user's purchases of at most five rows, all of them when there are fewer |
| Dashboard.UserVotes | src/pages/Dashboard.tsx:143 | exactly the user's vote rows, drawn from the table |
| Dashboard.RecentVotesOf | src/pages/Dashboard.tsx:134-145 | the first five of the user's votes in table order, or all of them when there are fewer than five |
| Dashboard.StatsAreSums | src/pages/Dashboard.tsx:159-169 | the token total is the sum of the holdings' balances and the invested total the sum of the fetched prices: 0 for no rows, a single row's own figure, and additive over concatenation; the membership count is additive as well |
| Dashboard.Fetch | src/pages/Dashboard.tsx:80-176 | without a user nothing happens; each failed query keeps the lists it would have set and all later ones; only a complete fetch sets the stats; loading ends |
| Dashboard.FetchedCounts | src/pages/Dashboard.tsx:163-169 | after a complete fetch the membership count is the number of active rows, with at most five purchases and five votes |
| Dashboard.NullBalanceCountsAsZero | src/pages/Dashboard.tsx:102 | an active row with a null balance appears as a holding of balance 0 |
| Dashboard.InvestedCoversRecentOnly | src/pages/Dashboard.tsx:161 | "total invested" is at most the user's whole spend, since it covers only the fetched purchases, and equals it when the user has fewer than five purchases |
| PurchaseHistoryView.Initial | src/components/PurchaseHistory.tsx:32-38 | the card starts loading, with no rows and all stats 0 |
| PurchaseHistoryView.Mine | src/components/PurchaseHistory.tsx:57-58 | exactly this user's rows at this store, drawn from the table |
| PurchaseHistoryView.Query | src/components/PurchaseHistory.tsx:54-60 | the first ten of this user's rows at this store in table order, or all of them when there are fewer than ten |
| PurchaseHistoryView.StatsAreSums | src/components/PurchaseHistory.tsx:67-69 | one row gives a count of 1 and its own price and tokens, and the count and both sums of a split list are those of the parts added |
| PurchaseHistoryView.Fetch | src/components/PurchaseHistory.tsx:46-77 | a successful query replaces rows and stats together, a failed one keeps both; loading ends either way |
| PurchaseHistoryView.StatsDescribeRows | src/components/PurchaseHistory.tsx:64-71 | the count equals the shown rows (at most ten); each sum splits at any row into the sums of the rows above and below; with fewer than ten rows at the store the stats are the count and sums over all of them |
| PurchaseHistoryView.NoDataMeansZeroStats | src/components/PurchaseHistory.tsx:67-69 | a user with no purchases at the store sees all three stats at 0 |
| PurchaseHistoryView.Label | src/components/PurchaseHistory.tsx:203-204 | the badge is "completed" iff the status is exactly `completed` |
| PurchaseHistoryView.FailedShowsPending | src/components/PurchaseHistory.tsx:204 | a failed or refunded purchase shows "Beklemede"; a completed one shows "Tamamlandı" |
| Launch.Initial | src/pages/Launch.tsx:31-41 | the wizard opens on step 1 in a valid state |
| Launch.Next | src/pages/Launch.tsx:58-62 | the step rises by one iff it is below 5, and the form is kept |
| Launch.Previous | src/pages/Launch.tsx:64-68 | the step falls by one iff it is above 1, and the form is kept |
| Launch.NextThenPrevious | src/pages/Launch.tsx:58-68 | from any step below 5, Next then Previous returns to it |
| Launch.PreviousThenNext | src/pages/Launch.tsx:58-68 | from any step above 1, Previous then Next returns to it |
| Launch.Progress | src/pages/Launch.tsx:70 | the percentage times 5 equals the step times 100 |
| Launch.ProgressBounds | src/pages/Launch.tsx:70 | on a valid step the bar lies in (0,100], and is full iff on step 5 |
| Launch.MarksOfRun | src/pages/Launch.tsx:101-104 | over consecutive ids the completed marks are the ids before the step and the current mark is the step alone |
| Launch.MarksAreConsistent | src/pages/Launch.tsx:43-49 | on every valid step exactly one step is current and exactly the earlier ones are completed |
| Launch.ButtonsMatchHandlers | src/pages/Launch.tsx:433-446 | Next is shown iff it would move the wizard, and Previous is enabled iff it would |
| Launch.Edit | src/pages/Launch.tsx:148-253 | a field's change sets that field alone (the symbol upper-cased) and keeps the step |
| Launch.SymbolIsUpperCase | src/pages/Launch.tsx:214 | under ASCII case mapping, the stored symbol has no lower-case ASCII letter, keeps the typed length, and retyping it stores the same |
| Launch.ApplyKeepsInvariant | src/pages/Launch.tsx:58-253 | one click or edit keeps the step in 1..5 and the symbol upper-case and at most five characters long |
| Launch.Delivered | src/pages/Launch.tsx:211-218 | the symbol input hands over at most five characters, a prefix of what was typed and all of it when it fits; other inputs hand over the value as typed |
| Launch.RunStaysValid | src/pages/Launch.tsx:58-253 | any sequence of clicks and edits from a valid page keeps the step in 1..5 and the symbol upper-case and at most five long |
| Launch.ReachableIsValid | src/pages/Launch.tsx:31-253 | every page reachable from the opening one is valid |
| Stores.Matching | src/pages/Stores.tsx:22-29 | exactly the matching stores, drawn from the catalogue |
| Stores.EmptyTermMatchesAll | src/pages/Stores.tsx:24-26 | the empty term matches every store |
| Stores.SearchIgnoresCase | src/pages/Stores.tsx:24-26 | upper- or lower-casing the term does not change the result |
| Stores.NoFilterKeepsAll | src/pages/Stores.tsx:18-29 | with the initial empty term and "All Categories" every store is kept, in order |
| Stores.MatchingKeepsOrder | src/pages/Stores.tsx:22-29 | filtering distributes over concatenation, so catalogue order is kept |
| Stores.Insert | src/pages/Stores.tsx:30-43 | inserting into a descending list keeps it descending and adds exactly that store |
| Stores.Sort | src/pages/Stores.tsx:30-43 | the result is non-increasing in the chosen figure and a permutation of the input |
| Stores.UnknownSortKeepsOrder | src/pages/Stores.tsx:40-41 | an unknown `sortBy` leaves the filtered order unchanged |
| Stores.Listed | src/pages/Stores.tsx:22-43 | the listed stores are sorted, the same multiset as the matches, within the catalogue |
| Stores.ListedAreTheMatches | src/pages/Stores.tsx:22-43 | a store is listed iff it is in the catalogue and matches term and category |
| Stores.TotalsAreSums | src/pages/Stores.tsx:45-47 | the three header figures are sums over the catalogue: 0 for none, a single store counts 1 and brings its own holders and revenue, and additive over concatenation |
| Stores.MatchingSumBound | src/pages/Stores.tsx:22-29 | filtering never raises a sum of non-negative figures |
| Stores.SortKeepsSum | src/pages/Stores.tsx:30-43 | sorting does not change a sum |
| Stores.HeaderCoversWholeCatalogue | src/pages/Stores.tsx:45-47 | the header figures do not depend on the search and are never below those of the listed stores |
| MetaverseEditor.Initial | src/components/MetaverseBuilder.tsx:50-52 | the editor starts on the default config, clean and not previewing |
| MetaverseEditor.ApplyPatch | src/components/MetaverseBuilder.tsx:55 | each field set in the patch takes its value, and each other field keeps its value |
| MetaverseEditor.Update | src/components/MetaverseBuilder.tsx:54-57 | the patch is applied and the editor is dirty |
| MetaverseEditor.UpdatesCompose | src/components/MetaverseBuilder.tsx:54-57 | two updates are one merged update, repeating a patch is applying it once, and the empty patch keeps the config |
| MetaverseEditor.HandleSave | src/components/MetaverseBuilder.tsx:59-62 | the current config is emitted unchanged, the editor is clean and the preview flag is kept |
| MetaverseEditor.HandleReset | src/components/MetaverseBuilder.tsx:64-67 | the default config is back and the editor is dirty |
| MetaverseEditor.PressSave | src/components/MetaverseBuilder.tsx:114-121 | a click does nothing while clean and otherwise emits the config and leaves the editor clean with config and preview flag kept |
| MetaverseEditor.PressReset | src/components/MetaverseBuilder.tsx:105-113 | a click does nothing while clean and otherwise restores the defaults, leaves the editor dirty and keeps the preview flag |
| MetaverseEditor.TogglePreview | src/components/MetaverseBuilder.tsx:99 | the preview flag flips and nothing else changes |
| MetaverseEditor.ResetThenSaveEmitsDefault | src/components/MetaverseBuilder.tsx:59-67 | Reset followed by Save emits the default config and leaves the editor clean |
| MetaverseEditor.SaveIsOneShot | src/components/MetaverseBuilder.tsx:59-62 | a second Save emits nothing until the next edit, after which it emits the edited config |
| MetaverseEditor.FreshEditorIsClean | src/components/MetaverseBuilder.tsx:108-116 | both buttons are disabled on a fresh editor and enabled by any edit |
| Text.Trim | src/components/PurchaseSimulator.tsx:34 | the trimmed string is the slice between the outer whitespace runs: empty iff blank, otherwise starting and ending with non-whitespace |
| Text.TrimIsIdempotent | src/components/PurchaseSimulator.tsx:41 | trimming twice is trimming once |
| Text.SplitOnCommas | src/components/PurchaseSimulator.tsx:41 | one piece more than the number of commas, none containing a comma |
| Text.JoinAfterSplit | src/components/PurchaseSimulator.tsx:41 | joining the pieces with commas gives back the text |
| Text.SplitAfterJoin | src/components/PurchaseSimulator.tsx:41 | splitting comma-free parts joined with commas gives back the parts |
| Text.SplitAtComma | src/components/PurchaseSimulator.tsx:41 | the pieces of `a,b` are the pieces of `a` followed by those of `b` |
| Text.ToLower | src/pages/Stores.tsx:24-26 | same length; each ASCII upper-case letter becomes the letter 32 code points above it, its lower-case form, and every other character is kept |
| Text.ToUpper | src/pages/Launch.tsx:214 | same length; each ASCII lower-case letter becomes the letter 32 code points below it, its upper-case form, and every other character is kept |
| Text.ToUpperIsIdempotent | src/pages/Launch.tsx:214 | upper-casing twice is upper-casing once |
| Text.CaseMappingsAgreeOnLetters | src/pages/Stores.tsx:24-26 | lower-casing after upper-casing equals lower-casing, and the other way round |
| Text.ContainsIffOccurs | src/pages/Stores.tsx:24-26 | `includes` holds iff the needle occurs at some position |
| Common.NatToStringRoundTrip | src/pages/StoreGovernance.tsx:117-118 | the decimal text of a count reads back as that count |

## Left out

- Supabase queries and `localStorage` reads and writes are not modelled as I/O. Tables are parameters, the storage slots travel beside the hooks' state, and each call's success is a boolean.
- Concurrency is not modelled. The read-modify-write balance update (src/hooks/useStoreMembership.ts:130-134) and the stock decrement (src/components/PurchaseDialog.tsx:88) can lose updates under concurrent clients. The model runs one client at a time.
- TokenBalance.Load: the random first balance (src/hooks/useTokenBalance.ts:19) is a parameter. The slot holds a number, so an empty saved string, which counts as nothing saved, and a non-numeric one, which `parseFloat` turns into NaN so that both flags are false, are not modelled.
- PurchaseLog.Load: the slot holds a history value. A saved string that is not valid JSON, on which `JSON.parse` throws, and the JSON round trip itself are not modelled. The hook's `loading` flag, cleared in the same effect, is not modelled.
- Fresh ids, dates, transaction hashes, notification timestamps and the clock are parameters.
- Number formatting is not modelled: `toFixed`, `toLocaleString`, `Intl.NumberFormat` and the percentage strings. Amounts are exact reals, so JavaScript double rounding is not modelled either.
- Date parsing is not modelled. Expiry and now are millisecond integers, so an unparsable date (NaN) is out of scope.
- Case mapping covers ASCII letters only. Non-ASCII case mapping is not modelled; JavaScript's `toUpperCase` can change the length there ("ß" becomes "SS").
- The refetch after a join or upgrade (src/hooks/useStoreMembership.ts:89, 113) is replaced by the row the write produced. The model does not cover the refetch failing or returning other data.
- The joined `stores`, `products` and `governance_proposals` columns are assumed present. In the source a missing join would throw into the handler's `catch`.
- Backend ordering is taken as given. The purchase and vote tables are passed in already newest-first, and `order(...)` is not modelled.
- `tokens_earned` on the rows the purchase dialog inserts is a database default that is not part of this model.
- Behaviour the code does not implement is not modelled: exactly-once reward issuance, fee debits on join or upgrade, duplicate-vote rejection, tally increments, proposal expiry or sweeping, and a proposal threshold beyond the page's gate. If these exist, they live in database rules that are not part of this model.
- The sample catalogue behind the store directory (src/data/mockData) is not part of this model. `Stores` takes the catalogue as a parameter.
- The toasts raised by the membership hook, the purchase dialog and the simulator are left out. Only the notification context's toast is modelled, with its title, text and destructive variant.
- Stores.Sort: sortedness and permutation are proved for every `sortBy`. Stability is proved only for an unknown `sortBy`, not in general.
