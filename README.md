# divvy — a verified model of the expense engine

divvy is a small command-line tool for a group that shares expenses. Members
pay deposits into the pool and record expenses. Each expense is split in whole
cents over the currently active members. The cents that do not divide evenly
(the *remainder*) are handed round the group in turn through a per-member
"paid remainder in this cycle" flag. Money is booked into *periods*. Settling
a period closes it and opens a new one. A reserved *system* member
(`_system_group_`) stands for the shared public fund.

This project models, in Dafny:

- **The store** (`store.dfy`, module `Store`). This is the SQLite layer of
  `src/divvy/database.py`. A `Database` class holds the members, categories,
  periods and transactions tables as sequences. Its methods are the store's
  inserts and updates. The queries are functions over those sequences.
- **The remainder rotation** (`rotation.dfy`, module `Rotation`). This is what
  `record_expense` does to the flags. It proves that the remainder goes to the
  first unpaid active member and that a finished cycle starts over. It also
  proves that over consecutive expenses with a remainder the takers go round
  the active list in id order, so within `n` such expenses, for `n` active
  members, each member takes exactly one remainder.
- **The balance aggregators and the period summary** (`balances.dfy`, module
  `Balances`). These are `get_active_member_balances`, `get_period_balances`,
  `get_settlement_balances` and `get_period_summary`. The module covers the
  cent-exact split of an expense, conservation of money, and the KeyError
  that a system-member transaction raises in the two ledger-style reports.
- **The recording operations** (`logic.dfy`, module `Logic`). These are
  `record_expense`, `record_deposit`, `record_refund`, `add_new_member`,
  `remove_member`, `rejoin_member` and `settle_current_period`.
- **The CLI helpers** (`display.dfy`, module `Display`). These are the display
  width of a string, padding to a width, and the public-fund running balance
  shown in the period view.
- **The generic attribute update** (`entity_updates.dfy`, module
  `EntityUpdates`). This is `apply_dict_updates` of `app/db/utils.py`.
- **The ledger repository** (`ledger.dfy`, module `Ledger`). This covers
  batch-id allocation, batch recording and the two audit queries of
  `app/repositories/ledger.py`.

## How the store is represented

- A row's id is its position plus one. Rows are never deleted, so this is what
  SQLite's autoincrement gives.
- `CURRENT_TIMESTAMP` is a counter, `clock`. Every stamp written takes the
  counter's value, and the counter then moves on. Start dates therefore
  increase with the row, and "the unsettled period with the latest start" is
  the last unsettled row.
- Amounts are integers (cents). A store call's messages become outcome values
  that name the same case. An amount string that does not parse becomes
  `None`.
- Python's `//` and `%` by a positive count are Dafny's `/` and `%`. Both floor
  toward minus infinity for a positive divisor.
- A payer id counts only when it is truthy: not NULL and not 0
  (`Balances.PayerOf`).
- The reports are sequences of `(name, value)` pairs, one per member in id
  order. The source returns dicts keyed by name, and names are unique.

## Model

| member | source | states |
|---|---|---|
| Store.ActiveMembersAre | src/divvy/database.py:96-105 | a member is listed by `get_active_members` iff it is in the table, active, and not the fund row (`_system_group_`) |
| Store.ActiveMembersOrdered | src/divvy/database.py:96-105 | the active list is in ascending id order |
| Store.AllMembersAre | src/divvy/database.py:84-93 | a member is listed by `get_all_members` iff it is in the table and is not the fund row (`_system_group_`) |
| Store.AllMembersOrdered | src/divvy/database.py:84-93 | the full list is in ascending id order |
| Store.FindMemberByName | src/divvy/database.py:66-72 | None iff no row has the name; otherwise a row of the table with that name |
| Store.FindMemberById | src/divvy/database.py:75-81 | None iff no row has the id; otherwise the row with that id |
| Store.FindCategoryByName | src/divvy/database.py:295-301 | None iff no category has the name; otherwise that category |
| Store.FindPeriodById | src/divvy/database.py:183-189 | None iff no period has the id; otherwise that period |
| Store.IsVirtualMember | src/divvy/database.py:240-244 | true iff a member is given and its name starts with `_system_`; the fund member is one |
| Store.SetRemainderFlag | src/divvy/database.py:108-115 | the row with that id gets the flag value; every other row is unchanged |
| Store.RemainderFlagKeepsTable | src/divvy/database.py:108-115 | a flag update keeps every row id and name, so ids stay positions and names stay unique |
| Store.ClearActiveFlags | src/divvy/database.py:118-123 | every active row's flag is cleared; inactive rows are untouched |
| Store.SetActive | src/divvy/database.py:126-141 | the row with that id gets the new `is_active`; every other row is unchanged |
| Store.CurrentPeriodOf | src/divvy/database.py:147-155 | None iff every period is settled; otherwise an unsettled period whose start is the latest among unsettled ones |
| Store.MarkSettled | src/divvy/database.py:171-180 | the period with that id is settled and gets the end stamp; the others are kept |
| Store.TxsInPeriod | src/divvy/database.py:201-209 | exactly the rows tagged with the period |
| Store.TxsInPeriodAppend | src/divvy/database.py:201-209 | a new row joins the end of its own period's list and no other list |
| Store.Database.constructor | src/divvy/database.py:37-41 | the tables the schema script creates: empty member, period and transaction tables, and the seeded categories numbered from 1 |
| Store.Database.InitializeDatabase | src/divvy/database.py:30-35 | on every start a period is left open and the fund row exists; "Initial Period" and the inactive fund row are added only when missing, and categories and transactions are kept |
| Store.NewDatabase | src/divvy/database.py:24-47 | a database initialized from no tables holds exactly the open "Initial Period", the inactive fund row with id 1, the seeded categories and no transactions |
| Store.Database.AddMember | src/divvy/database.py:53-63 | a taken name returns None and changes nothing; otherwise one active row with a clear flag is appended and its id returned |
| Store.Database.EnsureVirtualMemberExists | src/divvy/database.py:226-237 | adds the inactive fund row once; afterwards it exists |
| Store.Database.UpdateMemberRemainderStatus | src/divvy/database.py:108-115 | members become `SetRemainderFlag(old, id, status)`; nothing else changes |
| Store.Database.ResetAllMemberRemainderStatus | src/divvy/database.py:118-123 | members become `ClearActiveFlags(old)`; nothing else changes |
| Store.Database.DeactivateMember | src/divvy/database.py:126-132 | `is_active` is cleared for that id only; the result is true iff the id exists |
| Store.Database.ReactivateMember | src/divvy/database.py:135-141 | `is_active` is set for that id only; the result is true iff the id exists |
| Store.Database.CreateNewPeriod | src/divvy/database.py:158-168 | appends an unsettled period with the next id, which becomes the current period |
| Store.Database.SettlePeriod | src/divvy/database.py:171-180 | the period is settled with an end stamp; the result is true iff it existed |
| Store.Database.InitializeFirstPeriodIfNeeded | src/divvy/database.py:212-223 | creates "Initial Period" only when no period is open; afterwards one is open |
| Store.Database.AddTransaction | src/divvy/database.py:258-283 | appends exactly one row with the next id; without a period id it is tagged with the open period, and "Initial Period" is created first if none is open |
| Rotation.FirstUnpaid | src/divvy/logic.py:94-100 | the index of the first active member whose flag is clear; every member before it has its flag set |
| Rotation.ClearedHasUnpaid | src/divvy/logic.py:83-100 | after the reset step some active member has a clear flag, and the first such member is the reported taker, so the taker loop always finds one |
| Rotation.ActiveAfterSetFlag | src/divvy/database.py:108-115 | a flag update leaves the active list in place and changes only that member's entry |
| Rotation.ActiveAfterClear | src/divvy/database.py:118-123 | the reset leaves the active list in place with every flag cleared |
| Rotation.ActiveIdsIncreasing | src/divvy/database.py:96-105 | with ids equal to positions, the active list has strictly increasing ids |
| Rotation.RemainderGoesToFirstUnpaid | src/divvy/logic.py:94-100 | while some active member is unpaid, the taker is an active, unpaid member with the lowest id among the unpaid active members |
| Rotation.FirstUnpaidIsLowest | src/divvy/logic.py:94-100 | in a list ordered by id, the first unpaid member has the lowest id among the unpaid ones |
| Rotation.FlagsWhileUnpaid | src/divvy/logic.py:94-100 | while some active member is unpaid, the step sets the taker's flag and changes no other row |
| Rotation.RemainderAfterFullCycle | src/divvy/logic.py:83-100 | when every active member has paid, the lowest-id active member takes the remainder |
| Rotation.HeadIsLowest | src/divvy/database.py:96-105 | in a non-empty list ordered by id the head has the lowest id |
| Rotation.FlagsAfterFullCycle | src/divvy/logic.py:83-100 | when every active member has paid, every active flag is cleared except the taker's, which ends set; inactive rows are untouched |
| Rotation.RemainderKeepsMembers | src/divvy/logic.py:81-100 | the rotation keeps the row ids and the active members' ids |
| Rotation.RoundRobinStepMid | src/divvy/logic.py:94-100 | with exactly the first `c < n` active members paid, the taker is member `c`, and afterwards exactly the first `c+1` have paid |
| Rotation.RoundRobinStepWrap | src/divvy/logic.py:83-100 | with all `n` active members paid, the taker is member 0, and afterwards exactly member 0 has paid |
| Rotation.RoundRobinTaker | src/divvy/logic.py:81-100 | from a paid prefix `c`, the taker is member `c`, or member 0 once the cycle is complete |
| Rotation.RoundRobinAdvance | src/divvy/logic.py:81-100 | one step from a paid prefix `c` keeps the ids and leaves a paid prefix `c+1`, or `1` after a wrap |
| Rotation.ShiftTaker | src/divvy/logic.py:81-100 | a taker at position `(c'+i-1) mod n` one step later is at `(c+i) mod n` of the original list |
| Rotation.RoundRobinFairness | src/divvy/logic.py:81-100 | over consecutive expenses that each leave a remainder, starting with exactly the first `c` active members paid, the `i`-th expense's remainder goes to active member `(c+i) mod n` in id order, and the active members stay the same |
| Rotation.CyclePositionsDistinct | src/divvy/logic.py:81-100 | two different steps within one cycle of length `n` land on different positions |
| Rotation.CycleOffset | src/divvy/logic.py:81-100 | for each position `j`, the step within one cycle that lands on it |
| Rotation.NoMemberTwicePerCycle | src/divvy/logic.py:81-100 | within `n` consecutive expenses with a remainder, no active member takes the remainder twice |
| Rotation.EveryMemberOncePerCycle | src/divvy/logic.py:81-100 | within `n` consecutive expenses with a remainder, every active member takes the remainder, at step `CycleOffset(c, j, n)` |
| Balances.SharesUpToIs | src/divvy/logic.py:376-382 | the first `k` members' shares total `k*(amount div n) + min(k, amount mod n)` |
| Balances.SharesTotal | src/divvy/logic.py:376-382 | all `n` shares add up to exactly the amount |
| Balances.ShareBounds | src/divvy/logic.py:376-382 | each share is `amount div n` or one more, and one more exactly for the first `amount mod n` members |
| Balances.ZeroBalances | src/divvy/logic.py:358 | a zero balance for exactly the listed ids |
| Balances.SumOverUpdate | src/divvy/logic.py:362-370 | crediting one listed member changes the total by that amount |
| Balances.DebitFirstAt | src/divvy/logic.py:379-382 | after the first `k` steps of the debit loop, member `i` has lost its share if `i < k`; ids not in the list are untouched |
| Balances.SpreadCharges | src/divvy/logic.py:376-382 | the whole debit loop takes `amount div n`, plus 1 for the first `amount mod n` members, from each active member and nothing from anyone else |
| Balances.DebitFirstSum | src/divvy/logic.py:379-382 | the first `k` debits lower a covering total by the first `k` shares |
| Balances.SpreadConserves | src/divvy/logic.py:376-382 | the debit loop lowers the total by exactly the amount |
| Balances.ActiveFold | src/divvy/logic.py:360-382 | the fold keeps exactly the initial member keys |
| Balances.Counted | src/divvy/logic.py:362-368 | a row is counted iff its payer is truthy and is one of the balance keys |
| Balances.ActiveConservation | src/divvy/logic.py:360-382 | the active balances sum to the starting sum plus the counted deposits; every counted expense nets to zero |
| Balances.ActiveStepSum | src/divvy/logic.py:360-382 | one step moves the active total by the row's amount when it is a counted deposit, and not at all otherwise |
| Balances.ActiveFoldNext | src/divvy/logic.py:360-382 | folding one more row is one more step of the active fold |
| Balances.ActiveIgnoresUncounted | src/divvy/logic.py:361-368 | rows whose payer is not an active member have no effect at all |
| Balances.FundPaymentIgnored | src/divvy/logic.py:361-368 | a row paid by the fund row leaves the active balances unchanged |
| Balances.FundRowNotActive | src/divvy/database.py:96-105 | no active member carries the fund row's id |
| Balances.NamedRows | src/divvy/logic.py:385-389 | one `(name, balance)` row per active member, in order |
| Balances.SumRowsIsSumOver | src/divvy/logic.py:385-389 | the rows sum to the balances of the listed members |
| Balances.ActiveIdsDistinct | src/divvy/database.py:96-105 | active ids are pairwise different |
| Balances.ActiveReportSum | src/divvy/logic.py:343-389 | the report's values sum to the period's deposits paid by active members |
| Balances.ActiveIdKeys | src/divvy/logic.py:358 | the keys of the zeroed balance table are the ids of the listed members |
| Balances.GetActiveMemberBalances | src/divvy/logic.py:343-389 | empty when no period is given or open; otherwise one row per active member with the active fold over the period's rows |
| Balances.FoldActive | src/divvy/logic.py:358-382 | the loop's balances equal the active fold over the rows |
| Balances.ApplyActiveRow | src/divvy/logic.py:360-382 | one pass of the loop computes one step of the active fold |
| Balances.DebitActive | src/divvy/logic.py:376-382 | the inner loop's balances equal the specified debit of every active member |
| Balances.ActiveRows | src/divvy/logic.py:385-389 | the conversion loop yields the named rows |
| Balances.LedgerFold | src/divvy/logic.py:305-327 | when it succeeds, the fold keeps exactly the initial member keys |
| Balances.LedgerFailsIff | src/divvy/logic.py:307-313 | the fold raises KeyError iff some row has a truthy payer that is not a listed member |
| Balances.LedgerStepConserves | src/divvy/logic.py:307-327 | one successful step changes the total by the row's net effect |
| Balances.LedgerConservation | src/divvy/logic.py:305-327 | a successful fold changes the total by the rows' net effects: deposits and expenses with a payer, minus spread expenses |
| Balances.StandingOf | src/divvy/logic.py:330-338 | "Is owed" iff positive, "Owes" iff negative, else "Settled" |
| Balances.StandingRoundTrip | src/divvy/logic.py:330-338 | the standing keeps the signed balance: it reads back to the same number |
| Balances.StandingRows | src/divvy/logic.py:330-338 | one standing per listed member, in order |
| Balances.FoldLedger | src/divvy/logic.py:305-327 | the loop, which stops at the first KeyError, equals the ledger fold |
| Balances.ApplyLedgerRow | src/divvy/logic.py:307-327 | one pass of the loop computes one ledger step, KeyError included |
| Balances.LedgerFoldNext | src/divvy/logic.py:307-327 | while no KeyError has been raised, folding one more row is one more ledger step |
| Balances.LedgerFoldStaysFailed | src/divvy/logic.py:307-313 | once a prefix has raised, the whole fold has raised |
| Balances.ActiveInAll | src/divvy/database.py:84-105 | every active member is among all members, so the spread never meets a missing key |
| Balances.LedgerBalances | src/divvy/logic.py:302-327 | on success the balances cover every member except the fund row (`_system_group_`) |
| Balances.SumStandingsIsSumOver | src/divvy/logic.py:330-338 | the standings sum back to the members' balances |
| Balances.LedgerReportSum | src/divvy/logic.py:284-340 | a report that does not raise sums to the net effect of its rows |
| Balances.FormatStandings | src/divvy/logic.py:330-338 | the formatting loop yields the standing rows |
| Balances.GetPeriodBalances | src/divvy/logic.py:284-340 | no period (none given and none open, or unknown id) gives the empty report; otherwise the ledger report over the period's rows |
| Balances.GetSettlementBalances | src/divvy/logic.py:204-249 | the ledger report over all rows; it is never the no-period case |
| Balances.LedgerReportOf | src/divvy/logic.py:210-247 | the fold and the formatting loops together give the ledger report |
| Balances.SumOfKindAppend | src/divvy/logic.py:411-412 | a kind's sum adds up over concatenation |
| Balances.PeriodTotals | src/divvy/logic.py:411-426 | the summary totals: the deposit sum, the expense sum, what is left of the deposits after the expenses, and the number of rows; `Balances.TotalsAppend` states how one more row moves them |
| Balances.TotalsAppend | src/divvy/logic.py:411-426 | one more row adds its amount to its own kind's total and one to the count |
| Balances.GetPeriodSummary | src/divvy/logic.py:392-427 | no summary when there is no period; KeyError when the balances raise; otherwise the period, its rows, its balances and its totals |
| Logic.RecordExpense | src/divvy/logic.py:43-122 | bad amount, unknown payer, unknown category and no active member are reported in that order and write nothing; otherwise one expense row with the payer, the category and the open period is appended, and the flags follow the rotation when `amount mod n` is not zero and are untouched when it is |
| Logic.SplitRemainder | src/divvy/logic.py:75-100 | the remainder is `amount mod n`; a zero remainder changes nothing and reports no taker, and any other remainder gives the rotation's taker and flags |
| Logic.AssignRemainder | src/divvy/logic.py:81-100 | the two loops reach the rotation's taker and leave the member table as the rotation specifies |
| Logic.RemainderStepKeepsSpread | src/divvy/logic.py:81-100 | the rotation does not change the active ids, so it never changes how later expenses are spread |
| Logic.RecordedExpenseTotals | src/divvy/logic.py:108-114 | a recorded expense raises its period's expense total by its amount and the count by one, and leaves deposits alone |
| Logic.AddMemberDeposit | src/divvy/logic.py:145-151 | one deposit row for the member is appended in the open period; members and categories are kept |
| Logic.RecordDeposit | src/divvy/logic.py:125-159 | bad amount and unknown payer write nothing; otherwise one deposit row of that amount from that member is appended |
| Logic.RefundDescription | src/divvy/logic.py:184-186 | the stored description always starts with "Refund": the default is "Refund to <name>", one already starting with "Refund" is kept, and any other gets the "Refund: " prefix |
| Logic.RefundDescriptionIdempotent | src/divvy/logic.py:184-186 | a stored refund description is stored again unchanged |
| Logic.RecordRefund | src/divvy/logic.py:162-201 | bad amount and unknown member write nothing; otherwise one deposit row of the negated amount for that member is appended |
| Logic.RefundLowersBalance | src/divvy/logic.py:188-194 | in the active balances a refund lowers exactly the recipient's balance, by the refunded amount |
| Logic.AddNewMember | src/divvy/logic.py:22-40 | an existing name is refused, active or not, and nothing changes; otherwise one active member with a clear flag is appended |
| Logic.RemoveMember | src/divvy/logic.py:252-265 | unknown or already inactive names change nothing; otherwise that member alone is deactivated |
| Logic.RejoinMember | src/divvy/logic.py:268-281 | unknown or already active names change nothing; otherwise that member alone is reactivated |
| Logic.RemoveThenRejoin | src/divvy/logic.py:252-281 | removing takes exactly that member out of the active list; rejoining afterwards is the same as activating it directly |
| Logic.SettleCurrentPeriod | src/divvy/logic.py:430-462 | with no open period, nothing changes; when the summary raises, nothing changes; otherwise the open period is settled with an end stamp, a new open period with the given or default name becomes current with a different id, the active flags are cleared, and the closed period's totals are returned |
| Logic.CloseAndOpen | src/divvy/logic.py:443-455 | the three writes of a settlement: settle, create the new current period, clear the active flags |
| Display.CharWidth | src/divvy/cli.py:14-27 | 1 at or below U+1100, 2 in the CJK and Hangul ranges and above U+FF00, 1 in the gaps between |
| Display.WidthBounds | src/divvy/cli.py:10-28 | `len(text) <= width <= 2*len(text)` |
| Display.WidthAppend | src/divvy/cli.py:10-28 | width is additive over concatenation |
| Display.WidthNarrow | src/divvy/cli.py:10-28 | text with no character above U+1100 is as wide as it is long |
| Display.WidthSpaces | src/divvy/cli.py:10-28 | `n` blanks are `n` columns wide |
| Display.GetDisplayWidth | src/divvy/cli.py:5-28 | the loop computes the width, and it is between `len` and `2*len` |
| Display.PadToDisplayWidth | src/divvy/cli.py:31-51 | text at least `target` wide is returned unchanged; otherwise the result is exactly `target` wide and is the text with blanks only on the right ("<" or unknown), only on the left (">"), or `pad div 2` on the left and the rest on the right ("^"); the alignment defaults to "<" |
| Display.PadLayout | src/divvy/cli.py:40-51 | blanks around the text add their count to its width and leave the text in place |
| Display.PadWidth | src/divvy/cli.py:40-51 | the width of blanks, text and blanks is the sum of the three |
| Display.PadIdempotent | src/divvy/cli.py:31-51 | padding a padded string to the same width changes nothing |
| Display.FundStep | src/divvy/cli.py:217-227 | a system-member expense draws exactly `min(amount, fund)`, and other expenses draw nothing; a deposit into the fund row adds its amount, and other deposits add nothing; an expense never takes a non-negative fund below zero |
| Display.FundNonNegative | src/divvy/cli.py:216-227 | if no deposit into the fund row is negative, the fund is never negative, whatever the expenses |
| Display.FundWithinDeposits | src/divvy/cli.py:216-227 | if no fund deposit and no expense is negative, the fund never exceeds the deposits into it (a negative expense drawn from the fund adds to it) |
| Display.FundWithoutDraws | src/divvy/cli.py:216-227 | with no expense paid by a system member, the fund is exactly the deposits into it |
| Display.PublicFundBalance | src/divvy/cli.py:214-227 | the loop computes the fund fold, with the fund row looked up by its reserved name |
| EntityUpdates.ExcludedSet | app/db/utils.py:13 | a None exclusion set excludes nothing, the same as an empty one |
| EntityUpdates.PatchedMeaning | app/db/utils.py:14-20 | no attribute is added or removed; excluded and unmentioned attributes keep their values; every other attribute the entity has takes the update's value |
| EntityUpdates.PatchedIdempotent | app/db/utils.py:14-20 | applying the same update twice equals applying it once |
| EntityUpdates.PatchedSplit | app/db/utils.py:14-20 | applying two disjoint parts one after the other equals applying their union, so key order does not matter |
| EntityUpdates.Taken | app/db/utils.py:14-20 | the updates whose names have been visited |
| EntityUpdates.TakenStep | app/db/utils.py:14-20 | visiting one more name adds exactly that name's entry |
| EntityUpdates.PatchedOne | app/db/utils.py:17-20 | an update of a single name is one `setattr`, made only when the entity has it and it is not excluded |
| EntityUpdates.ApplyDictUpdates | app/db/utils.py:4-20 | the loop leaves the entity patched as specified: the same attribute names, excluded and unmentioned values kept, the others updated |
| Ledger.MaxBatchId | app/repositories/ledger.py:26-27 | the largest batch id on file, taken by some row |
| Ledger.NextBatchId | app/repositories/ledger.py:26-28 | 1 on an empty table; larger than every batch id on file, and exactly one more than the largest; at least 1 when no id is negative |
| Ledger.Stamped | app/repositories/ledger.py:42-48 | every recorded row carries the one batch id and the next row ids |
| Ledger.LogsInBatch | app/repositories/ledger.py:53-59 | exactly the rows whose batch id is the one asked for |
| Ledger.RecentLogsFor | app/repositories/ledger.py:61-77 | at most `limit` rows, each from the table and each with the entity as debit or credit party |
| Ledger.RecentLogsDescending | app/repositories/ledger.py:74 | the rows come in strictly descending id order |
| Ledger.RecentLogsCompleteWhenShort | app/repositories/ledger.py:66-77 | when fewer than `limit` rows come back, every row involving the entity is among them |
| Ledger.RecentLogsAreNewest | app/repositories/ledger.py:66-77 | every row involving the entity that is left out is older than every row returned |
| Ledger.LedgerRepository.GetNextBatchId | app/repositories/ledger.py:20-28 | the allocator's id, larger than every batch id on file |
| Ledger.LedgerRepository.RecordBatch | app/repositories/ledger.py:30-49 | the returned id is the allocator's; the old rows stay as they were and the given rows are appended, all under that id |
| Ledger.LedgerRepository.GetLogsByBatchId | app/repositories/ledger.py:53-59 | the rows of the batch |
| Ledger.LedgerRepository.GetLogsForEntity | app/repositories/ledger.py:61-77 | the entity's most recent rows, with a default limit of 50 |
| Ledger.RecordedBatchReadsBack | app/repositories/ledger.py:30-59 | reading a recorded batch back returns exactly the rows recorded, in order, and no older row |
| Ledger.LogsInBatchNone | app/repositories/ledger.py:58-59 | a batch id no row carries selects nothing |
| Ledger.LogsInBatchAllMatch | app/repositories/ledger.py:58-59 | a block appended under one batch id is selected whole, after the older matches |
| Ledger.RecordedIdsIncrease | app/repositories/ledger.py:44-48 | after recording, row ids still increase along the table |

## Behaviour worth knowing

- The remainder of an expense can be more than one cent: 5 cents over 3
  members leaves 2. `record_expense` reports the whole remainder as taken by
  one member and sets only that member's flag. All three aggregators instead
  charge one extra cent to each of the first `amount mod n` active members in
  id order, whatever the flags say. `Logic.RemainderStepKeepsSpread` and
  `Balances.SpreadCharges` state both halves.
- The aggregators spread every expense of the period over *today's* active
  members, not over those active when the expense was recorded.
- `get_period_balances` and `get_settlement_balances` build their balance
  table from every member except the fund row (`_system_group_`). A
  transaction paid by the fund row therefore raises KeyError. The model returns an explicit `KeyError`
  report, and `settle_current_period`, which calls `get_period_summary`
  first, then writes nothing (`Logic.SettleCurrentPeriod`).
- The period view (src/divvy/cli.py:199-227) calls `get_period_summary`
  before it computes the public fund. That summary raises KeyError whenever the
  period holds a row paid by the fund row (`_system_group_`), deposit or
  expense. So the view never reaches the fund loop with a deposit into the fund
  row, and the fund it shows is 0 unless an expense is negative.
  `Display.FundStep` and `Display.PublicFundBalance` model the loop as written,
  for every input.
- `record_expense`, `record_deposit` and `record_refund` do not reject zero or
  negative amounts. The model does not either.
- `settle_current_period` only rolls the period over. No transfer plan is
  computed.

## Left out

- Parsing and printing of money (`_dollars_to_cents`, `_cents_to_dollars`, at
  src/divvy/logic.py:6-16) uses floating point. Amounts arrive as integer
  cents, or `None` when the text does not parse. The result strings of the
  logic functions are reduced to outcome values.
- SQLite, connections and the schema file are not modelled. The tables are
  in-memory sequences, and `CURRENT_TIMESTAMP` is a counter. The schema
  script is `Store.Database`'s constructor, with the seeded category names as
  its argument. `Store.NewDatabase` is `initialize_database` on a store
  without tables, and `Store.Database.InitializeDatabase` is its branch for a
  store whose tables exist. Logic.SettleCurrentPeriod takes the default period name (month and
  year of `datetime.now()`) as a parameter.
- Each store call in the source commits on its own; the model runs them as
  sequential state changes, with no concurrency.
- The two "should not happen" branches of the source are unreachable and are
  not modelled. The first is "Internal Error: Could not determine remainder
  payer" (src/divvy/logic.py:102-105); `Rotation.ClearedHasUnpaid` proves a
  taker always exists. The second is "Could not add member"
  (src/divvy/logic.py:37-38); it follows a check for the same name.
- Logic.AssignRemainder takes the members with the loops' break written as a
  loop guard; the order of visits and the first match are the source's.
- Display.PadToDisplayWidth works on Unicode code points. There is no grapheme
  clustering, as in the source.
- The interactive CLI (menus, prompts, printing, i18n) is not modelled. It is
  terminal I/O around the functions above.
- EntityUpdates.ApplyDictUpdates takes the attributes an entity "has"
  (`hasattr`) to be the keys of its attribute map. Python's `hasattr` also
  sees methods and properties, and `setattr` on those is not modelled.
- Ledger: `DECIMAL(14, 4)` amounts are whole numbers of the smallest unit.
  The rows given to `record_batch` are modelled as values. The source mutates
  the passed objects in place, and that aliasing is not modelled. Neither is
  the session's flush, which the model reduces to appending the rows with the
  next ids.
- Ledger.RecentLogsFor takes a non-negative limit. What a negative SQL
  `LIMIT` does depends on the database engine, which is not part of this
  model.
- Ledger.LogsInBatch returns the batch in table order. The SQL query has no
  `ORDER BY`, so the database may return them in any order.
- The debit-equals-credit check that `record_batch` documents is not performed
  by the source, so there is nothing to model.
