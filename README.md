# Lottery markets: ticket expansion, result declaration and reporting

This project models the arithmetic core of a lottery back office in Dafny.
An administrator creates a market with ranges of groups, series letters and
numbers. A user searches a seed (group, series, number, sem) and buys it. The
seed expands into `sem` tickets of the form `GG S NNNNN`. After the draw the
administrator declares five prize tiers, and the declaration pays the matching
purchasers through an external ledger. Reports then show the prizes, the
markets of a day and the live purchases per user. The front end offers range
generators, a digit-wise maximum, a prize-form validator and the
market-creation and password-reset field rules.

The model has one module per source file, plus shared modules:

| module | file | models |
|---|---|---|
| `TicketService` | `ticket_service.dfy` | `backend/constructor/ticketService.js`: `list` and `calculatePrice` |
| `ResultDeclaration` | `result_declaration.dfy` | `backend/controllers/ResultDeclaration.js`: `ResultDeclare` |
| `ResultFormat` | `result_format.dfy` | `getResult` of both controllers (their code is the same) |
| `AdminController` | `admin_controller.dfy` | `getTicketNumbersByMarket`, `getMarkets`, `liveMarkets` and `liveLotteries` |
| `UserController` | `user_controller.dfy` | the activation rule, `searchTickets`, `PurchaseTickets` and `getMarkets` |
| `Helper` | `helper.dfy` | `frontend/src/Utils/helper.js` |
| `ValidationSchema` | `validation_schema.dfy` | `frontend/src/Utils/validationSchema.js` |
| `Records`, `Prizes`, `Series` | | the table rows, the five prize tiers and the series alphabet |
| `Text`, `Seqs`, `Wrappers`, `Arith` | | JavaScript string and array operations, plus `Option` and `Result` |

The form of the model follows the form of the source:

- **Database tables** are sequences of rows. A query is a function over those rows. A calendar day and the current time are integer parameters.
- **State-changing operations are methods of a class over those sequences.** Two classes hold the state. `ResultDeclaration.Store` holds the markets, the results, the purchases and a ghost log of the requests sent to the ledger. `UserController.Tables` holds the markets, the user ranges and the purchases.
- **Every loop of the source is a method with invariants.** Each such method is proved equal to a function that states its meaning:
  - the ticket loop of `list`;
  - the prize loop, the payout loop, the stake map and the exposure loop of `ResultDeclare`;
  - the grouping reduce and the padding loop of `getResult`;
  - the dedupe reduce of `liveMarkets` and the per-user loop of `liveLotteries`;
  - the digit loop of `compareDigitsByPlace`;
  - the nested loops of `validateAllInputs`.
- **The ledger's answers are a parameter**: the set of users whose balance update it refuses, and the set whose exposure removal it refuses.

## Model

| member | source | states |
|---|---|---|
| TicketService.FindRange | backend/constructor/ticketService.js:14-18 | `findOne({ where: { marketId } })`: none exactly when no market has the id; otherwise the first market with the id |
| TicketService.Threshold | backend/constructor/ticketService.js:42 | The block size is 5 exactly when sem is 5 or 25, and 10 otherwise |
| TicketService.SeriesIndex | backend/constructor/ticketService.js:35-38 | `indexOf(series)` finds a position exactly when the series is one letter of the alphabet; the position holds that letter and is its first occurrence |
| TicketService.SeriesAt | backend/constructor/ticketService.js:57-60 | The series position of a ticket always lies inside the alphabet |
| TicketService.ExpansionSnoc | backend/constructor/ticketService.js:44-55 | One more step of the loop appends exactly the closed-form ticket of that step to the tickets so far |
| TicketService.LettersDiffer | backend/constructor/ticketService.js:57-60 | Two steps inside one block land on different letters of an increasing alphabet when the block fits in it |
| TicketService.GroupsDiffer | backend/constructor/ticketService.js:62-66 | Steps of different blocks land on different groups while the blocks fit in the group range |
| TicketService.StepState | backend/constructor/ticketService.js:57-68 | One loop step moves the series on by one, wrapping at the alphabet's end. At a block boundary it instead moves the group on, wrapping to group_start past group_end, and resets the series to the seed letter |
| TicketService.Expand | backend/constructor/ticketService.js:40-72 | The imperative loop returns the closed-form expansion when the seed group and the number are in range. It returns no ticket otherwise: an out-of-range group never advances |
| TicketService.List | backend/constructor/ticketService.js:13-73 | `list` returns `Tickets` on the market `findOne` selects: "Ticket not found." for a missing market, "Invalid series chosen" for a series outside the alphabet, the expansion otherwise |
| TicketService.TicketsCount | backend/constructor/ticketService.js:14-71 | The two errors happen exactly on a missing market and on a series outside the alphabet. A listing is all or nothing: with sem > 0 it has exactly sem tickets iff the seed group and `parseInt(number)` lie in the market's ranges, and none otherwise |
| TicketService.ExcludedSeriesRefused | backend/constructor/ticketService.js:30-38 | F, I and O are never in a market's alphabet, and choosing one is refused as an invalid series |
| TicketService.TicketShape | backend/constructor/ticketService.js:50-68 | Every listed ticket is `pad2(group) + " " + letter + " " + pad5(number)`. Its group is `gs + (g0 - gs + i div T) mod (ge - gs + 1)` and stays in the group range. Its letter is `alphabet[(s0 + i mod T) mod L]`: in the series range and not F, I or O |
| TicketService.Pad2Sign | backend/constructor/ticketService.js:51 | The padded group has at least two characters and starts with '-' exactly for a negative group |
| TicketService.Pad2Injective | backend/constructor/ticketService.js:51 | Different groups pad to different texts |
| TicketService.FormatInjective | backend/constructor/ticketService.js:50-54 | With the same number, two tickets are equal only when their groups and letters are equal |
| TicketService.JoinedInjective | backend/constructor/ticketService.js:50-54 | Two space-joined triples with the same tail are equal only when their heads and letters are |
| TicketService.BlockDistinct | backend/constructor/ticketService.js:57-60 | Two tickets of the same block differ when the block size is at most the alphabet length |
| TicketService.BlocksDistinct | backend/constructor/ticketService.js:62-68 | Tickets of different blocks differ when the blocks needed fit in the group range |
| TicketService.AllDistinct | backend/constructor/ticketService.js:44-71 | The listing has no duplicate ticket when T ≤ L and ceil(sem/T) ≤ ge - gs + 1 |
| TicketService.TicketFields | backend/constructor/ticketService.js:50-54 | Splitting a ticket on spaces gives exactly its padded group, its letter and its padded number. The padded group of a non-negative group parses back to the group |
| TicketService.Pad2NoSpace | backend/constructor/ticketService.js:51 | A padded group holds no space |
| TicketService.Pad5NoSpace | backend/constructor/ticketService.js:53 | A padded number holds no space when the number holds none |
| TicketService.CalculatePrice | backend/constructor/ticketService.js:75-90 | `calculatePrice` fails exactly on a missing market, with a returned rather than thrown error value; otherwise it is the market's price times sem |
| TicketService.PriceMatchesTickets | backend/constructor/ticketService.js:75-90 | When the listing is non-empty, the price equals the market's price times the number of tickets listed |
| Series.CharRange | backend/constructor/ticketService.js:30-32 | `Array.from` over the char codes from start to end: increasing, inside the bounds, and holding every character between them |
| Series.Alphabet | backend/constructor/ticketService.js:30-33 | The alphabet is increasing and holds exactly the letters from series_start to series_end other than F, I and O |
| Prizes.Rank | backend/controllers/ResultDeclaration.js:36-42 | Each tier has a position in the First-to-Fifth order |
| Prizes.ParseCategory | backend/controllers/ResultDeclaration.js:72-75 | A category string is recognised exactly when it names a tier |
| Prizes.Limit | backend/controllers/ResultDeclaration.js:28-34 | Every tier needs at least one ticket (1, 10, 10, 10 and 50) |
| Prizes.ParseName | backend/controllers/ResultDeclaration.js:28-34 | The name of a tier parses back to the tier |
| ResultDeclaration.Missing | backend/controllers/ResultDeclaration.js:36-59 | The missing categories are exactly those no prize names, in First-to-Fifth order |
| ResultDeclaration.MissingFrom | backend/controllers/ResultDeclaration.js:47-49 | `filter(c => !provided.includes(c))` keeps exactly the unprovided categories |
| ResultDeclaration.MissingFromOrdered | backend/controllers/ResultDeclaration.js:47-49 | Filtering keeps the tier order |
| ResultDeclaration.CheckPrize | backend/controllers/ResultDeclaration.js:72-249 | A prize passes only with a known category and exactly that tier's ticket count, none of its tickets in today's stored rows of the market, and fewer stored rows of the tier than its limit. An unknown category is refused as invalid; category names that are `Object.prototype` keys are the exception listed under "## Left out" |
| ResultDeclaration.TierRowsDeclared | backend/controllers/ResultDeclaration.js:113-117 | The tier-full count is positive exactly when the tier has a stored row for the market |
| ResultDeclaration.FirstPrizeOnce | backend/controllers/ResultDeclaration.js:113-125 | Once First Prize has a stored row for the market, another First Prize is refused |
| ResultDeclaration.SuffixRuleFourOnly | backend/controllers/ResultDeclaration.js:169-249 | Third to Fifth Prize pass the suffix rule exactly when the last four characters of the first ticket avoid First's last four, Third's (for Fourth and Fifth) and Fourth's (for Fifth). The comparisons with five-character cursors never match |
| ResultDeclaration.SuffixRuleFiveCursors | backend/controllers/ResultDeclaration.js:128-167 | For a ticket of at least five characters and cursors that already hold five characters, the updated cursors for First's last five and Second's value hold five characters, so they stay unmatchable by a four-character suffix |
| ResultDeclaration.Matched | backend/controllers/ResultDeclaration.js:261-289 | A purchase is matched exactly when it is today's purchase of the market and matches some winning ticket: the seed for First Prize, the last five characters for Second, the last four otherwise. Each row is counted once |
| ResultDeclaration.MarketPurchases | backend/controllers/ResultDeclaration.js:362-365 | The purchasers' rows are exactly the market's purchases |
| ResultDeclaration.UserIds | backend/controllers/ResultDeclaration.js:367 | The user ids, row by row |
| ResultDeclaration.StakeMapOf | backend/controllers/ResultDeclaration.js:292-300 | The stake map has exactly the matched users as keys, and each value is the sum of that user's lotteryPrice |
| ResultDeclaration.FirstRowOf | backend/controllers/ResultDeclaration.js:303-304 | The row a user is paid on is one of that user's matched rows |
| ResultDeclaration.Payouts | backend/controllers/ResultDeclaration.js:303-358 | The payout pass stops only on a balance update the ledger refused, for one of the users paid |
| ResultDeclaration.Exposures | backend/controllers/ResultDeclaration.js:369-386 | The exposure pass stops only on a removal the ledger refused, for one of the purchasers |
| ResultDeclaration.FirstPurchase | backend/controllers/ResultDeclaration.js:251-254 | `findOne` finds the market's first purchase in store order, exactly when the market has a purchase |
| ResultDeclaration.Settle | backend/controllers/ResultDeclaration.js:251-388 | Settling a prize fails only on a First Prize whose discarded `list` call throws, a malformed ticket, a refused balance update or a refused exposure removal; the `list` failure happens only for First Prize and before any ledger call |
| ResultDeclaration.FirstPrizeSeriesRefused | backend/controllers/ResultDeclaration.js:256-266 | When the market's first purchase carries a series the market does not offer, `list` throws "Invalid series chosen" and the First Prize is not settled: no ledger call, and the declaration stops |
| ResultDeclaration.StepsStop | backend/controllers/ResultDeclaration.js:69-249 | The first failing prize ends the declaration |
| ResultDeclaration.StepsTurn | backend/controllers/ResultDeclaration.js:69-388 | One turn of the prize loop checks the prize, queues its row and settles it at once |
| ResultDeclaration.PayoutsStop | backend/controllers/ResultDeclaration.js:347-355 | A refused balance update ends the payout pass |
| ResultDeclaration.ExposuresStop | backend/controllers/ResultDeclaration.js:377-385 | A refused exposure removal ends the exposure pass |
| ResultDeclaration.UserIdsSnoc | backend/controllers/ResultDeclaration.js:303-324 | The processed set after a row is the one before plus that row's user |
| ResultDeclaration.PayoutStep | backend/controllers/ResultDeclaration.js:303-358 | A row of an already processed user is skipped. The first row of a new user issues the balance update and the profit-loss report for that user, and then stops if the ledger refused the update |
| ResultDeclaration.PayoutsFinish | backend/controllers/ResultDeclaration.js:303-358 | Once a payout has failed, later rows change nothing |
| ResultDeclaration.CountOfSnoc | backend/controllers/ResultDeclaration.js:326 | The matched-row count of a user grows by one per row of that user |
| ResultDeclaration.MatchedCount | backend/controllers/ResultDeclaration.js:281-289 | A user never has more matched rows than purchases |
| ResultDeclaration.BalanceUsersAppend | backend/controllers/ResultDeclaration.js:329-345 | The users paid by two runs of calls are those paid by each run, in order |
| ResultDeclaration.UserCallsBalance | backend/controllers/ResultDeclaration.js:329-345 | The two calls for one user update that user's balance exactly once |
| ResultDeclaration.PayoutsPayEach | backend/controllers/ResultDeclaration.js:303-358 | A payout pass that succeeds pays each user exactly once, in order |
| ResultDeclaration.PayoutsAmounts | backend/controllers/ResultDeclaration.js:311-334 | Each balance update goes to a matched user. Its amount is (prizeAmount for First, else the sem of the user's first matched row times prizeAmount) times the user's matched-row count. Its stake is the sum of the user's lotteryPrice |
| ResultDeclaration.ExposuresEach | backend/controllers/ResultDeclaration.js:369-386 | An exposure pass that succeeds sends one removal per purchaser, in order |
| ResultDeclaration.SettlePaysOnce | backend/controllers/ResultDeclaration.js:291-358 | When some purchase matches, a successful settlement pays exactly the matched users, each once |
| ResultDeclaration.SettleReleasesOnce | backend/controllers/ResultDeclaration.js:361-386 | When nothing matches, a successful settlement releases each distinct purchaser of the market once, in first-purchase order |
| ResultDeclaration.StepsSnoc | backend/controllers/ResultDeclaration.js:69-389 | The loop over one more prize is the loop so far followed by that prize's turn |
| ResultDeclaration.StepRow | backend/controllers/ResultDeclaration.js:128-249 | A passing prize queues exactly one row with its category, tickets, amount, market and day |
| ResultDeclaration.StepsRows | backend/controllers/ResultDeclaration.js:69-389 | A loop without failure queues one row per prize, in prize order, with the prize's fields |
| ResultDeclaration.DeclareRefused | backend/controllers/ResultDeclaration.js:11-395 | A refused declaration writes no result row and flags nothing, although payouts of earlier prizes may already have gone out |
| ResultDeclaration.NoValidTicketsUnreachable | backend/controllers/ResultDeclaration.js:392-396 | "No valid tickets to save." is never answered: a loop that passes has queued a row per prize, and all five categories are present |
| ResultDeclaration.DeclareAcceptedRows | backend/controllers/ResultDeclaration.js:36-59 | An accepted declaration names all five categories and bulk-writes exactly one row per prize, dated today for the market |
| ResultDeclaration.DeclareAcceptedFlags | backend/controllers/ResultDeclaration.js:398-423 | On acceptance the market gets winReference. It also gets isWin and loses isActive exactly when every tier now has a row. Every purchase of the market is marked announced, and nothing else changes |
| ResultDeclaration.Store.ResultDeclare | backend/controllers/ResultDeclaration.js:11-430 | The controller leaves the reply, the ledger calls and the three tables that the declaration function gives |
| ResultDeclaration.Store.DeclarePrizes | backend/controllers/ResultDeclaration.js:61-389 | The prize loop produces the queued rows, the calls and the error of the loop specification, and touches no table |
| ResultDeclaration.Store.DeclarePrize | backend/controllers/ResultDeclaration.js:69-389 | One iteration extends the loop specification by one prize |
| ResultDeclaration.Store.SettlePrize | backend/controllers/ResultDeclaration.js:251-388 | Settling sends the calls of the settlement specification |
| ResultDeclaration.Store.PayWinners | backend/controllers/ResultDeclaration.js:303-358 | The payout loop with its processed-users set sends the calls of the payout pass over the distinct matched users |
| ResultDeclaration.Store.PayRow | backend/controllers/ResultDeclaration.js:304-357 | One row of the payout loop keeps the processed set equal to the users seen so far |
| ResultDeclaration.Store.StakeTotals | backend/controllers/ResultDeclaration.js:292-300 | The forEach builds the stake map |
| ResultDeclaration.Store.RemoveExposures | backend/controllers/ResultDeclaration.js:369-386 | The exposure loop sends the calls of the exposure pass |
| ResultFormat.RowsOf | backend/controllers/admin.controller.js:219-223 | Selecting a tier never adds rows |
| ResultFormat.RowsOfMember | backend/controllers/admin.controller.js:225-252 | A row is in a tier's selection exactly when it is a stored row of that tier |
| ResultFormat.RowsOfSnoc | backend/controllers/admin.controller.js:225-252 | A new row extends its own tier's selection only |
| ResultFormat.ArrangeSnoc | backend/controllers/admin.controller.js:219-223 | Ordering by tier takes a new row exactly once when its tier is listed |
| ResultFormat.ArrangeNil | backend/controllers/admin.controller.js:219-223 | No rows order to no rows |
| ResultFormat.ArrangePermutation | backend/controllers/admin.controller.js:219-223 | Ordering by listed tiers is a permutation of the rows |
| ResultFormat.ByCategoryPermutation | backend/controllers/admin.controller.js:221 | `ORDER BY prizeCategory` is a permutation of the rows |
| ResultFormat.ArrangeSorted | backend/controllers/admin.controller.js:221 | Rows arranged by increasing tiers are sorted by tier |
| ResultFormat.ByCategorySorted | backend/controllers/admin.controller.js:221 | The ordered rows are sorted First to Fifth |
| ResultFormat.RowsOfArrange | backend/controllers/admin.controller.js:221 | Ordering keeps the rows of a listed tier in store order |
| ResultFormat.RowsOfAppend | backend/controllers/admin.controller.js:248 | Selecting a tier distributes over concatenation |
| ResultFormat.RowsOfOwn | backend/controllers/admin.controller.js:240-249 | Selecting a tier twice is selecting it once; selecting another tier gives nothing |
| ResultFormat.ByCategoryRowsOf | backend/controllers/admin.controller.js:219-223 | Ordering does not change a tier's rows or their order |
| ResultFormat.Shown | backend/controllers/admin.controller.js:228-238 | First Prize tickets are shown whole, Second's as their last five characters, the others' as their last four |
| ResultFormat.ShownRow | backend/controllers/admin.controller.js:228-238 | A row's shown tickets are its tickets cut one by one |
| ResultFormat.FindGroup | backend/controllers/admin.controller.js:240 | The lookup `acc[prizeCategory]` finds the group of the tier or reports none |
| ResultFormat.ShownTicketsSnoc | backend/controllers/admin.controller.js:248 | A new row appends its shown tickets |
| ResultFormat.AddRowKeys | backend/controllers/admin.controller.js:240-249 | Adding a row keeps one group per tier |
| ResultFormat.GroupHoldsOther | backend/controllers/admin.controller.js:240-249 | A row of another tier leaves a group's contents as they were |
| ResultFormat.AddRowHold | backend/controllers/admin.controller.js:240-249 | After a row, each group holds the concatenated shown tickets of its tier, and the amount and date of the tier's first row |
| ResultFormat.AddRowCover | backend/controllers/admin.controller.js:240-249 | After a row, every tier with a row has a group |
| ResultFormat.AddRowGroups | backend/controllers/admin.controller.js:225-252 | One reduce step keeps the grouping invariant |
| ResultFormat.AccumulateGroups | backend/controllers/admin.controller.js:225-252 | The reduce groups by tier only, across markets: one group per tier with rows, holding its rows' tickets in order, and the first row's amount and date |
| ResultFormat.GroupsBelow | backend/controllers/admin.controller.js:225-252 | Groups built from rows of lower tiers stay below a later row's tier |
| ResultFormat.AddRowRanked | backend/controllers/admin.controller.js:225-252 | Adding a row at or above every earlier tier keeps the groups in tier order |
| ResultFormat.AccumulateOrdered | backend/controllers/admin.controller.js:225-254 | Sorted rows give groups in strictly increasing tier order |
| ResultFormat.Take | backend/controllers/admin.controller.js:258-264 | `slice(0, n)` is the first min(n, length) entries |
| ResultFormat.Entries | backend/controllers/admin.controller.js:256 | The tickets of a group as report entries, one by one |
| ResultFormat.EntriesOf | backend/controllers/admin.controller.js:254-278 | One report entry per group, in group order |
| ResultFormat.DistinctRepeat | backend/controllers/admin.controller.js:266-275 | Padding with copies of an entry already present adds no distinct value |
| ResultFormat.DistinctNone | backend/controllers/admin.controller.js:266-275 | Padding an empty list yields `[undefined]` after de-duplication |
| ResultFormat.EntryTickets | backend/controllers/admin.controller.js:256-276 | A tier's entry lists the distinct first-occurrence tickets of its limited list, never more than the tier's limit, or `[undefined]` for an empty non-First list |
| ResultFormat.GroupRows | backend/controllers/admin.controller.js:225-252 | The reduce loop builds the grouping specification |
| ResultFormat.PadTickets | backend/controllers/admin.controller.js:266-268 | The padding loop repeats the last entry up to ten for every tier but First |
| ResultFormat.BuildEntries | backend/controllers/admin.controller.js:254-278 | The map builds one entry per group |
| ResultFormat.GetResult | backend/controllers/admin.controller.js:207-284 | The report equals the report function of the stored rows; the user controller's getResult (backend/controllers/user.controller.js:406-486) is the same code and is modelled by this same member |
| ResultFormat.ReportGroups | backend/controllers/admin.controller.js:219-252 | The ordered rows group exactly as the stored rows do |
| ResultFormat.ReportOrder | backend/controllers/admin.controller.js:219-278 | The report lists tiers in strictly increasing order |
| ResultFormat.ReportTiers | backend/controllers/admin.controller.js:219-278 | A tier appears in the report exactly when it has a stored row |
| ResultFormat.ReportEntry | backend/controllers/admin.controller.js:225-278 | Each entry carries its tier's first amount and date. Its tickets are the de-duplicated, limited, shown tickets of the tier's rows, at most the limit, in first-occurrence order |
| AdminController.ReformatAll | backend/controllers/admin.controller.js:320-323 | Each listed ticket is split and rejoined, one by one |
| AdminController.ReformatTicket | backend/controllers/admin.controller.js:320-323 | Splitting a listed ticket on spaces and rejoining the three fields gives the ticket back |
| AdminController.ListsFor | backend/controllers/admin.controller.js:306-314 | One `list` outcome per purchase |
| AdminController.ListAllFails | backend/controllers/admin.controller.js:305-334 | `Promise.all` fails exactly when some purchase's list fails |
| AdminController.ListAllLists | backend/controllers/admin.controller.js:305-334 | Otherwise entry k carries purchase k's fields and its reformatted list |
| AdminController.TicketNumbersUnchanged | backend/controllers/admin.controller.js:286-334 | Every reply entry's ticket list is exactly the listing of the corresponding purchase of the market |
| AdminController.OfMarketMember | backend/controllers/admin.controller.js:290-293 | The purchases selected are exactly the market's |
| AdminController.Ids | backend/controllers/admin.controller.js:502 | The marketId key of each row |
| AdminController.FindId | backend/controllers/admin.controller.js:502 | The Map lookup finds the entry with the key or reports none |
| AdminController.MapSetIds | backend/controllers/admin.controller.js:502 | `Map.set` keeps the key order and appends a new key |
| AdminController.ByIdKeys | backend/controllers/admin.controller.js:501-503 | `getMarkets` yields one entry per marketId, in first-appearance order |
| AdminController.ByIdValues | backend/controllers/admin.controller.js:501-503 | Each entry is the last row with its marketId |
| AdminController.Names | backend/controllers/admin.controller.js:684 | The marketName of each row |
| AdminController.FindName | backend/controllers/admin.controller.js:684 | `acc.find` finds an accumulated row with the name or reports none |
| AdminController.LiveMarkets | backend/controllers/admin.controller.js:683-689 | The reduce loop keeps the first row per marketName |
| AdminController.FirstPerNameNames | backend/controllers/admin.controller.js:683-689 | `liveMarkets` yields one row per marketName, in first-appearance order |
| AdminController.FirstPerNameValues | backend/controllers/admin.controller.js:683-689 | Each row kept is the first with its name |
| AdminController.FirstWithAbsent | backend/controllers/admin.controller.js:684 | A name that does not occur has no first row |
| AdminController.OwnLists | backend/controllers/admin.controller.js:766-767 | One `list` outcome per purchase, in the purchase's own market |
| AdminController.FindUser | backend/controllers/admin.controller.js:754 | The lookup `userData[userName]` finds the user's entry or reports none, for userNames that are not `Object.prototype` keys |
| AdminController.AggregateStops | backend/controllers/admin.controller.js:741-775 | A failing list ends the loop |
| AdminController.UpdateTwice | backend/controllers/admin.controller.js:764-774 | Adding the price and then the detail updates the entry once |
| AdminController.AggregateStep | backend/controllers/admin.controller.js:741-775 | One iteration adds the purchase to the aggregate, or fails with its list's error |
| AdminController.AddOne | backend/controllers/admin.controller.js:742-774 | The loop body creates or updates the user's entry, as the aggregate specifies |
| AdminController.LiveLotteriesLoop | backend/controllers/admin.controller.js:740-777 | The loop over the purchases produces the aggregate specification |
| AdminController.Users | backend/controllers/admin.controller.js:777 | The userName of each entry |
| AdminController.NoPurchases | backend/controllers/admin.controller.js:740-777 | A name without purchases has no amount, no details and no first purchase |
| AdminController.AddPurchaseEntry | backend/controllers/admin.controller.js:754-774 | A new user gets an entry with the purchase's market, its price and one detail. A known user's entry gains the price and the detail, and other entries are unchanged |
| AdminController.AddPurchaseLength | backend/controllers/admin.controller.js:754-762 | An entry is added exactly for a new user |
| AdminController.AggregateLast | backend/controllers/admin.controller.js:741-775 | A successful aggregate is the one before the last purchase plus that purchase |
| AdminController.AggregateFails | backend/controllers/admin.controller.js:766-767 | The aggregate fails exactly when some purchase's list fails |
| AdminController.AggregateUsers | backend/controllers/admin.controller.js:754-777 | `liveLotteries` has one entry per userName, in first-purchase order (the order `Object.values` gives when no userName is integer-like) |
| AdminController.AggregateAmount | backend/controllers/admin.controller.js:764 | An entry's amount is the sum of the user's lotteryPrice |
| AdminController.AggregateDetails | backend/controllers/admin.controller.js:769-774 | An entry's details are one per purchase of the user, in order, with that purchase's tickets |
| AdminController.AggregateMarket | backend/controllers/admin.controller.js:755-761 | An entry's market name and id come from the user's first purchase |
| UserController.ActivationRule | backend/controllers/user.controller.js:25-45 | After the two updates every market's isActive is `start_time ≤ now ≤ end_time`, and nothing else changes |
| UserController.ActivationIdempotent | backend/controllers/user.controller.js:113-133 | Applying the rule twice is applying it once |
| UserController.FindRangeActivated | backend/controllers/user.controller.js:113-153 | The market a later `findOne` sees after the rule is the same row with only its flag recomputed |
| UserController.SearchGate | backend/controllers/user.controller.js:95-162 | `searchTickets` answers "no tickets" exactly when no non-void market of the id holds the seed's group, series and number today. When it finds tickets, its price is the market's price times sem, untouched by the activation rule |
| UserController.FindUserRange | backend/controllers/user.controller.js:176-178 | The UserRange lookup finds a row with the generateId or reports none |
| UserController.FindOpenMarket | backend/controllers/user.controller.js:190-196 | The market lookup finds a non-void market with the id or reports none |
| UserController.GateAsWritten | backend/controllers/user.controller.js:176-223 | With end_time not loaded, the gate never answers "Market's time ended". It admits exactly a known generateId with an active non-void market |
| UserController.AsWrittenAdmitsAfterEnd | backend/controllers/user.controller.js:190-213 | A purchase after the market's end time is admitted while the flag is still set |
| UserController.AdmitRule | backend/controllers/user.controller.js:176-241 | Each refusal happens exactly when its guard is the first to fail: an unknown generateId, no non-void market, the end time passed, a suspended market. The purchase is admitted otherwise |
| UserController.PurchaseRow | backend/controllers/user.controller.js:225-241 | The purchase copies group, series, number and sem from the user range, and the market id, name and price from the market; it starts unannounced and visible |
| UserController.AsWrittenListsOthers | backend/controllers/user.controller.js:620-638 | As written, a user's market list includes a market that only another user bought in |
| UserController.OfUserMember | backend/controllers/user.controller.js:621 | The user's purchases are exactly the rows with the userId |
| UserController.DayMarketsMember | backend/controllers/user.controller.js:620-630 | Each listed market comes from a visible purchase of the day |
| UserController.DayMarketsCover | backend/controllers/user.controller.js:620-630 | Every visible purchase of the day puts its market among the day's rows |
| UserController.LastWithMember | backend/controllers/user.controller.js:636-638 | The kept entry is one of the rows |
| UserController.UserMarketAt | backend/controllers/user.controller.js:620-638 | Filtered by user, entry k of the list comes from the user's own visible purchase of the day |
| UserController.UserMarketListed | backend/controllers/user.controller.js:620-638 | Filtered by user, the market of each visible purchase of the user on the day is listed |
| UserController.UserMarketsOwn | backend/controllers/user.controller.js:620-638 | Filtered by user, a market is listed if and only if it comes from the user's own visible purchase of the day (both directions), and the list has one entry per marketId |
| UserController.Tables.Activate | backend/controllers/user.controller.js:25-45 | The two bulk updates leave the activated markets and no other change |
| UserController.Tables.SearchTickets | backend/controllers/user.controller.js:84-167 | `searchTickets` answers the search function on the markets before the updates, applies the activation rule, and creates a UserRange row even when nothing is found |
| UserController.Tables.PurchaseTickets | backend/controllers/user.controller.js:169-241 | The corrected purchase flow, with end_time loaded (the corrected half of the first "## Findings" row): the purchase answers the admission rule `Admit`, an ended market is saved inactive, an admitted purchase appends its row, and nothing else changes. As written the source never refuses for an ended market and never saves it inactive (`GateAsWritten`) |
| Helper.Letters | frontend/src/Utils/helper.js:5-10 | The letter list is increasing and holds exactly A to Z other than F, I and O |
| Helper.GenerateSeriesNull | frontend/src/Utils/helper.js:11-25 | `generateSeries` returns null exactly when a bound is not one allowed letter or start comes after end. Otherwise it has endIndex - startIndex + 1 letters |
| Helper.SeriesAgrees | frontend/src/Utils/helper.js:4-25 | For allowed letters start ≤ end, `generateSeries` is the market alphabet of `list` |
| Helper.SeriesSlice | frontend/src/Utils/helper.js:24-25 | The result is the slice of the letter list from startIndex to endIndex |
| Helper.IncreasingOrder | frontend/src/Utils/helper.js:17 | In the increasing letter list, letter order is index order |
| Helper.IncreasingSlice | frontend/src/Utils/helper.js:25 | A slice of the increasing letter list is increasing |
| Helper.GenerateGroups | frontend/src/Utils/helper.js:29-33 | `generateGroups` has \|end - start\| + 1 entries |
| Helper.GroupsCountUp | frontend/src/Utils/helper.js:29-33 | Entry i is the decimal text of start + i, counting upward even when end < start |
| Helper.ParseIntDigits | frontend/src/Utils/helper.js:31 | `toString` of a natural number parses back to it |
| Helper.NumbersRange | frontend/src/Utils/helper.js:35-42 | `generateNumbers(a, b) = generateNumbers(b, a)`: the increasing inclusive range from min to max |
| Helper.AllLetters | frontend/src/Utils/helper.js:59-60 | The 26 capital letters in order |
| Helper.FilterDataPadded | frontend/src/Utils/helper.js:53-56 | Group entries are padded to two digits and number entries to five. There are rangeEnd - rangeStart + 1 of them, and entry i reads as rangeStart + i |
| Helper.FilterDataSeries | frontend/src/Utils/helper.js:58-61 | Series entries are exactly the capital letters not in excludedChars. excludedChars is a list of letters; the one caller passes the text "I , F , O", whose substring test `.includes` gives the same verdict on every capital letter |
| Helper.Hour24OneToOne | frontend/src/Utils/helper.js:81-86 | On hours 1 to 12 with AM or PM, the hour mapping is one to one onto 0 to 23, with AM below 12 and PM at 12 or above |
| Helper.Reverse | frontend/src/Utils/helper.js:127-128 | `reverse()` mirrors the positions |
| Helper.Padded5 | frontend/src/Utils/helper.js:127 | `toString().padStart(5, "0")` is all digits and at least five long |
| Helper.Max | frontend/src/Utils/helper.js:137 | `Math.max` of two digits is one of them and no less than either; NaN in, NaN out |
| Helper.CompareDigitsByPlace | frontend/src/Utils/helper.js:126-141 | The loop returns the digit-wise maximum |
| Helper.Padded5Length | frontend/src/Utils/helper.js:127 | Below 100000 the padded text has exactly five digits |
| Helper.ByPlaceDigits | frontend/src/Utils/helper.js:126-141 | For inputs below 100000 the result has five digits, each the larger of the two digits in that place |
| Helper.ByPlaceCommutes | frontend/src/Utils/helper.js:126-141 | The digit-wise maximum is commutative |
| Helper.ByPlaceIdempotent | frontend/src/Utils/helper.js:126-141 | The digit-wise maximum of a number with itself is its digits |
| Helper.RankSlots | frontend/src/Utils/helper.js:176 | One ticket slot per ticket of a rank |
| Helper.Tickets | frontend/src/Utils/helper.js:176-189 | The ticket of each slot |
| Helper.Amounts | frontend/src/Utils/helper.js:154-168 | The amount of each rank |
| Helper.TicketMapSnoc | frontend/src/Utils/helper.js:177-188 | A non-blank ticket not yet in `ticketMap` is added with its slot; a blank or seen ticket changes nothing |
| Helper.TicketErrors | frontend/src/Utils/helper.js:176-189 | One ticket verdict per ticket of a rank |
| Helper.ValidateMarket | frontend/src/Utils/helper.js:146-200 | The loop over a market's ranks produces the per-rank errors the specification gives |
| Helper.TicketPass | frontend/src/Utils/helper.js:176-189 | The ticket loop produces the ticket verdicts and the ticket map of the specification |
| Helper.PassStep | frontend/src/Utils/helper.js:176-189 | One ticket extends the verdicts by its own and updates the map |
| Helper.ValidateAllInputs | frontend/src/Utils/helper.js:143-204 | The nested loops produce the errors the validation specification gives |
| Helper.TicketMapFirst | frontend/src/Utils/helper.js:177-188 | `ticketMap` holds exactly the non-blank tickets seen, each with its first slot |
| Helper.AmountMapFirst | frontend/src/Utils/helper.js:159-168 | `amountMap` holds exactly the non-empty amounts seen, each with the first rank that had it |
| Helper.TicketErrorsAt | frontend/src/Utils/helper.js:176-189 | Ticket i's verdict is decided by the map of everything before it |
| Helper.AmountRule | frontend/src/Utils/helper.js:159-168 | A rank's amount error is "required" for an empty amount, or "matches" naming the first earlier rank with the same amount, or none |
| Helper.TicketRule | frontend/src/Utils/helper.js:176-189 | A ticket's error is "required" for a blank ticket, or "matches" naming the rank and index of its first earlier occurrence (within the market, across ranks), or none |
| Helper.CleanSnoc | frontend/src/Utils/helper.js:154-195 | A list of ranks is clean exactly when its prefix is clean and the last rank is clean against it |
| Helper.RankPasses | frontend/src/Utils/helper.js:154-195 | A rank has no errors exactly when its amount is present and new, rank "1" has its complementary amount, and its tickets are non-blank and not seen before |
| Helper.MarketPasses | frontend/src/Utils/helper.js:146-200 | A market has no errors exactly when all amounts are present and pairwise distinct, rank 1 has a complementary amount, and all tickets are non-blank and pairwise distinct across ranks |
| Helper.ValidatePasses | frontend/src/Utils/helper.js:143-204 | `validateAllInputs` returns no errors exactly when every market is clean |
| ValidationSchema.MarketNameRule | frontend/src/Utils/validationSchema.js:14-19 | A market name passes exactly when it is present, non-empty and made of letters, digits, '.', ':' and white space |
| ValidationSchema.GroupRule | frontend/src/Utils/validationSchema.js:21-41 | groupTo passes exactly when present and groupFrom < groupTo, with both tests skipped when either value is 0 or absent. The "same" error never comes without the "not greater" one |
| ValidationSchema.NumberRule | frontend/src/Utils/validationSchema.js:71-94 | numberTo passes exactly when present and numberFrom < numberTo, the test being skipped only when numberFrom is 0 or absent |
| ValidationSchema.ZeroUpperBound | frontend/src/Utils/validationSchema.js:29-31 | A groupTo of 0 skips the group tests, while a numberTo of 0 fails the number test |
| ValidationSchema.SeriesFromRule | frontend/src/Utils/validationSchema.js:43-47 | seriesFrom passes exactly when present, non-empty and all ASCII letters |
| ValidationSchema.SeriesRule | frontend/src/Utils/validationSchema.js:48-69 | seriesTo passes exactly when present and, if seriesFrom is filled, its first char code is at least 10 above seriesFrom's |
| ValidationSchema.SeriesGapCountsSkipped | frontend/src/Utils/validationSchema.js:57-58 | "A" to "K" passes the gap rule although the series picker offers only A to K without F and I |
| ValidationSchema.AToKPasses | frontend/src/Utils/validationSchema.js:57-58 | The raw code gap from A to K is 10 |
| ValidationSchema.PickerAToK | frontend/src/Utils/helper.js:4-25 | `generateSeries("A", "K")` offers exactly A to K other than F and I |
| ValidationSchema.LeadingDigitsBefore | frontend/src/Utils/validationSchema.js:122 | `\d+` takes the whole digit run |
| ValidationSchema.PaddedValue | frontend/src/Utils/validationSchema.js:125-128 | A two-digit minute reads back as the minute |
| ValidationSchema.LetterNotSpace | frontend/src/Utils/validationSchema.js:122 | No letter is white space |
| ValidationSchema.MeridiemText | frontend/src/Utils/validationSchema.js:122 | `\s?(AM\|PM)` matches an optional space and a meridiem in any case |
| ValidationSchema.AfterHourText | frontend/src/Utils/validationSchema.js:122-128 | After the colon, the minutes and the meridiem give the 24-hour time |
| ValidationSchema.MatchText | frontend/src/Utils/validationSchema.js:122 | A match at the head reads the hour digits and then the colon |
| ValidationSchema.MatchShape | frontend/src/Utils/validationSchema.js:121-129 | A text `h:mm[ ]AM` parses to the 24-hour hour and the minutes |
| ValidationSchema.ClockHourAgrees | frontend/src/Utils/helper.js:81-86 | For upper-case AM and PM, the `convertTimeToISO` hour equals the `parseTime` hour |
| ValidationSchema.ParseTimeText | frontend/src/Utils/validationSchema.js:121-129 | `parseTime` maps 12 AM to 0, 12 PM to 12 and other PM hours to h + 12, in any letter case, with or without the space |
| ValidationSchema.LowerCaseMidnight | frontend/src/Utils/validationSchema.js:126-127 | For "12:00 am", `parseTime` gives hour 0, while `convertTimeToISO`'s case-sensitive test keeps 12 |
| ValidationSchema.TimerStrict | frontend/src/Utils/validationSchema.js:131-137 | "Later" is irreflexive and asymmetric on filled times |
| ValidationSchema.TimerChains | frontend/src/Utils/validationSchema.js:131-137 | "Later" is transitive |
| ValidationSchema.TimerAroundNoonAndMidnight | frontend/src/Utils/validationSchema.js:121-137 | 11 PM to 12 AM fails the timer test, since midnight is hour 0; 11 AM to 12:30 PM passes |
| ValidationSchema.MarketFormRule | frontend/src/Utils/validationSchema.js:3-142 | The market form has no error exactly when every field rule holds, an unparseable time included as a failure |
| ValidationSchema.ResetRule | frontend/src/Utils/validationSchema.js:145-154 | The reset form passes exactly when the old and new passwords are filled, the new differs from the old, and the confirmation equals the new |
| Text.PadStart | backend/constructor/ticketService.js:51-53 | `padStart(n, c)` is at least n long, ends with the text and is filled with c before it |
| Text.Last | backend/controllers/admin.controller.js:231 | `slice(-k)` is the last min(k, length) characters |
| Text.NatDigits | backend/constructor/ticketService.js:51 | `String(n)` is a non-empty digit run without a leading zero except for 0 itself |
| Text.IntToString | backend/constructor/ticketService.js:51 | `String(g)` is the digits, after a '-' for a negative number |
| Text.ParseInt | backend/constructor/ticketService.js:47-48 | `parseInt` is NaN exactly when the text does not start with a digit |
| Text.Split | backend/controllers/admin.controller.js:321 | `split(' ')` gives at least one field, and the text itself when it holds no space |
| Text.SplitThree | backend/controllers/admin.controller.js:321-322 | Splitting three space-free fields joined by spaces gives them back |
| Seqs.Distinct | backend/controllers/admin.controller.js:275 | `[...new Set(xs)]` has no duplicates and holds exactly the values of xs |
| Seqs.DistinctOrder | backend/controllers/admin.controller.js:275 | The set keeps first-occurrence order |
| Seqs.FirstIndex | backend/constructor/ticketService.js:35 | `indexOf` is the first position of the value |
| Seqs.Filter | backend/constructor/ticketService.js:33 | `filter` keeps exactly the elements that pass |

## Left out

- Transport and libraries: HTTP requests and responses, status codes and messages, Sequelize itself, and the axios transport to the ledger. The ledger's answers are a parameter.
- Authentication, hashing, login and the admin password reset: these are library wrappers. Only the reset form's field rule is modelled.
- Wall-clock time: "today", `getISTTime`, the +5:30 shift and the ISO output of `convertTimeToISO`. Days and times are integer parameters. The date rule of the market form compares with the current date, so `MarketForm` has no date field.
- `generateTimerOptions`, `generateUniqueNumbers`, `generate1stPrizeNumber` and `generatePrizes`: clock arithmetic and randomness.
- The uuids of `searchTickets` and `PurchaseTickets`: they are parameters.
- Pagination (`page`, `limit`, `offset`, `slice`). The `search` filters of `liveMarkets` and `liveLotteries` are modelled as a substring test (`LiveRows`, `LotteryRows`); the case handling of SQL `LIKE` under the database collation and its `%` and `_` wildcards inside the search text are left out.
- The `announce` filter of `getResult`: `announceTime` is not a column the model's result row carries, so every stored row is reported.
- The listing filters of `getAllMarkets` (date, isVoid, isWin, hideMarketUser) and its sort by creation time. Only its activation rule is modelled.
- Concurrency: two declarations for the same market at once are neither prevented nor modelled. `ResultDeclare` is one sequential call.
- The `list` call inside the First Prize match: its listing is discarded, and only its failure is modelled (`FirstListFails`). Because `purchaseTickets` takes `marketId` from the request without checking it against the searched range, a market's first purchase can carry a series the market does not offer; then the First Prize is not settled. A failed payout is one abort, whichever status it would report.
- The reply of the profit-loss request is never checked in the source. The model records the request and ignores its reply too.
- `Promise.all` runs the lists concurrently and rejects with whichever fails first in time. The model takes the first failing purchase in order.
- Error replies that depend on JavaScript coercion: a non-array `ticketNumber` (wrapped into a one-element array), `sem` given as a string (the model takes sem as an integer, so `sem === 5` is an integer test), and "Invalid date format" for a bad date text.
- `parseInt` is modelled as the leading decimal digits of the text. Leading white space and a sign are not modelled.
- The number bounds of the search query compare as text (`LexLe`). SQL collation is not modelled, nor `LIKE` wildcards inside a ticket number.
- Key order of JavaScript objects: `Object.keys` lists integer-like keys (the prize ranks of `validateAllInputs`) in ascending order. The model takes the ranks as a sequence, which stands for them in that order.
- AggregateUsers: the order stated is first-purchase order. `Object.values(userData)` at backend/controllers/admin.controller.js:777 lists integer-like userNames ("7", "42") first, in ascending numeric order, and only then the other names in insertion order; the model does not reorder integer-like names, so for them the source's order differs from the one stated.
- FindUser: `userData` is a plain object, so `userData[userName]` at backend/controllers/admin.controller.js:754 is truthy for a userName that is an `Object.prototype` key ("constructor", "__proto__", "toString"). No entry is created, `.details.push` at :769 throws a TypeError, and `liveLotteries` fails. The model looks names up in its own entry list and reports none for such a name, so it does not capture that failure.
- CheckPrize: `prizeLimits[prizeCategory]` at backend/controllers/ResultDeclaration.js:73 is truthy for a category that is an `Object.prototype` key ("toString", "constructor"). Such a prize is then refused at :79 by the ticket-count test, with a message naming the inherited function, rather than as an invalid category. The model refuses every unknown category as invalid; both are refusals and no row is written, but the error differs.
- ResultDeclaration.SuffixRuleFiveCursors: stated for one step, for a ticket of at least five characters and cursors already five characters long. A First or Second ticket shorter than five characters gives a shorter cursor through `slice(-5)`, and the fact is not lifted over the whole prize loop.
- Yup's display of the first failing test per field, and the number fields' rejection of non-numeric input: the model keeps the list of failing tests, and numbers are integers or absent.
- A `Date` built from an hour past 23 rolls into the next day. The model compares minutes, which orders those dates the same way. Daylight-saving shifts are not modelled.
- `charCodeAt` on characters outside the basic plane: Dafny characters are Unicode scalar values.
- The other endpoints of the two controllers (`purchaseHistory`, `getDrawDateByDate`, `dateWiseMarkets`, `adminSearchTickets`, `adminPurchaseHistory`, `getAllMarkets`' listing, `getTicketRange`, `getInactiveMarket`, `updateMarketStatus`): listings and flag updates outside the ticket arithmetic.
- The React components, the fetch wrappers and the other controllers (void, revoke, trash, delete, tickets, external analysis): the last repeats the `liveLotteries` aggregation already modelled.
- Helper.Letters: its contract states the membership and the order of the letters, not their count (23).
- ValidationSchema.PickerAToK: states which letters are offered by membership, not their count (nine).
- ValidationSchema.SeriesGapCountsSkipped: the same restriction as PickerAToK.
- Helper.CompareDigitsByPlace: the inputs are natural numbers. A negative number's '-' sign, which becomes NaN in the source, is not modelled. The digit properties are stated below 100000, where the padded text has five digits.
- Helper.GroupsCountUp: stated for a natural start. Entries for a negative start are not shown to read back.
- Helper.FilterDataPadded: stated for a natural rangeStart.
- TicketService.AllDistinct: distinctness is proved under the two size conditions, T ≤ L and ceil(sem/T) ≤ ge - gs + 1. Beyond them tickets can repeat.
- ResultDeclaration.Payouts: its own contract states only how the pass can fail. What it pays is stated by PayoutsPayEach and PayoutsAmounts.

## Findings

| source | as written | input that shows it | evidently intended | confidence | as-written member | corrected member |
|---|---|---|---|---|---|---|
| backend/controllers/user.controller.js:190-213 | The market query loads only marketId, marketName, price and isActive. `new Date(undefined)` is invalid, so the test "time ended" is always false | A market with end time 100, still flagged active, and a purchase at time 150: the purchase is admitted | A purchase at or after the end time is refused, and the market is saved inactive | not executed | UserController.GateAsWritten, UserController.AsWrittenAdmitsAfterEnd | UserController.Admit, UserController.AdmitRule, UserController.Tables.PurchaseTickets |
| backend/controllers/user.controller.js:620-630 | The object literal has two `where` keys, and the later one replaces `{ userId }`, so the query is not filtered by user | Purchases by u1 in market m1 and by u2 in m2 on the same day: u1's list holds m2 | Only the markets of the user's own purchases are listed | not executed | UserController.UserMarketsAsWritten, UserController.AsWrittenListsOthers | UserController.UserMarkets, UserController.UserMarketsOwn |
