# SorteBem bingo back end — a Dafny model

SorteBem sells bingo cards ("cartelas") for timed rounds. A round is first scheduled. It then opens for selling and stops selling a few minutes before its draw. After that it draws the numbers 1..75 one at a time and finishes once all are out. Players declare victory on cards that complete a winning pattern. Buyers pay by PIX or credit card through the Asaas or PagSeguro gateways. Point-of-sale terminals in partner establishments also sell cards. Every sale is split between the prize pool, a charity, the platform and commissions for the establishment and its manager.

This project models that core as pure functions over an immutable database record.

- `Store.Db` holds one map per table keyed by id (rounds, purchases, cards, winners, users, establishments, managers, charities), the drawn-number and commission rows as sequences, and a record of the settings the services read.
- Each route handler, service function or cron sweep becomes one function from a `Db` (plus its request) to a result and a new `Db`. A transaction that rolls back returns the old `Db` unchanged.

## Modules

Each module follows one source file.

- `WinChecker`: the pattern table, the win scan, the two tie-breaks and pattern validation.
- `CardGenerator`: column sampling, the 24-slot card layout, the grid converters and the card-code retry loop.
- `RoundManager`: the round state machine, the draw engine and the time-driven sweep.
- `Jobs`: the cron sweeps (`checkExpiredPurchases`, `autoDrawNumbers`, `processCommissions`, `processPaidPurchases`), one tick each.
- `PaymentService`: gateway selection, the status tables, the settlement split (as written, where every settlement fails before it starts, and with the client acquisition corrected), the status-change guard, refunds, and PIX and card charge creation.
- `PurchasesRoute`, `PosRoute`, `CardsRoute`, `PrizesRoute` and `EstablishmentsRoute`: the business rules of those HTTP routes.
- `Validate`: the schema rule engine and the CPF/CNPJ check-digit schemes of the Receita Federal.
- `Helpers`: pagination, phone/CPF/CNPJ formatting and response envelopes.
- `CodeGenerator`: the code alphabets and formats, and slug handling.
- `PixService`, `PagSeguro` and `WhatsApp`: the pure parts of those services.
- `Store`, `Json`, `Text`, `Keys` and `Wrappers`: shared data model and helpers.

Inputs the real system obtains from elsewhere become parameters:

- the clock (`now`, in milliseconds);
- the random choices, given as indices into the set of legal outcomes;
- the gateway's answers;
- the order in which a query returns its rows.

## Model

| member | source | states |
|---|---|---|
| CardGenerator.Range | src/services/cardGenerator.js:19-21 | the pool of available numbers is `min, min + 1, …, max` in order |
| CardGenerator.RemoveAt | src/services/cardGenerator.js:26 | removing one entry shortens the pool by one and adds nothing to it |
| CardGenerator.RemoveAtDistinct | src/services/cardGenerator.js:26 | the removed number is no longer in the pool, and the pool keeps having no repeats |
| CardGenerator.Choose | src/services/cardGenerator.js:23-27 | the drawing loop returns `count` pairwise different numbers, all taken from the pool |
| CardGenerator.Insert | src/services/cardGenerator.js:29 | inserting a new number into an ascending list keeps it ascending and adds exactly that number |
| CardGenerator.SortAscending | src/services/cardGenerator.js:29 | the numeric sort returns the same numbers in strictly ascending order |
| CardGenerator.GenerateUniqueNumbers | src/services/cardGenerator.js:15-30 | the result is `count` numbers of `min..max`, strictly ascending, and exactly the numbers the drawing loop chose |
| CardGenerator.IncreasingDistinct | src/services/cardGenerator.js:29 | a strictly ascending column repeats no number |
| CardGenerator.DrawColumn | src/services/cardGenerator.js:44-48 | column k gets five ascending numbers of `15k+1 .. 15k+15`, four for the centre column |
| CardGenerator.DrawColumns | src/services/cardGenerator.js:43-48 | all five columns have the card's shape and lie in their own ranges |
| CardGenerator.AssembleLayout | src/services/cardGenerator.js:51-57 | each of the 24 array positions holds the column entry the layout table names for it |
| CardGenerator.LayoutInjective | src/services/cardGenerator.js:51-57 | no two array positions hold the same entry of the same column |
| CardGenerator.AssembledInRange | src/services/cardGenerator.js:34-57 | every array position holds a number of its column's range |
| CardGenerator.AssembledDistinct | src/services/cardGenerator.js:51-57 | two array positions never hold the same number |
| CardGenerator.CardNumbersValid | src/services/cardGenerator.js:41-57 | every generated card has 24 different numbers, each in the range of its column |
| CardGenerator.CentreIndexHoldsColumnT | src/services/cardGenerator.js:54 | array index 12, which the comment calls the free centre, holds column T's middle number (46 to 60) |
| CardGenerator.GridShowsColumns | src/services/cardGenerator.js:114-122 | the grid of a generated card shows each column's numbers top to bottom, with `FREE` in the middle of column R |
| CardGenerator.ConvertToArray | src/services/cardGenerator.js:129-137 | the conversion as written reads grid rows 2 and 3 of column R into positions 16 and 21, and agrees with the inverse of convertToGrid at every other position |
| CardGenerator.ConvertToArrayLosesColumnR | src/services/cardGenerator.js:114-137 | converting an array to the grid and back as written puts `FREE` at position 16 and the old position 16 at 21, so the array is not given back; all 22 other positions come back unchanged |
| CardGenerator.ConvertToArrayFixedRoundTrip | src/services/cardGenerator.js:114-137 | the corrected conversion undoes `convertToGrid` exactly |
| CardGenerator.ConvertToGridFixedRoundTrip | src/services/cardGenerator.js:114-137 | for a grid with `FREE` in the centre, converting it to the array and back gives the same grid |
| CardGenerator.CodesInUse | src/services/cardGenerator.js:65 | the codes taken are exactly the codes of the stored cards: every stored code, and no other |
| CardGenerator.CodeCandidates | src/services/cardGenerator.js:63-64 | every attempt of the retry loop is a well-formed card code |
| CardGenerator.GenerateCard | src/services/cardGenerator.js:41-89 | a card is stored under a new id with the first code no card uses and valid numbers, and nothing else changes; it fails exactly when every code attempt is taken |
| CardGenerator.GenerateCardKeepsCodesUnique | src/services/cardGenerator.js:60-75 | adding a card keeps card codes unique |
| CardGenerator.AddsCardsCons | src/services/cardGenerator.js:101-104 | one card followed by the cards of the remaining calls together make the cards the whole loop adds |
| CardGenerator.GenerateCards | src/services/cardGenerator.js:98-107 | the loop adds `quantity` new valid cards with fresh codes (none for a quantity of zero or less) and keeps codes unique |
| CardsRoute.CardByCode | src/services/cardGenerator.js:144-164 | the card found has the code asked for and is the first such row; none is found exactly when no card has the code |
| CardsRoute.ActivePatterns | src/routes/cards.js:59 | an absent `winning_patterns` setting falls back to the four line patterns; a present one is used as it is |
| CardsRoute.CheckCard | src/routes/cards.js:26-76 | an unknown code answers not found; a round with no draws answers "not started"; otherwise the reply counts the draws and reports no win exactly when no active pattern is complete |
| CardsRoute.NoDrawsNoWin | src/routes/cards.js:48-56 | before the first draw no card is reported as a winner, whatever its numbers |
| CardsRoute.DeclareVictory | src/routes/cards.js:79-163 | every refusal (not found, unpaid, round not drawing, no pattern, already declared) leaves the database as it was; a success needs all checks to pass, marks the card and adds exactly one winner row with the round's whole prize pool |
| CardsRoute.DeclareKeepsWinnersMatched | src/routes/cards.js:125-147 | every winner row names a card flagged as winner and no card has two winner rows, before and after a declaration |
| CardsRoute.DeclareOnce | src/routes/cards.js:125-132 | declaring the same card a second time answers "already declared" and changes nothing |
| CodeGenerator.AlphabetsAreUnambiguous | src/utils/codeGenerator.js:7-8 | the code alphabet has 32 characters, the key alphabet 57, and neither holds 0, 1, O, I or l |
| CodeGenerator.RandomString | src/utils/codeGenerator.js:9 | a generated string has the requested length, every character is from the alphabet, and the k-th character is the one the k-th random index selects |
| CodeGenerator.CardCode | src/utils/codeGenerator.js:15-17 | a card code is `SB-` followed by eight alphabet characters |
| CodeGenerator.ManagerCode | src/utils/codeGenerator.js:23-26 | a manager code is `MGR-` followed by six alphabet characters |
| CodeGenerator.EstablishmentCode | src/utils/codeGenerator.js:32-35 | an establishment code is `EST-` followed by six alphabet characters |
| CodeGenerator.PosTerminalId | src/utils/codeGenerator.js:41-43 | a terminal id is `POS-` followed by eight alphabet characters |
| CodeGenerator.PosApiKey | src/utils/codeGenerator.js:49-52 | an API key is 32 characters of the wider alphabet and none is ambiguous |
| CodeGenerator.CodeKindsDisjoint | src/utils/codeGenerator.js:15-43 | codes of different kinds never coincide, whatever the random draws |
| CodeGenerator.RemoveMarks | src/utils/codeGenerator.js:63 | the result has no combining mark and only characters of the input |
| CodeGenerator.KeepWordSpaceHyphen | src/utils/codeGenerator.js:64 | only word characters, white space and hyphens of the input remain |
| CodeGenerator.SpacesToHyphens | src/utils/codeGenerator.js:65 | no white space remains; every other character is a hyphen or comes from the input |
| CodeGenerator.CollapseHyphens | src/utils/codeGenerator.js:66 | no two hyphens stand together, characters come from the input, and a leading hyphen is kept exactly when the input had one |
| CodeGenerator.Trim | src/utils/codeGenerator.js:67 | the result neither starts nor ends with white space, and an input without white space is returned unchanged |
| CodeGenerator.GenerateSlugIsSlug | src/utils/codeGenerator.js:59-68 | every generated slug holds only lower-case letters, digits, `_` and `-`, with no two hyphens together |
| CodeGenerator.SlugStepsFixSlugs | src/utils/codeGenerator.js:60-67 | on a well-formed slug each step of the pipeline changes nothing |
| CodeGenerator.GenerateSlugIdempotent | src/utils/codeGenerator.js:59-68 | slugifying a slug gives the same slug |
| CodeGenerator.SlugKeepsEdgeHyphens | src/utils/codeGenerator.js:65-67 | the name " A " gives the slug "-a-": white space has become hyphens before the trim, so the trim removes nothing |
| CodeGenerator.AddSlugSuffix | src/utils/codeGenerator.js:76-78 | the suffixed slug starts with the base, then `-`, then the counter in decimal |
| CodeGenerator.AddSlugSuffixInjective | src/utils/codeGenerator.js:76-78 | different counters give different suffixed slugs |
| CodeGenerator.FirstFresh | src/routes/establishments.js:50-55 | the retry loop returns the first generated code not already taken, and fails exactly when every attempt is taken |
| EstablishmentsRoute.FreshCode | src/routes/establishments.js:49-55 | the establishment code chosen is the first attempt no establishment uses, and none is chosen only when all attempts are in use |
| EstablishmentsRoute.CandidateInjective | src/routes/establishments.js:58-65 | the slugs the loop tries (the base, then `base-1`, `base-2`, …) are pairwise different |
| EstablishmentsRoute.TriedStep | src/routes/establishments.js:59-66 | each round of the slug loop tries a slug not tried before, which is why the loop ends |
| EstablishmentsRoute.UniqueSlug | src/routes/establishments.js:57-66 | the chosen slug is free; it is the base when the base is free, otherwise `base-n` where the base and every `base-k` with k < n are taken |
| EstablishmentsRoute.TriedAreTaken | src/routes/establishments.js:59-66 | once the loop has moved past the base, the base and every earlier numbered slug were taken |
| EstablishmentsRoute.AddEstablishment | src/routes/establishments.js:39-46 | the inserts add one new user row and one new establishment row holding the name, manager, code and slug, and change no other table |
| EstablishmentsRoute.CreateEstablishment | src/routes/establishments.js:30-86 | a missing password or name, or no free code, fails the request; a success stores the first free code and a free slug derived from the name |
| EstablishmentsRoute.CreationKeepsUnique | src/routes/establishments.js:48-74 | creating an establishment keeps codes and slugs unique across establishments |
| Helpers.EffectivePage | src/utils/helpers.js:115 | the page is at least 1: a missing, zero or negative page becomes 1 and any other page is kept |
| Helpers.EffectiveLimit | src/utils/helpers.js:116 | the limit lies in 1..100: missing or zero gives 20, negatives give 1, more than 100 gives 100, and a limit in range is kept |
| Helpers.CalculateOffset | src/utils/helpers.js:114-118 | the offset is a non-negative multiple of the limit that skips exactly the pages before the current one |
| Helpers.CeilDiv | src/utils/helpers.js:130 | the page count is the least number of pages of the limit that holds every item |
| Helpers.CreatePaginationMeta | src/utils/helpers.js:127-140 | the meta reports the clamped page and limit and the total; the page count is the least number of pages of that limit holding the total; there is a next page exactly when the page is before the last, and a previous one exactly when it is past the first |
| Helpers.HasNextIffItemsRemain | src/utils/helpers.js:130-137 | there is a next page exactly when items remain after the current page's window |
| Helpers.AddMinutes | src/utils/helpers.js:152-154 | the result lies the given number of minutes, in milliseconds, after the base time |
| Helpers.AddMinutesComposes | src/utils/helpers.js:152-154 | adding a then b minutes is adding a + b minutes |
| Helpers.AddMinutesMonotone | src/utils/helpers.js:152-154 | shifting two times by the same minutes keeps their order |
| Helpers.FormatPhone | src/utils/helpers.js:198-209 | formatting keeps the digits in order; with 11 digits the result is 15 characters with the area code in parentheses and a hyphen before the last four, with 10 digits 14 characters in the same layout; any other input is returned unchanged |
| Helpers.FormatPhoneIdempotent | src/utils/helpers.js:198-209 | formatting an already formatted phone changes nothing |
| Helpers.FormatCpf | src/utils/helpers.js:216-224 | formatting keeps the digits in order; with 11 digits the result is 14 characters with dots after the third and sixth digit and a hyphen before the last two; any other input is returned unchanged |
| Helpers.FormatCpfIdempotent | src/utils/helpers.js:216-224 | formatting an already formatted CPF changes nothing |
| Helpers.FormatCnpj | src/utils/helpers.js:231-239 | formatting keeps the digits in order; with 14 digits the result is 18 characters with dots, a slash before the branch number and a hyphen before the check digits; any other input is returned unchanged |
| Helpers.FormatCnpjIdempotent | src/utils/helpers.js:231-239 | formatting an already formatted CNPJ changes nothing |
| Helpers.SuccessResponse | src/utils/helpers.js:250-252 | a success envelope carries the data and no details |
| Helpers.ErrorResponse | src/utils/helpers.js:260-264 | an error envelope carries the message, and carries the details exactly when they are truthy |
| Helpers.OkSeparatesResponses | src/utils/helpers.js:250-264 | the ok flag tells the envelopes apart: a success response is never an error response, whatever the data, message and details |
| Jobs.CheckExpiredPurchases | src/cron/jobs.js:77-90 | exactly the pending PIX purchases whose expiration lies before now become expired; every other row and table is unchanged |
| Jobs.CheckExpiredPurchasesIdempotent | src/cron/jobs.js:77-90 | after a sweep nothing is left to expire, so a second sweep at the same instant changes nothing |
| Jobs.AutoDrawRound | src/cron/jobs.js:104-117 | a round not drawing or already full is left alone; otherwise it is finished at now exactly when the snapshot read before the tick held 74 or more numbers, and stays drawing otherwise |
| Jobs.AutoDrawRoundAppends | src/cron/jobs.js:107 | a tick appends one number of 1..75 not drawn before and keeps the earlier draws |
| Jobs.DrawMatchesAutoDrawRound | src/cron/jobs.js:107 | a successful draw gives the round exactly the drawn list a tick's draw gives |
| Jobs.FinishIfFull | src/cron/jobs.js:110-117 | the unguarded finishing update after a draw leaves the round as a tick leaves it, and only rounds and draws change |
| Jobs.AutoDrawStep | src/cron/jobs.js:105-120 | one loop iteration changes one round the way a tick does, with only rounds and draws touched; a failed draw is skipped |
| Jobs.AutoDrawRows | src/cron/jobs.js:104-121 | the loop keeps the set of rounds and touches only rounds and draws |
| Jobs.AutoDrawRowsEffect | src/cron/jobs.js:104-121 | with distinct listed rounds each one gets its own tick with its own pick and snapshot, and unlisted rounds are untouched |
| Jobs.AutoDrawNumbers | src/cron/jobs.js:95-122 | each selected drawing round with fewer than 75 numbers gets one tick; every other round is untouched |
| Jobs.AutoDrawOutcome | src/cron/jobs.js:95-122 | each selected round gains exactly one number and stays free of repeats, and is finished exactly when it had 74 or more numbers before the tick |
| Jobs.CommissionsFor | src/cron/jobs.js:144-180 | a purchase yields an establishment commission of the total at the establishment's rate when it has an establishment, then a manager commission at the manager's rate when that establishment has a manager, each for the purchase |
| Jobs.ApplyCommissionRow | src/cron/jobs.js:144-180 | the row's commissions are appended, only commission totals of establishments and managers change, and a row without commissions changes nothing |
| Jobs.ApplyCommissionRows | src/cron/jobs.js:143-181 | the commissions of all rows are appended in row order and only totals change |
| Jobs.ProcessCommissions | src/cron/jobs.js:127-194 | every paid purchase without commissions gets its commission rows, in the order read, and establishments and managers change only in their totals |
| Jobs.AllCommissionsBelong | src/cron/jobs.js:149-170 | every commission produced belongs to one of the purchases read |
| Jobs.UnmentionedRowAddsNothing | src/cron/jobs.js:145-164 | a purchase none of whose commissions appears produced none |
| Jobs.EmptyRowsAddNothing | src/cron/jobs.js:143-181 | purchases that produce no commission add none, however many there are |
| Jobs.CommissionRowStable | src/cron/jobs.js:134-141 | changing only commission totals does not change what the query reads for a purchase |
| Jobs.ProcessCommissionsRerunAddsNothing | src/cron/jobs.js:134-141 | running the job again right after a run changes nothing: the only purchases still selected are those that produce no commission |
| Jobs.AddSale | src/cron/jobs.js:218-234 | the purchase's round gains its quantity in cards sold and the fixed 40/20/30/10 split of its total; a missing round matches nothing and no other round changes |
| Jobs.FixedSplitComposes | src/cron/jobs.js:218-234 | two sales added one after the other add up to one sale of their sums |
| Jobs.AddsBatchesCons | src/cron/jobs.js:213-215 | the cards of the first purchase followed by those of the rest are the cards of all purchases |
| Jobs.SalesCompose | src/cron/jobs.js:213-234 | the round updates of the first purchase followed by those of the rest add up to each round's totals over all purchases |
| Jobs.ProcessPaidRows | src/cron/jobs.js:213-247 | each purchase gets as many fresh cards of its round as its quantity asks, each round gains the summed quantities and split totals of its purchases, stored cards and unique codes are kept, and only cards and rounds change |
| Jobs.Notices | src/cron/jobs.js:237-244 | one notice per purchase with a WhatsApp number, carrying that number, the codes of its cards and its round, and no other notice |
| Jobs.ProcessPaidPurchases | src/cron/jobs.js:199-256 | every paid purchase without cards is processed as above, and each one with a WhatsApp number is sent its card codes |
| Jobs.BatchGivesCard | src/cron/jobs.js:213-215 | a processed purchase with a positive quantity has a card afterwards |
| Jobs.BatchGivesNoCard | src/cron/jobs.js:213-215 | a purchase with no positive quantity that had no card still has none |
| Jobs.ProcessPaidPurchasesLeavesOnlyEmpty | src/cron/jobs.js:206-215 | after a sweep the only paid purchases still without cards are those whose quantity asked for none, so they are selected again on every run |
| PagSeguro.Phones | src/services/pagseguroService.js:85-90 | a truthy phone gives exactly one Brazilian mobile entry whose area and number together are the phone's digits; no phone gives no entry |
| PagSeguro.TaxId | src/services/pagseguroService.js:84 | the tax id is present exactly when the CPF/CNPJ is, and then consists of its digits only |
| PagSeguro.RefundAmount | src/services/pagseguroService.js:219-225 | an amount is sent exactly when a non-zero value is given, and it is that value; otherwise the whole charge is refunded |
| PagSeguro.NormaliseStatus | src/services/pagseguroService.js:195-200 | PAID and only PAID becomes CONFIRMED, DECLINED or CANCELED and only those become FAILED, and everything else is PENDING |
| PagSeguro.CheckPaymentStatus | src/services/pagseguroService.js:192-210 | the report carries the normalised order status, the order id and reference, and the first charge's amount in reais, payment method and payment time |
| PagSeguro.PolledStatusIsNormalised | src/services/pagseguroService.js:195-200 | polling never reports a raw gateway status, and reports FAILED exactly for declined or cancelled orders |
| PagSeguro.HandleWebhook | src/services/pagseguroService.js:267-278 | a null body is an error; otherwise the order id and reference come from the body and the status, method, amount in reais and payment time from the first charge |
| PagSeguro.WebhookIgnoresLaterCharges | src/services/pagseguroService.js:273-276 | charges after the first never change what a webhook reports |
| PagSeguro.OfferedDownward | src/services/pagseguroService.js:319-321 | if some number of installments is worth the minimum each, so is every smaller number |
| PagSeguro.CalculateInstallments | src/services/pagseguroService.js:314-332 | the entries are for 1, 2, … installments in order, each with its share and the total in reais and interest-free up to three, and a count up to the maximum is listed exactly when each installment is worth at least R$ 5,00 |
| PaymentService.SelectGateway | src/services/paymentService.js:16-47 | a missing gateway configuration fails; PIX goes to the configured active gateway or else Asaas, a card always to PagSeguro, and any other method fails |
| PaymentService.CardGatewayIgnoresConfig | src/services/paymentService.js:41-44 | which gateway charges a card does not depend on the configuration |
| PaymentService.MapGatewayStatus | src/services/paymentService.js:304-334 | each gateway's status table applies, and an unlisted status or an unknown gateway yields pending |
| PaymentService.MapGatewayStatusPaid | src/services/paymentService.js:305-331 | Asaas's RECEIVED, CONFIRMED and RECEIVED_IN_CASH and PagSeguro's PAID, CONFIRMED and AUTHORIZED and nothing else count as paid; Asaas never yields failed and PagSeguro only for DECLINED |
| PaymentService.PolledPagSeguroStatus | src/services/paymentService.js:262-266 | a polled PagSeguro order maps to paid exactly when it was PAID, and otherwise to pending, never to failed |
| PaymentService.PolledDeclineStaysPending | src/services/paymentService.js:262-266 | a declined or cancelled order stays pending when polled, although the table maps a raw DECLINED to failed |
| PaymentService.MapGatewayStatusFixed | src/services/paymentService.js:304-334 | agrees with the table everywhere except that PagSeguro's normalised FAILED maps to failed |
| PaymentService.PolledStatusFixed | src/services/paymentService.js:321-331 | with the correction a polled order is paid exactly when PAID, failed exactly when declined or cancelled, and pending otherwise |
| PaymentService.SplitShares | src/services/paymentService.js:372-380 | prize, charity, platform and commission are the configured percentages of the total, and the establishment's and manager's shares are their rates of the commission |
| PaymentService.SplitSharesWhole | src/services/paymentService.js:372-378 | when the percentages add up to 100 the four parts hand out exactly the whole sale |
| PaymentService.Settle | src/services/paymentService.js:383-426 | settling changes only rounds, cards, establishments, managers and charities, and keeps their keys |
| PaymentService.SettleEffects | src/services/paymentService.js:347-426 | the purchase's round gains the sale, the prize share and the charity share; the round's establishment, manager and charity gain their shares when present; the purchase's cards become sold; nothing else in those tables changes |
| PaymentService.ProcessSuccessfulPayment | src/services/paymentService.js:340-341 | as written every call throws "db.getClient is not a function" before BEGIN, because the pool has no such method: nothing is settled and no row changes |
| PaymentService.ProcessSuccessfulPaymentFixed | src/services/paymentService.js:340-441 | corrected (client from `db.connect()`): a missing purchase or split configuration fails with no change; otherwise the settlement happens as a whole |
| PaymentService.SettlementSkipsPlatformAndCommission | src/services/paymentService.js:411-418 | corrected settlement: it never touches a round's platform or commission amounts, its status or its draws |
| PaymentService.SettlementHasNoGuard | src/services/paymentService.js:340-441 | corrected settlement: settling the same purchase twice succeeds and credits its round's sales twice |
| PaymentService.ApplyGatewayStatus | src/services/paymentService.js:268-282 | as written: an unchanged status changes nothing; a changed one is stored with the payment time stamped only on paid, nothing else changes, no settlement happens, and a change to paid is reported as a failure |
| PaymentService.ApplyGatewayStatusFixed | src/services/paymentService.js:268-282 | corrected settlement: as written, except that a change to paid settles the purchase when the split configuration is present and reports failure, keeping the stored status, when it is not |
| PaymentService.StatusChangeGuard | src/services/paymentService.js:268-282 | as written and corrected, the purchase ends with the new status and applying the same status again changes nothing; in the corrected version settlement runs only on a change from another status to paid |
| PaymentService.PaidAtStampedOnlyWhenPaid | src/services/paymentService.js:273 | as written and corrected, a change to any status other than paid keeps the payment time |
| PaymentService.CheckPaymentStatus | src/services/paymentService.js:236-299 | as written: a missing purchase is an error; without a transaction id, with an unknown gateway or a failing gateway call the stored status is answered with no change; otherwise the gateway's status, normalised for PagSeguro, goes through the as-written table and is stored, and a change to paid, whose settlement always fails, answers the old status with the error |
| PaymentService.PolledPaymentLeftUnsettled | src/services/paymentService.js:268-297 | as written, a poll that finds a payment confirmed leaves the purchase paid with the payment time stamped, every other table unchanged, and answers the old status with the error |
| PaymentService.PolledDeclineLeavesPurchasePending | src/services/paymentService.js:262-266 | as written, polling a pending PagSeguro purchase whose order was declined or cancelled answers pending and changes nothing |
| PaymentService.CheckPaymentStatusFixed | src/services/paymentService.js:236-299 | polling with both corrections: the corrected status table, so a normalised FAILED becomes failed, and the corrected settlement, so a change to paid settles the purchase |
| PaymentService.PolledDeclineFailsPurchase | src/services/paymentService.js:321-331 | with the corrected table the same poll marks the purchase failed and answers failed, changing nothing else |
| PaymentService.FindByGatewayTx | src/services/paymentService.js:544-555 | the purchase found has this gateway and transaction id and is the first of those that do; none is found exactly when no purchase matches |
| PaymentService.WebhookTarget | src/services/paymentService.js:531-556 | a webhook targets a purchase exactly when the gateway is known, the body parses, and its transaction id is a non-empty string some purchase of that gateway carries; the target status is the reported status through the as-written table |
| PaymentService.HandlePaymentWebhook | src/services/paymentService.js:531-581 | as written: without a target the reply is failure and nothing changes; otherwise the status from the as-written table is stored as in polling, and the reply is success exactly when the change is not one to paid, since that settlement always fails |
| PaymentService.HandlePaymentWebhookFixed | src/services/paymentService.js:531-581 | corrected settlement: the target's status is applied with settlement on a change to paid, and the reply is failure only when there is no target or no split configuration |
| PaymentService.WebhookRedeliveryIsHarmless | src/services/paymentService.js:559-573 | as written and corrected, delivering the same webhook a second time changes nothing, so the corrected settlement runs at most once per delivery sequence |
| PaymentService.RefundPayment | src/services/paymentService.js:461-524 | only an existing paid purchase whose gateway call does not fail is refunded: it is marked refunded with time and reason, and exactly its cards return to the pool without purchase or owner |
| PaymentService.RefundReleasesCards | src/services/paymentService.js:474-513 | after a refund no card belongs to the purchase, its former cards are available and unowned, and a second refund is rejected |
| PaymentService.Customer | src/services/paymentService.js:160-165 | the customer's name, e-mail and tax id win when present; then the card holder's name and tax id; then the default name and the per-purchase default e-mail; the phone is the customer's only; so name and e-mail are never empty |
| PaymentService.DefaultEmailInjective | src/services/paymentService.js:162 | two purchases never share a default e-mail address |
| PaymentService.MarkFailed | src/services/paymentService.js:133-140 | the purchase is marked failed and nothing else changes |
| PaymentService.RecordPixCharge | src/services/paymentService.js:100-116 | the purchase keeps everything but the transaction code, gateway, gateway transaction id and gateway expiry, which come from the charge |
| PaymentService.PixChargeValue | src/services/paymentService.js:79-94 | the PIX charge asks Asaas for the purchase total in reais and PagSeguro for it in centavos |
| PaymentService.PixChargeIncludesFee | src/services/paymentService.js:79-94 | the value charged is the amount owed plus what calculatePixFee asks for it (nothing), in the gateway's unit, so the customer pays exactly the purchase total |
| PaymentService.CreatePixPayment | src/services/paymentService.js:56-144 | without a gateway configuration nothing changes and the missing-configuration error is thrown; a failing charge or a gateway without a client marks the purchase failed and throws; otherwise the charge is recorded and the call returns |
| PaymentService.PixChargeError | src/services/paymentService.js:76-144 | the error a failed PIX charge throws is the gateway's own, or for a gateway without a client the failed read of the missing charge's `id` |
| PaymentService.PixChargeLeavesPixExpiration | src/services/paymentService.js:100-116 | a PIX charge never sets the expiration column the expiry sweep reads, and never makes the purchase paid |
| PaymentService.RecordCardCharge | src/services/paymentService.js:182-198 | the purchase records the card charge under PagSeguro and is stored paid exactly when the charge is approved |
| PaymentService.CardChargeWith | src/services/paymentService.js:151-229 | a card charge, with either settlement, never adds or removes a purchase or card row |
| PaymentService.CreateCreditCardPayment | src/services/paymentService.js:151-229 | as written: a failing charge marks the purchase failed and rethrows the gateway's error; an unapproved charge is recorded pending; an approved one is recorded paid, then its settlement throws the getClient error, so it is marked failed and that error is rethrown |
| PaymentService.CreateCreditCardPaymentFixed | src/services/paymentService.js:151-229 | corrected settlement: an approved charge is recorded paid and settled, or marked failed with the settlement's error when the split configuration is missing; the other cases as written |
| PaymentService.ApprovedCardChargeFails | src/services/paymentService.js:195-226 | as written, an approved card charge ends with the purchase failed, the getClient error rethrown and no round or card changed |
| PaymentService.CardPaymentPaidIffApproved | src/services/paymentService.js:195-203 | corrected settlement: a card payment reported as successful leaves the purchase paid exactly when the charge was approved |
| PixService.EmailShapeIsEmail | src/services/pixService.js:132 | the character-level e-mail check accepts exactly the strings of the form local@domain.tld with three non-empty parts free of white space and @ |
| PixService.ValidatePixKey | src/services/pixService.js:129-147 | an e-mail key must have the e-mail shape, a phone key 10 or 11 digits, a CPF key 11 digits, a CNPJ key 14 digits, a random key 32 characters, and any other type is rejected |
| PixService.FormatPixKey | src/services/pixService.js:107-121 | an e-mail key is lower-cased character by character, phone and document keys are reduced to their digits, and any other key is kept |
| PixService.FormatPixKeyIdempotent | src/services/pixService.js:107-121 | formatting a formatted key changes nothing |
| PixService.FormatPixKeyKeepsValidity | src/services/pixService.js:107-147 | a key is valid after formatting exactly when it was valid before |
| PixService.ValidatePixCode | src/services/pixService.js:51-54 | a code is accepted exactly when it is present, starts with the header 00020126 and is longer than 100 characters |
| PixService.PixCodeShape | src/services/pixService.js:51-54 | a code passes exactly when it is the header 00020126 followed by more than 92 characters, and every accepted code splits that way |
| PixService.ProcessPixWebhook | src/services/pixService.js:78-99 | a null body is an error; otherwise the transaction id passes through and an approved status reads paid while any other status passes through |
| PixService.PixWebhookStatus | src/services/pixService.js:91 | after processing no status reads approved, and paid comes exactly from approved or paid |
| PixService.CheckPixStatus | src/services/pixService.js:63-71 | the simulated lookup answers the transaction asked about as pending, with no payment time and no amount |
| PixService.CalculatePixFee | src/services/pixService.js:154-157 | PIX carries no fee, whatever the amount |
| PosRoute.SalePurchase | src/routes/pos.js:108-116 | the sale's purchase row records the terminal, its establishment, the round price times the quantity, and is pending for PIX and paid for any other method |
| PosRoute.PosSale | src/routes/pos.js:90-145 | a round that is not selling fails the sale; a PIX sale only stores its pending purchase; any other sale also adds the quantity's cards and the round's fixed split |
| PosRoute.PosIgnoresCapacity | src/routes/pos.js:97-128 | a paid sale is booked even when it takes the round past its card limit |
| PosRoute.PosSplitIsWhole | src/routes/pos.js:125-128 | the prize, charity, platform and commission shares a paid sale adds sum to the sale's total |
| Store.AddFixedSplit | src/routes/pos.js:125-128 | the round's sold count grows by the quantity and its four amounts by 40%, 20%, 30% and 10% of the total, while its status, draws, sales total, limit, selling flag and price stay as they were |
| Store.FixedSplitIsWhole | src/routes/pos.js:127 | the four fixed shares add up to the whole total |
| PrizesRoute.CheckPrize | src/routes/prizes.js:7-31 | a prize is reported exactly when some winner row belongs to a card with the code, and the row reported is one of them |
| PrizesRoute.Claim | src/routes/prizes.js:34-60 | a missing or empty code or PIX key fails; otherwise the claim succeeds exactly when the card has a pending winner row, and then every pending row of the card, and nothing else, becomes claimed with the key and the time |
| PrizesRoute.SecondClaimFails | src/routes/prizes.js:42-53 | claiming the same card again finds nothing pending and fails |
| PrizesRoute.ClaimTouchesOnlyPending | src/routes/prizes.js:43-47 | a claim leaves rows of other cards and rows already claimed unchanged |
| PrizesRoute.ClaimedPrizeIsFound | src/routes/prizes.js:11-49 | after a successful claim the prize check finds the card's prize and every winner row of the card is claimed |
| PurchasesRoute.UserByEmail | src/routes/purchases.js:58-64 | the user found has the e-mail and is the first of those that do; none is found exactly when no user has it |
| PurchasesRoute.FindOrCreateUser | src/routes/purchases.js:55-75 | a customer without e-mail stays anonymous with no change; otherwise the existing user with that e-mail is used, or a new user is created from the customer's fields, and only users change |
| PurchasesRoute.Reserve | src/routes/purchases.js:26-91 | a request passes exactly when it is complete, the round is selling with sales open and the quantity does not exceed the cards left; then one new pending purchase of that round, user and quantity is added, priced at the round's card price times the quantity, and rounds and cards are untouched |
| PurchasesRoute.AdmitAsWritten | src/routes/purchases.js:26-104 | a rejected request admits nothing; an admitted purchase keeps its reserved row and gets as many cards as its user id (none without a user), and its round's sold count grows by the quantity |
| PurchasesRoute.Admit | src/routes/purchases.js:96 | corrected admission: as written except that generateCards receives the quantity, so an admitted purchase gets one card per unit of a positive quantity; its round's sold count grows by the quantity |
| PurchasesRoute.AdmitGeneratesQuantityCards | src/routes/purchases.js:96 | with the corrected call an admitted purchase owns exactly the cards generated for it, as many as its positive quantity asks for |
| PurchasesRoute.AsWrittenAnonymousGetsNoCards | src/routes/purchases.js:96 | as written, a customer without e-mail is admitted with a non-zero quantity and receives no card |
| PurchasesRoute.AdmitKeepsCapacity | src/routes/purchases.js:45-102 | an admitted purchase never pushes its round's sold count past the card limit |
| PurchasesRoute.NegativeQuantityAdmitted | src/routes/purchases.js:26-50 | a negative quantity passes every check of the route |
| PurchasesRoute.ChargeReply | src/routes/purchases.js:131-144 | the reply is created exactly when the payment service returns, and a failure answers 500 with the thrown message after the route's own prefix |
| PurchasesRoute.PixChargeKeepsRows | src/routes/purchases.js:110-114 | a PIX charge attempt keeps every purchase and card row |
| PurchasesRoute.Pay | src/routes/purchases.js:106-145 | with either settlement: an unknown method, or a card request without token or holder, is rejected with no change; a PIX payment without gateway configuration answers that error with no change; a failing gateway call marks the purchase failed and answers the gateway's message; a created reply names the purchase and its cards; no purchase or card row is added or removed |
| PurchasesRoute.ApprovedCardPurchaseAnswersServerError | src/routes/purchases.js:115-145 | as written, a complete card request whose charge is approved is answered 500 with the getClient error, and the purchase is left failed |
| PurchasesRoute.CreatePurchase | src/routes/purchases.js:11-154 | as written (card count from the user id, settlement that always fails): an incomplete request is rejected, a request for more cards than are left is told how many remain, any rejected admission changes nothing, and an admitted purchase is stored with as many cards as the user id says, whatever the payment does |
| PurchasesRoute.CreatePurchaseFixed | src/routes/purchases.js:96 | the route with the corrected card count and the corrected settlement: rejections as written, and an admitted purchase is stored with one card per unit of its positive quantity |
| PurchasesRoute.AdmittedPurchaseSurvivesPayment | src/routes/purchases.js:104-145 | the purchase and all its cards are committed before payment, so a failing payment never removes them |
| PurchasesRoute.ListCards | src/routes/purchases.js:188-217 | cards are listed exactly when the purchase exists and is paid, and then they are exactly the purchase's cards; a missing purchase is not found |
| PurchasesRoute.Cancel | src/routes/purchases.js:220-241 | only an existing pending purchase is cancelled, and only its status changes |
| PurchasesRoute.CancelOnce | src/routes/purchases.js:188-241 | cancelling twice fails the second time, and a cancelled purchase's cards are never listed |
| RoundManager.NewRoundPrice | src/services/roundManager.js:38-40 | the price is either the configured or the legacy price of the type; a non-zero configured price wins; and the round has a non-zero price exactly when one of the two sources has one |
| RoundManager.UnconfiguredRoundPrices | src/services/roundManager.js:25-40 | without a round configuration a new regular round costs 5 and a new special round 10, whatever the legacy settings say |
| RoundManager.NewRoundMaxCards | src/services/roundManager.js:42 | the card limit is the first truthy of the config's limit, the setting and 10000, so it is never 0 |
| RoundManager.NextRoundNumber | src/services/roundManager.js:44-51 | the next number is 1 with no rounds, otherwise one more than an existing number, and it exceeds every existing number |
| RoundManager.CreateNextRound | src/services/roundManager.js:14-84 | a new selling round of the type is added, numbered one past the highest existing number (1 for the first), starting now, with sales closing after the configured selling minutes and the round ending after the closed minutes; no other row changes |
| RoundManager.CreateNextRoundKeepsInvariants | src/services/roundManager.js:44-65 | creating a round keeps round numbers unique and never creates a scheduled round |
| RoundManager.NewRoundTimeline | src/services/roundManager.js:53-57 | with non-negative configured minutes the start, the end of sales and the end are in order |
| RoundManager.UpdateRoundWhere | src/services/roundManager.js:93-96 | a guarded update changes only the one round, and only when the guard holds |
| RoundManager.StartRoundSelling | src/services/roundManager.js:91-112 | a scheduled round becomes selling with sales open; in any other state, or when missing, nothing changes |
| RoundManager.CloseRoundSelling | src/services/roundManager.js:119-140 | a selling round with sales open stops selling and keeps its status; otherwise nothing changes |
| RoundManager.StartRoundDrawing | src/services/roundManager.js:147-169 | a selling round starts drawing at the given time, whether or not sales were closed; otherwise nothing changes |
| RoundManager.FinishRound | src/services/roundManager.js:246-268 | a drawing or selling round is finished at the given time; otherwise nothing changes |
| RoundManager.GuardedTransitionsIdempotent | src/services/roundManager.js:91-268 | repeating any guarded transition changes nothing more |
| RoundManager.GuardedTransitionsMoveForward | src/services/roundManager.js:91-268 | no guarded transition moves a round backwards, and finished or cancelled rounds are never touched |
| RoundManager.UndrawnFrom | src/services/roundManager.js:200-204 | the candidates are exactly the numbers of the range up to 75 that are not drawn yet |
| RoundManager.UndrawnNonEmpty | src/services/roundManager.js:195-204 | while fewer than 75 numbers are recorded some number of 1..75 is still undrawn, so the sampling loop can end |
| RoundManager.NextNumber | src/services/roundManager.js:200-204 | the drawn number lies in 1..75 and was not drawn before |
| RoundManager.DrawNextNumber | src/services/roundManager.js:176-239 | a missing round, a round not drawing, or 75 numbers already drawn fail with no change; otherwise one new number of 1..75 is appended to the round and recorded in the draws at the next position |
| RoundManager.DrawKeepsRecordValid | src/services/roundManager.js:196-220 | a draw keeps the record free of repeats, within 1..75 and at most 75 long |
| RoundManager.EveryUndrawnNumberReachable | src/services/roundManager.js:201-204 | every undrawn number is a possible outcome of a draw |
| RoundManager.CancelRound | src/services/roundManager.js:275-313 | the round becomes cancelled and exactly the paid purchases of that round become refunded; no other round or table changes |
| RoundManager.RefundPaid | src/services/roundManager.js:288-293 | a purchase is refunded exactly when it is a paid purchase of the round |
| RoundManager.CancelRoundHasNoStatusGuard | src/services/roundManager.js:282-285 | even a finished round becomes cancelled, and afterwards a purchase is refunded exactly when it already was or was a paid purchase of that round |
| RoundManager.UpdateRoundsStatus | src/services/roundManager.js:355-415 | every round goes through the three updates in order and no other table changes |
| RoundManager.UpdateRoundsStatusLeavesNothingDue | src/services/roundManager.js:360-402 | after a sweep no scheduled round is due to start, no selling round is past its end, and no open sale is past its closing time |
| RoundManager.SweepFixesSettledRound | src/services/roundManager.js:360-402 | a round with nothing due at the instant passes through all three updates unchanged |
| RoundManager.UpdateRoundsStatusIdempotent | src/services/roundManager.js:355-415 | a second sweep at the same instant changes nothing |
| RoundManager.UpdateRoundsStatusMovesForward | src/services/roundManager.js:355-415 | a sweep never moves a round backwards and leaves finished and cancelled rounds alone |
| RoundManager.OverdueScheduledRoundStartsDrawing | src/services/roundManager.js:360-402 | a scheduled round whose whole window has passed goes straight to drawing in one sweep |
| RoundManager.NeedsRound | src/services/roundManager.js:324-345 | a round is needed exactly when no round of the type is scheduled or one starts before the lead time |
| RoundManager.CreateIf | src/services/roundManager.js:331-333 | a round of the type is added exactly when one is needed; existing rounds are untouched |
| RoundManager.CheckAndCreateRounds | src/services/roundManager.js:319-349 | a regular round is added when one is needed within 5 minutes and a special one when one is needed within 30 minutes, each a new round of that type; existing rounds are untouched |
| RoundManager.CheckAndCreateRoundsCreatesBoth | src/services/roundManager.js:319-349 | because created rounds are never scheduled, every call with no round scheduled adds exactly two rounds, one regular and one special, and still leaves none scheduled with numbers unique |
| Validate.CpfCheckDigit | src/middleware/validate.js:129-137 | a CPF check digit is always a single digit 0..9 |
| Validate.IsValidCpf | src/middleware/validate.js:121-140 | the two summing loops accept exactly the CPFs of 11 digits, not all equal, whose last two digits are the mod-11 check digits of the digits before them with weights 10..2 and 11..2 |
| Validate.CpfCheckDigitsDetermined | src/middleware/validate.js:121-140 | two valid CPFs that share their first nine digits are equal: the check digits are determined |
| Validate.CnpjCheckDigit | src/middleware/validate.js:160-173 | a CNPJ check digit is always a single digit 0..9 |
| Validate.CnpjSum | src/middleware/validate.js:149-171 | the loop with its wrapping position counter computes the weighted sum with the weights 5,4,3,2,9..2 for twelve digits and 6,5,4,3,2,9..2 for thirteen |
| Validate.IsValidCnpj | src/middleware/validate.js:145-175 | exactly the CNPJs of 14 digits, not all equal, whose last two digits are the mod-11 check digits of the digits before them are accepted |
| Validate.CnpjCheckDigitsDetermined | src/middleware/validate.js:145-175 | two valid CNPJs that share their first twelve digits are equal |
| Validate.PixCpfKeyIsNotCpfCheck | src/services/pixService.js:136-138 | eleven equal digits pass as a PIX key of type cpf, which counts digits only, but are not a valid CPF |
| Validate.RequiredErrors | src/middleware/validate.js:11-17 | a required field is reported exactly when it is listed and its value is undefined, null or the empty string, and only such errors are produced |
| Validate.TypeErrors | src/middleware/validate.js:26-31 | a wrong-type error is produced exactly when a non-empty type is demanded that differs from the value's type, arrays counting as their own type |
| Validate.LengthErrors | src/middleware/validate.js:34-41 | string rules report too short or too long exactly when a non-zero bound is set and the length breaks it |
| Validate.BoundErrors | src/middleware/validate.js:44-51 | number rules report below minimum or above maximum exactly when the bound is defined, zero included, and a numeric value breaks it |
| Validate.ShapeErrors | src/middleware/validate.js:26-56 | the type, length, bound and enum rules produce no error exactly when the value has the demanded type, respects every enforced bound and, with an enum, is one of its values |
| Validate.FormatErrors | src/middleware/validate.js:59-88 | each of the e-mail, phone, CPF and CNPJ rules reports exactly when the string, or its digits for the last three, fails that format |
| Validate.FieldErrors | src/middleware/validate.js:22-97 | an undefined or null value is never checked, and a rule that strips digits throws exactly on a present non-string value |
| Validate.FieldErrorsMeaning | src/middleware/validate.js:22-97 | a present value passes its field's rules exactly when its shape is right and it meets every format the rules ask for |
| Validate.FieldsErrors | src/middleware/validate.js:20-99 | checking the fields throws exactly when some field's rules throw, and otherwise finds no error exactly when every field is clean |
| Validate.Check | src/middleware/validate.js:5-116 | the request crashes exactly when the body is missing but something must be read or a rule throws; it passes exactly when nothing crashes and no required or field error is collected; a rejection always carries errors |
| Validate.PassMeans | src/middleware/validate.js:5-116 | a request that passes has every required field and every field obeying its rules |
| Validate.RejectNamesMissing | src/middleware/validate.js:11-17 | a rejected request names every missing required field |
| Validate.ZeroMinIgnored | src/middleware/validate.js:35 | a string minimum of 0 is never enforced |
| WhatsApp.TypeLabel | src/services/whatsappService.js:141-150 | the round type is shown as Regular exactly when the stored type is regular and as Especial for every other type |
| WhatsApp.CardLines | src/services/whatsappService.js:146 | the default message has one ticket line per card code, in the order the codes were given |
| WhatsApp.BuildCardMessage | src/services/whatsappService.js:135-162 | a non-empty configured template is filled in; with no template or an empty one the fixed default message is used |
| WhatsApp.DefaultMessageListsEveryCard | src/services/whatsappService.js:146-152 | every card code of the purchase appears, on its own ticket line, in the default message |
| WhatsApp.DefaultMessageLinksLivePage | src/services/whatsappService.js:155-157 | the default message contains the link to the live page of the purchase's round |
| WhatsApp.TemplateWithoutPlaceholders | src/services/whatsappService.js:137-143 | a template without any brace is sent exactly as configured |
| WhatsApp.OnlyFirstPlaceholderFilled | src/services/whatsappService.js:138-142 | the cards placeholder becomes the codes joined by a comma and a space, and a second occurrence after it is left in the text because only the first occurrence is replaced |
| WhatsApp.LogError | src/services/whatsappService.js:106 | the log stores the provider's error only when it is a non-empty text, and no error otherwise |
| WhatsApp.SendCardsViaWhatsApp | src/services/whatsappService.js:69-126 | without an active configuration nothing is sent or logged and the not-configured error is returned; otherwise the built message is sent, the provider's answer is returned and a log row records phone, codes, success and error |
| WhatsApp.SendPurchaseCards | src/services/whatsappService.js:12-60 | an unknown purchase is reported as not found and a user without a phone as having no phone, neither sending anything; otherwise the purchase's codes go to the user's phone |
| WhatsApp.MessageOnlyWithPhoneAndConfig | src/services/whatsappService.js:15-87 | a message goes out only for a found purchase whose user has a phone and under an active configuration, and its log then lists one code per card of the purchase |
| WinChecker.FirstSatisfied | src/services/winChecker.js:83-99 | the variation found is the first one in table order whose positions are all marked; none is found only when no variation is complete |
| WinChecker.CheckWinMeaning | src/services/winChecker.js:70-107 | a reported win names an active catalogue pattern and one of its variations whose positions are all marked; no win is reported exactly when no active pattern is complete |
| WinChecker.CheckWinReportsFirstMatch | src/services/winChecker.js:74-101 | the first active pattern that is complete is the one reported, with its first complete variation, whatever later patterns are also complete |
| WinChecker.PatternsAvoidFreeCell | src/services/winChecker.js:8-60 | every variation of every catalogue pattern addresses a stored position 0..23 and never position 12 |
| WinChecker.CatalogueNames | src/services/winChecker.js:10-61 | a name has variations exactly when it is one of the eight catalogue names |
| WinChecker.SatisfiedMeansAllDrawn | src/services/winChecker.js:85-91 | on a 24-number card, a catalogue variation is complete exactly when the number at each of its positions has been drawn |
| WinChecker.WinMonotoneInDraws | src/services/winChecker.js:70-107 | drawing more numbers never turns a win into no win |
| WinChecker.ValidatePatterns | src/services/winChecker.js:207-209 | a list is accepted exactly when every name in it is a catalogue name |
| WinChecker.CheckMultipleCardsIsFilter | src/services/winChecker.js:116-133 | the scan lists, in input order, exactly the winning cards, each with the pattern and variation its own check reports |
| WinChecker.MinDistanceIsMin | src/services/winChecker.js:141-162 | the smallest distance is the distance of one of the card's numbers, and no number of the card is closer |
| WinChecker.FirstIndexAt | src/services/winChecker.js:163 | the index found is the first whose distance equals the minimum |
| WinChecker.ResolveTiebreakerPedra | src/services/winChecker.js:151-176 | nobody is chosen exactly when no winner has numbers; otherwise the chosen card has the smallest distance, every earlier card is strictly farther, and the pick carries its closest number and that distance |
| WinChecker.ResolveTiebreakerDivision | src/services/winChecker.js:184-192 | every winner is kept in order, marked as divided, with a share that is the prize divided by the number of winners |
| WinChecker.DivisionPaysWholePrize | src/services/winChecker.js:184-192 | the shares of a non-empty division add up to the whole prize |
| WinChecker.FirstRowScenario | src/services/winChecker.js:12-98 | a card whose first row is fully drawn wins `line_horizontal` with the first row; with one number of the row missing it does not win |

## Left out

- Network and gateway I/O: the model takes each HTTP answer as a parameter.
  - All of `src/services/asaasService.js` is left out.
  - From PagSeguro: `pagSeguroRequest`, and the request bodies of `createPixCharge` and `createCreditCardCharge` beyond the phone split and tax id. `getCardTokenizationInfo`, `getPaymentMethods` and `testPagSeguroConfig` are left out too.
  - From WhatsApp: `sendWhatsAppMessage`, `sendWinnerNotification` and `testWhatsAppConfig`.
- Database plumbing: each function is one atomic transition.
  - Pool connections and BEGIN/COMMIT/ROLLBACK are not modelled.
  - A rollback returns the unchanged `Db`.
  - Where a query returns "the first row", the model takes the row with the lowest id.
  - The order of rows from a SELECT or from `array_agg` is an `order` parameter: any duplicate-free listing of the rows the query selects.
- Settings and audit access (`getSetting`, `getSettings`, `setSetting`, `logAudit` in `src/utils/helpers.js`): database I/O. The settings the services read are a field of the `Db` record.
- Redis publishes and console logging carry no state the rest of the system reads.
- Randomness (`Math.random`, nanoid) is an index into the set of legal outcomes.
  - The source's unbounded retry loops (card codes, establishment codes) become a finite candidate list. Running out of candidates yields `None`/`Err`, which the source never returns.
  - `generatePix` (random payload, QR image, clock) and `generateTransactionCode` are parameters.
- Scheduling: node-cron cadences, concurrency between ticks and `cleanupOldData` are left out. Each sweep is one tick on one snapshot.
- Floating point: money is `real`, so `Math.round` to cents, `toFixed` and `Intl.NumberFormat` (`formatMoney`) are not modelled.
- Calendar and clock helpers: `addDays`, `isPast` and locale date formatting (`toLocaleString` with pt-BR). The formatted start time in WhatsApp messages is a string parameter.
- Text:
  - Unicode NFD accent stripping in `generateSlug` is modelled only on its ASCII effect: combining marks are removed and nothing else changes.
  - Lower-casing is ASCII-only.
  - Lengths count characters, not UTF-16 code units.
- JSON values are modelled as a small datatype. JavaScript coercions beyond truthiness and `typeof` are not modelled. An object with a repeated key keeps the last value, as `JSON.parse` does.
- Authentication, JWT, bcrypt and the POS terminal's credential check are left out. A POS sale takes the authenticated terminal as a parameter.
- Routes with no business rule beyond CRUD or reporting are left out: users, managers, charities, withdrawals, settings, WhatsApp configuration, logs, stats, and the thin rounds wrapper.
- Validate.BoundErrors: JavaScript's coercion of non-numbers in `<` and `>` comparisons is not modelled. Only numeric values are compared against number bounds.
- Validate.FieldErrors: the e-mail rule treats every non-string value as failing. In the source the regular expression coerces its argument, so for example `["a@b.c"]` would pass.
- Validate.Check: custom validator functions in a schema are not modelled.
- PurchasesRoute.AdmitGeneratesQuantityCards: the card count is stated for a positive quantity only. A negative quantity passes the source's checks and generates no cards (see PurchasesRoute.NegativeQuantityAdmitted).
- PixService.ProcessPixWebhook: `parseFloat` of the amount and the parsing of the payment date are not modelled. They are carried through as given.
- WinChecker: the source's free-cell shortcut for position 12 is kept as written. No pattern lists 12, so the shortcut never fires (WinChecker.PatternsAvoidFreeCell).
- WinChecker.ValidatePatterns: names inherited from `Object.prototype` are not modelled. In the source `PATTERNS["constructor"]` is defined, so `validatePatterns(["constructor"])` holds, while the model accepts only the eight catalogue names.
- WinChecker.CheckWin: an active pattern named like an `Object.prototype` member (`toString`, say) makes the source throw, because the inherited function is not iterable; the model skips it as an unknown pattern. Its callers CardsRoute.CheckCard and CardsRoute.DeclareVictory inherit this.
- PaymentService.Lookup: a key inherited from `Object.prototype` is treated as missing. In the source the lookup yields the inherited function.
- PaymentService.MapGatewayStatus: a gateway status such as `toString` maps to pending in the model. In the source it yields the inherited function, which is then stored as the status.
- PaymentService.ProcessSuccessfulPaymentFixed: after the commit, the corrected settlement would start `sendCardsViaWhatsApp` without awaiting it. That wrapper awaits `sendPurchaseCards`, which sends the WhatsApp message and inserts a `whatsapp_logs` row, and it swallows any error. The delivery is modelled on its own as WhatsApp.SendPurchaseCards; the corrected settlement neither returns it nor adds the log row. As written (PaymentService.ProcessSuccessfulPayment), the call fails before `BEGIN`, so neither the commit nor this delivery is ever reached.
- PaymentService.PixChargeValue: the `Math.round` of the PagSeguro amount in centavos is not modelled, like the other rounding of money.
- PixService.CalculatePixFee and PixService.ValidatePixCode have no callers in the source; their partners are PaymentService.PixChargeIncludesFee and PixService.PixCodeShape.

## Findings

| source | as written | input that shows it | evidently intended | confidence | as-written member | corrected member |
|---|---|---|---|---|---|---|
| src/services/cardGenerator.js:129-137 | `convertToArray` reads column R at grid rows 0, 1, 2, 3. This puts the 'FREE' centre into slot 16 and drops the number in slot 21 | any 24-number card: converting to the grid and back gives slot 16 = 'FREE' and slot 21 = the original slot 16 | `convertToArray` inverts `convertToGrid` by reading column R at rows 0, 1, 3, 4 | not executed | CardGenerator.ConvertToArrayLosesColumnR | CardGenerator.ConvertToArrayFixedRoundTrip |
| src/routes/purchases.js:96 | `generateCards(round_id, purchase.id, userId, quantity, client)` meets the three-parameter `generateCards(roundId, purchaseId, quantity)` of src/services/cardGenerator.js:98, so the user id lands in the quantity position and `quantity` and `client` are dropped | a customer without an e-mail gets no user row, so the NULL user id yields 0 cards whatever the quantity paid for; a customer with user id 7 buying 2 cards gets 7 | `generateCards(round_id, purchaseId, quantity)` | not executed | PurchasesRoute.AsWrittenAnonymousGetsNoCards | PurchasesRoute.AdmitGeneratesQuantityCards |
| src/services/paymentService.js:262-266 | polling PagSeguro normalises DECLINED or CANCELED to FAILED, but the pagseguro status table at lines 321-331 has no FAILED entry, so the status maps to pending | an order whose PagSeguro status is DECLINED stays pending forever | FAILED maps to failed | not executed | PaymentService.PolledDeclineLeavesPurchasePending | PaymentService.PolledDeclineFailsPurchase |
| src/services/paymentService.js:341 | `processSuccessfulPayment` calls `db.getClient()` before its `try`, but `db` is the `pg` pool of src/config/database.js:18, which has no `getClient`; every other transaction calls `db.connect()`. So every settlement throws "db.getClient is not a function" before `BEGIN` | an approved card charge is stored paid, then marked failed, and the route answers 500 with that message; a poll or webhook reporting paid stores the purchase paid with `paid_at`, but no round, card, establishment, manager or charity is credited, and later polls find the status unchanged and never retry | `const client = await db.connect();`, so that the settlement runs | not executed | PaymentService.ProcessSuccessfulPayment, PaymentService.ApprovedCardChargeFails, PaymentService.PolledPaymentLeftUnsettled | PaymentService.ProcessSuccessfulPaymentFixed |
