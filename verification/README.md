# Verified model of the club management suite

A Dafny model of the parts of the suite that keep state or do arithmetic, with proofs of what they
guarantee and, where they fall short, of the exact condition under which they do not.

| files | part of the system |
|---|---|
| `DepreciationSchedule`, `FixedAsset`, `Ledger`, `Money` | fixed assets: schedules, life cycle, ledger entries |
| `StateStore`, `SlackBridge`, `BridgeOnSqlite` | the Slack/GitHub bridge and its two state stores |
| `MaskingCompiler`, `MaskingRun`, `TextSearch` | masking of production data: SQL strategies and the transaction around them |
| `Billing` | batch billing of member charges |
| `YearClose`, `FinancialReports`, `ClosedBooks` | year close, balance sheet, profit and loss |
| `Allocation`, `Budget` | percentage allocation, budget periods |
| `Withholding`, `Payroll` | withholding table, loans paid through payslips |
| `Nit`, `Exogena`, `ExogenaReports` | check digit, Exógena formats, generation and validation |

## How it is modelled

- Objects whose methods change fields are classes; each method is proved equal to a step function on
  an immutable state, and the theorems about whole runs are proved of that function. Loops are
  loops, with invariants that tie them to recursive definitions.
- Money is whole cents, rates and quotients are exact reals, rounding is to the nearest cent with
  ties to even. Dates are month numbers or day ordinals; budget dates use the Gregorian calendar.
- An action that raises is rolled back and changes nothing. Calls to the outside (Slack, GitHub,
  the database) are inputs that say whether the call returned, failed before or failed after taking
  effect.
- Dictionaries whose order matters are sequences with distinct keys; in the reports the order is
  arbitrary.

## Findings

Some promises of the code hold only under a condition it does not enforce. Each has a theorem with
the exact condition over all inputs and a lemma at a concrete input.

- A small depreciable value can give a negative last straight-line amount (`LinearNonNegativeExactly`, `LinearCanGoNegative`).
- An asset disposed before its first posting can be reset to draft and disposed again (`ResetOfDisposedExactly`, `DisposedTwice`, `OnePesoTwice`).
- A fully depreciated asset without salvage value is disposed without an entry and stays on the books (`AssetRunSafety`, `DisposedWithoutEntry`, `OnePesoStays`).
- Relinking a thread or an issue makes the two stores disagree (`LinkAgreesExactly`, `RunAgreesExactly`, `RelinkedThread`).
- A commit applied but reported lost breaks all-or-nothing masking (`AllOrNothingExactly`, `AmbiguousCommitMasksTwice`, `PartnerImagesMaskedTwice`).
- A replacement cut by a narrow column is not recognised as masked by the audit's test, and those of tax numbers and identity cards never are (`RecognisedExactly`, `NarrowColumnLooksUnmasked`, `IdentifiersNeverRecognised`).
- The year-close entry books the expense counterpart on the opposite side from its comment and is off by twice the expenses (`AsWrittenImbalance`, `AsWrittenDoesNotBalance`). The model has both sides.
- The allocation entry has no counterpart, for every source line with an amount on one side (`EntryOffBalance`, `OnePesoOffBalance`).
- A budget misses its last day when a period boundary lands on it (`PeriodsCover`, `LastDayMissed`).
- The last row of the withholding table is 0.40 UVT above the end of the row before, so take-home pay drops there (`TableIsSlices`, `NetAcrossTheStep`, `NetCanDrop`).
- Threshold aggregation overwrites a retained row that uses the number 222222222 (`ThresholdConserves`, `ThresholdCanLose`).
- A payslip need not charge the loan deduction it shows: slips confirmed, payments made or loan statuses changed since it was computed, or a negative installment, make the two differ (`ShownIsChargedExactly`, `StaleDeductions`, `PaidInBetween`, `StatusInBetween`, `NegativeInstallment`).
- Deleting a completed billing run leaves its orders flagged as billed without a line, so no later run takes them (`DeleteExactly`, `DeletedRunOrphans`).
- A payment row entered by hand can overpay a loan (`NeverOverpaid`, `EnteredBeyond`).

The run theorem about fixed assets assumes that the three accounts of an asset are different and
that its schedule has no negative line, and `AssetSafeExactly` shows both to be necessary; it leaves
out resets of disposed assets, which break it (`ResetOfDisposedExactly`). The theorems about the
bridge assume that Slack and GitHub give new threads and issues new identifiers.

## Model

| member | source | states |
|---|---|---|
| `Money.RoundCentsExactly` | custom-addons/co_fixed_assets/models/co_fixed_asset.py:383-410 | rounding is to a nearest cent, of two equally near ones to the even one |
| `DepreciationSchedule.LinearPlanConserves` | custom-addons/co_fixed_assets/models/co_fixed_asset.py:376-395 | straight-line amounts are as many as the months and add up to the depreciable value exactly; the last one is within (life - 1) / 2 cents of the ideal share |
| `DepreciationSchedule.LinearNonNegativeExactly` | custom-addons/co_fixed_assets/models/co_fixed_asset.py:376-395 | no straight-line amount is negative exactly when the value covers all but the last rounded monthly amount, a condition on value and life alone |
| `DepreciationSchedule.LinearNegativeIsLast` | custom-addons/co_fixed_assets/models/co_fixed_asset.py:376-395 | only the last straight-line amount can be negative |
| `DepreciationSchedule.LinearNonNegativeWhenLarge` | custom-addons/co_fixed_assets/models/co_fixed_asset.py:376-395 | a value of at least life * (life - 1) / 2 cents never gives a negative amount |
| `DepreciationSchedule.LinearCanGoNegative` | custom-addons/co_fixed_assets/models/co_fixed_asset.py:376-395 | 31 cents over 60 months end with an amount of minus 28 cents |
| `DepreciationSchedule.DegressivePlanConserves` | custom-addons/co_fixed_assets/models/co_fixed_asset.py:397-422 | declining balance: at most `useful_life` lines, every amount between zero and what remains, and the amounts add up to the depreciable value exactly, for every value, life and factor |
| `DepreciationSchedule.DegressiveNextAmount` | custom-addons/co_fixed_assets/models/co_fixed_asset.py:397-422 | an amount exceeds the one before it by at most one cent, for any remaining value and month |
| `DepreciationSchedule.DegressiveNearlyDecreasing` | custom-addons/co_fixed_assets/models/co_fixed_asset.py:397-422 | the same over a whole schedule |
| `DepreciationSchedule.DegressiveCanIncrease` | custom-addons/co_fixed_assets/models/co_fixed_asset.py:397-422 | the cent of slack is needed: one cent over two months is taken in the second |
| `DepreciationSchedule.DegressiveTakesWanted` | custom-addons/co_fixed_assets/models/co_fixed_asset.py:397-422 | every month but the last takes min(r, max(r * factor / life, r / (life - i))) rounded to the nearest cent, with r the value less the amounts already taken; the last takes what is left |
| `DepreciationSchedule.DecliningBalance` | custom-addons/co_fixed_assets/models/co_fixed_asset.py:397-422 | for a factor between 0 and the life, as long as the factor beats the even share what is left after k months is within k/2 cents of value * (1 - factor / life)^k |
| `DepreciationSchedule.DoubleDeclining` | custom-addons/co_fixed_assets/models/co_fixed_asset.py:397-422 | twelve pesos over twelve months with factor 2 begin with two pesos |
| `DepreciationSchedule.PlanConserves` | custom-addons/co_fixed_assets/models/co_fixed_asset.py:364-424 | both methods take exactly the depreciable value in at most `useful_life` lines, and `Covered` is exactly the condition for no negative line |
| `DepreciationSchedule.GenerateLinear` | custom-addons/co_fixed_assets/models/co_fixed_asset.py:376-395 | the loop that carries `remaining` yields the numbered, dated lines of the straight-line plan with their residual values |
| `DepreciationSchedule.DegressivePeriod` | custom-addons/co_fixed_assets/models/co_fixed_asset.py:401-407 | one period: the larger of the declining and the even share, capped and rounded, all of the rest in the last month |
| `DepreciationSchedule.GenerateDegressive` | custom-addons/co_fixed_assets/models/co_fixed_asset.py:397-422 | the loop, with its early exit, yields the lines of the declining plan |
| `DepreciationSchedule.GenerateSchedule` | custom-addons/co_fixed_assets/models/co_fixed_asset.py:364-424 | the schedule of either method; none for a non-positive value or life |
| `FixedAsset.BookValueBounds` | custom-addons/co_fixed_assets/models/co_fixed_asset.py:206-215 | on schedule, accumulated depreciation stays between zero and the depreciable value and the book value between salvage and purchase value, whichever lines are posted |
| `FixedAsset.AutoClose` | custom-addons/co_fixed_assets/models/co_fixed_asset.py:428-442 | posting closes a running asset exactly when the posted amounts reach the depreciable value, and keeps the invariant |
| `FixedAsset.ConfirmKeeps` | custom-addons/co_fixed_assets/models/co_fixed_asset.py:288-298 | confirming puts the asset on its schedule and keeps the invariant |
| `FixedAsset.ConfirmReplacesUnposted` | custom-addons/co_fixed_assets/models/co_fixed_asset.py:288-298 | confirming replaces exactly the lines that are not posted by the new schedule, whatever lines the draft had |
| `FixedAsset.DisposeKeeps` | custom-addons/co_fixed_assets/models/co_fixed_asset.py:319-360 | disposal keeps the invariant: its entry balances and clears the accumulated depreciation |
| `FixedAsset.StepKeeps` | custom-addons/co_fixed_assets/models/co_fixed_asset.py:288-450 | every action other than a reset of a disposed asset keeps the invariant that ties schedule, status, move ids and account balances |
| `FixedAsset.ResetOfDisposedExactly` | custom-addons/co_fixed_assets/models/co_fixed_asset.py:307-317 | resetting a disposed asset keeps the invariant exactly when some line was posted, that is when the code refuses it |
| `FixedAsset.AssetRunSafety` | custom-addons/co_fixed_assets/models/co_fixed_asset.py:206-450 | over every run: credit balance of the depreciation account equals accumulated depreciation before disposal, salvage <= book <= purchase, one move per posted line and none shared, every move balanced, a running asset is not fully depreciated, and a disposal entry leaves the depreciation account at zero, the asset account down by the purchase value and exactly the purchase value expensed; a disposed asset has no such entry exactly when it has no salvage value and is fully depreciated, and then the purchase value stays on the depreciation account and nothing leaves the asset account |
| `FixedAsset.AssetSafeExactly` | custom-addons/co_fixed_assets/models/co_fixed_asset.py:206-450 | every run of an asset that can be confirmed is safe in the sense of `AssetRunSafety` exactly when its schedule has no negative line and its three accounts are different |
| `FixedAsset.BookValueBroken` | custom-addons/co_fixed_assets/models/co_fixed_asset.py:376-442 | every asset whose straight-line schedule ends in a negative amount has a book value below salvage when all lines but the last are posted |
| `FixedAsset.BalancesBroken` | custom-addons/co_fixed_assets/models/co_fixed_asset.py:319-360 | with any two of the accounts the same, an immediate disposal leaves a wrong balance |
| `FixedAsset.DisposedWithoutEntry` | custom-addons/co_fixed_assets/models/co_fixed_asset.py:319-327 | every asset without salvage value that is confirmed, posted to the end and disposed ends that way |
| `FixedAsset.OnePesoStays` | custom-addons/co_fixed_assets/models/co_fixed_asset.py:319-327 | the same for one peso over one month |
| `FixedAsset.NothingPostedAfterClose` | custom-addons/co_fixed_assets/models/co_fixed_asset.py:428-450 | once closed or disposed, and until a reset, no line is posted again |
| `FixedAsset.DisposedTwice` | custom-addons/co_fixed_assets/models/co_fixed_asset.py:307-360 | every asset disposed before its first posting can be reset, confirmed and disposed again, crediting the asset account twice |
| `FixedAsset.OnePesoTwice` | custom-addons/co_fixed_assets/models/co_fixed_asset.py:307-360 | the same for one peso over one month |
| `FixedAsset.AssetRecord.constructor` | custom-addons/co_fixed_assets/models/co_fixed_asset.py:280-284 | a new asset is a draft without lines or moves |
| `FixedAsset.AssetRecord.ActionConfirm` | custom-addons/co_fixed_assets/models/co_fixed_asset.py:288-298 | new state and refusal of confirming |
| `FixedAsset.AssetRecord.ActionClose` | custom-addons/co_fixed_assets/models/co_fixed_asset.py:300-305 | new state and refusal of closing |
| `FixedAsset.AssetRecord.ActionSetToDraft` | custom-addons/co_fixed_assets/models/co_fixed_asset.py:307-317 | new state and refusal of a reset |
| `FixedAsset.AssetRecord.ActionDispose` | custom-addons/co_fixed_assets/models/co_fixed_asset.py:319-360 | new state, disposal entry and refusal |
| `FixedAsset.AssetRecord.PostEntry` | custom-addons/co_fixed_assets/models/co_fixed_asset_depreciation_line.py:63-91 | one balanced move, linked to its line and no other |
| `FixedAsset.AssetRecord.ActionPostDepreciation` | custom-addons/co_fixed_assets/models/co_fixed_asset.py:428-442 | the loop over the due lines and the automatic close are the specified step |
| `StateStore.AgreeGivesSameAnswers` | agents/agents/adapters/state_memory.py:34-83 | two coherent indexes that hold the rows of the table answer every query, including `seen_event`, as the table does |
| `StateStore.LinkAgreesExactly` | agents/agents/adapters/state_memory.py:30-32 | after a new link all answers still agree if and only if the link shares both keys with a stored one or neither |
| `StateStore.RelinkedThread` | agents/agents/adapters/state_memory.py:30-32 | one thread linked to issue 1 and then to issue 2 is still found under issue 1 in memory and not in the table |
| `StateStore.StepAgrees` | agents/agents/adapters/state_sqlite.py:104-219 | every store operation keeps the agreement and gives the same result |
| `StateStore.RunAgrees` | agents/agents/adapters/state_sqlite.py:104-219 | the same over any sequence of operations with fresh links |
| `StateStore.RunAgreesExactly` | agents/agents/adapters/state_sqlite.py:104-219 | from agreeing stores, all answers are the same at every point of a run exactly when every link fits the stored ones when it is made |
| `StateStore.MemoryRefinesSqlExactly` | agents/agents/adapters/state_memory.py:20-83 | the same from empty stores |
| `StateStore.HalfAgrees` | agents/agents/adapters/state_sqlite.py:207-219 | a `seen_event` that fails between its two statements keeps the agreement |
| `StateStore.MemoryRefinesSql` | agents/agents/adapters/state_memory.py:20-83 | from empty stores, over every run whose links use new threads and new issues: same `seen_event` results along the way, same answer to every query at the end, indexes coherent |
| `StateStore.InMemoryStore.constructor` | agents/agents/adapters/state_memory.py:23-28 | all four dictionaries empty |
| `StateStore.InMemoryStore.LinkThreadToIssue` | agents/agents/adapters/state_memory.py:30-32 | both indexes hold the new link |
| `StateStore.InMemoryStore.MarkIntentConfirmed` | agents/agents/adapters/state_memory.py:44-54 | the stored link is replaced in both indexes, nothing for an unknown thread |
| `StateStore.InMemoryStore.UpdateLastRelayedComment` | agents/agents/adapters/state_memory.py:56-66 | the stored link is replaced in both indexes |
| `StateStore.InMemoryStore.MapSlackUser` | agents/agents/adapters/state_memory.py:68-71 | the user mapping after the call |
| `StateStore.InMemoryStore.SeenBefore` | agents/agents/adapters/state_memory.py:76-83 | expired ids are dropped, the id is reported or recorded |
| `StateStore.SqliteStore.constructor` | agents/agents/adapters/state_sqlite.py:69-81 | all tables empty |
| `StateStore.SqliteStore.LinkThreadToIssue` | agents/agents/adapters/state_sqlite.py:104-121 | the row of the thread is inserted or replaced |
| `StateStore.SqliteStore.MarkIntentConfirmed` | agents/agents/adapters/state_sqlite.py:143-151 | the update of the matching row |
| `StateStore.SqliteStore.UpdateLastRelayedComment` | agents/agents/adapters/state_sqlite.py:153-161 | the update of the matching row |
| `StateStore.SqliteStore.MapSlackUser` | agents/agents/adapters/state_sqlite.py:180-195 | the user mapping after the call |
| `StateStore.SqliteStore.SelectByIssue` | agents/agents/adapters/state_sqlite.py:133-141 | some row with that issue, none only if there is none |
| `StateStore.SqliteStore.SeenBefore` | agents/agents/adapters/state_sqlite.py:207-219 | expired ids are deleted, the id is reported or inserted |
| `SlackBridge.CheckGood` | agents/agents/slack_intake/core.py:260-263 | passing the dedupe check means that no relay with that id was sent within its time to live, and the id is now remembered |
| `SlackBridge.IssueCommentGood` | agents/agents/slack_intake/core.py:249-321 | relaying a GitHub comment is a good step, whichever call fails |
| `SlackBridge.SlackMessageGood` | agents/agents/slack_intake/core.py:328-377 | relaying a Slack message is a good step, whichever call fails |
| `SlackBridge.ButtonGood` | agents/agents/slack_intake/core.py:384-438 | a button click is a good step, whichever call fails |
| `SlackBridge.StepGood` | agents/agents/slack_intake/core.py:160-438 | every event keeps the invariant, never drops or redirects a link, only appends effects and relays nothing for a thread already confirmed |
| `SlackBridge.BridgeRunSafety` | agents/agents/slack_intake/core.py:160-438 | over every interleaving of redeliveries, clicks, messages, ticks and failing calls: two relays of one non-empty id are more than the time to live apart, every relay names exactly the linked thread and issue, and `/confirm` is posted only for the recorded reporter |
| `SlackBridge.SilentAfterConfirm` | agents/agents/slack_intake/core.py:276-351 | after a thread is confirmed no run relays anything for its thread or its issue |
| `SlackBridge.ConfirmedOnlyAfterPost` | agents/agents/slack_intake/core.py:403-421 | over every run a thread is marked confirmed only if `/confirm` was posted for it |
| `SlackBridge.MessageRelayedOnce` | agents/agents/slack_intake/core.py:328-377 | a new reply on an open thread is relayed to exactly its issue, and its redelivery within the time to live is not |
| `SlackBridge.CommentRelayedOnce` | agents/agents/slack_intake/core.py:249-321 | a new comment of an allowed author on a labelled, open issue is relayed to exactly its thread, and its redelivery is not |
| `SlackBridge.ReplyDelivered` | agents/agents/slack_intake/core.py:328-377 | after any run, a reply whose event id no earlier reply carried, or without one, on a thread that is linked and open at that point, is relayed to exactly its issue; ids of comments never block it |
| `SlackBridge.CommentDelivered` | agents/agents/slack_intake/core.py:249-321 | the same for comments, their delivery ids and exactly the linked thread |
| `SlackBridge.PostOutcomes` | agents/agents/adapters/events_slack_webhook.py:98-103 | a post that is made is logged, one that is not made is not |
| `SlackBridge.ClickConfirms` | agents/agents/slack_intake/core.py:384-438 | a click by the reporter posts `/confirm` on exactly the issue of the thread and marks exactly its link |
| `SlackBridge.FormLinks` | agents/agents/slack_intake/core.py:160-242 | a submitted form links the new thread to the new issue with the user as reporter |
| `BridgeOnSqlite.SqliteReplyDelivered` | agents/agents/slack_intake/core.py:328-377 | the delivery of replies on the SQLite store |
| `BridgeOnSqlite.SqliteCommentDelivered` | agents/agents/slack_intake/core.py:249-321 | the delivery of comments on the SQLite store |
| `BridgeOnSqlite.StepMatches` | agents/agents/slack_intake/core.py:160-438 | on agreeing stores every handler does the same over the table as over the dictionaries, whichever calls fail and whichever matching row the query by issue returns |
| `BridgeOnSqlite.RunMatches` | agents/agents/adapters/state_sqlite.py:104-219 | over every run with fresh identifiers both bridges post the same effects and keep the same links |
| `BridgeOnSqlite.SqliteRunSafety` | agents/agents/slack_intake/core.py:160-438 | the run theorem on the SQLite store: same log, relays of one id more than the time to live apart, every effect joins exactly the linked thread and issue, `/confirm` only for the recorded reporter |
| `BridgeOnSqlite.SqliteSilentAfterConfirm` | agents/agents/slack_intake/core.py:276-351 | on the SQLite store no run relays anything for a confirmed thread or its issue |
| `SlackBridge.SilentStep` | agents/agents/slack_intake/core.py:276-351 | no step relays for a confirmed thread or unconfirms it |
| `SlackBridge.IntakeService.constructor` | agents/agents/adapters/state_memory.py:23-28 | a service whose store is empty and that has posted nothing |
| `SlackBridge.IntakeService.CallStore` | agents/agents/adapters/events_slack_webhook.py:98-103 | a store call that returns, raises before or after taking effect, or raises between its statements |
| `SlackBridge.IntakeService.CallOut` | agents/agents/adapters/events_slack_webhook.py:98-103 | an external post that returns, raises before or raises after taking effect |
| `SlackBridge.IntakeService.Dedupe` | agents/agents/slack_intake/core.py:260-263 | the dedupe check of both relay handlers |
| `SlackBridge.IntakeService.HandleModal` | agents/agents/slack_intake/core.py:160-242 | a submitted modal stores its link only after the issue was opened and the thread posted |
| `SlackBridge.IntakeService.HandleIssueComment` | agents/agents/slack_intake/core.py:249-321 | the guards, the relay and the last-relayed update in order |
| `SlackBridge.IntakeService.HandleSlackMessage` | agents/agents/slack_intake/core.py:328-377 | the guards and the relay in order |
| `SlackBridge.IntakeService.HandleButton` | agents/agents/slack_intake/core.py:384-438 | the guards, the `/confirm` comment and then the mark |
| `MaskingCompiler.EvalSound` | infra/agentlab/mask_prod_data.py:293-383 | a well-typed expression on a well-typed cell evaluates to a value of its static type, null only for a null cell |
| `MaskingCompiler.TextClassExactly` | infra/agentlab/mask_prod_data.py:191-286 | the class of a text column, on the needles themselves: the first telling name in the order of the list, else the Odoo type, else outside Odoo the declared length |
| `MaskingCompiler.NumberClassExactly` | infra/agentlab/mask_prod_data.py:239-244 | a column of numbers is money exactly when its name contains a monetary needle or its Odoo type is monetary |
| `MaskingCompiler.OtherClassesExactly` | infra/agentlab/mask_prod_data.py:223-228 | files and documents by their physical type |
| `MaskingCompiler.LeftAloneExactly` | infra/agentlab/mask_prod_data.py:191-361 | exactly which columns are left unmasked: text columns with no telling name and a relational or selection type, number columns that are not money, and every type but text, numbers, files and documents |
| `MaskingCompiler.EmailColumn` | infra/agentlab/mask_prod_data.py:257-259 | a char column named Email is an e-mail column |
| `TextSearch.LowerExactly` | infra/agentlab/mask_prod_data.py:218-219 | lower-casing moves exactly the capital letters |
| `TextSearch.ContainsExactly` | infra/agentlab/mask_prod_data.py:257-259 | a name contains a needle exactly when it occurs at some position |
| `MaskingCompiler.ClassifyFits` | infra/agentlab/mask_prod_data.py:191-286 | the class chosen for a column with a physical type leaves it alone or belongs to the family of that type |
| `MaskingCompiler.MissingTypeIsText` | infra/agentlab/mask_prod_data.py:191-286 | without a physical type the class is a textual one or none, so the condition above is needed |
| `MaskingCompiler.StrategyTyped` | infra/agentlab/mask_prod_data.py:293-361 | on such a class the strategy never raises and its expression is assignable to the column |
| `MaskingCompiler.MaskingSound` | infra/agentlab/mask_prod_data.py:191-383 | for every name, Odoo type and physical type: no failure; the clamped expression is well typed and assignable, maps null and only null to null, and fits `char_max_len` |
| `MaskingCompiler.NoiseBounded` | infra/agentlab/mask_prod_data.py:342-349 | a noised figure is within the configured fraction of the original, on both sides of zero |
| `MaskingCompiler.MaskHides` | infra/agentlab/mask_prod_data.py:293-383 | apart from money, two non-null cells with the same hash and length are masked to the same value: nothing else of the original is revealed |
| `MaskingCompiler.StrategyText` | infra/agentlab/mask_prod_data.py:293-361 | the text each recognisable strategy produces |
| `MaskingCompiler.DecimalRoundTrip` | infra/agentlab/mask_prod_data.py:328-354 | the decimal notation in a replacement denotes its number, without a leading zero |
| `MaskingCompiler.SliceExactly` | infra/agentlab/mask_prod_data.py:321-324 | `substr` counts from one and stops at the end of the text |
| `MaskingCompiler.Arithmetic` | infra/agentlab/mask_prod_data.py:326-349 | the arithmetic of the replacement expressions on whole and fractional numbers |
| `MaskingCompiler.RealArithmetic` | infra/agentlab/mask_prod_data.py:342-349 | single precision is kept only with itself |
| `MaskingCompiler.NullText` | infra/agentlab/mask_prod_data.py:321-359 | the text of NULL is NULL |
| `MaskingCompiler.NullAbsorbs` | infra/agentlab/mask_prod_data.py:321-359 | joining anything to NULL gives NULL |
| `MaskingCompiler.AssignableExactly` | infra/agentlab/mask_prod_data.py:293-361 | whole numbers fit every column of numbers, a value of any other type its own column only |
| `MaskingCompiler.StripExactly` | infra/agentlab/mask_prod_data.py:405-421 | stripping removes exactly the spaces around a text |
| `MaskingCompiler.RecognisedExactly` | infra/agentlab/mask_prod_data.py:405-421 | `is_masked_value` recognises a clamped replacement exactly when the column is wide enough for the marker of its class |
| `MaskingCompiler.IdentifierText` | infra/agentlab/mask_prod_data.py:328-337 | the text that replaces a tax number or an identity card |
| `MaskingCompiler.IdentifierShape` | infra/agentlab/mask_prod_data.py:328-337 | it is a number of nine digits, for tax numbers followed by a hyphen and one digit |
| `MaskingCompiler.EmptyReplacements` | infra/agentlab/mask_prod_data.py:305-319 | files become empty and documents empty objects |
| `MaskingCompiler.NoiseEval` | infra/agentlab/mask_prod_data.py:342-349 | the noised figure is x * (1 - range + u * 2 * range) for a random u |
| `MaskingCompiler.NarrowColumnLooksUnmasked` | infra/agentlab/mask_prod_data.py:405-421 | a short string in a `varchar(6)` becomes MASKED, which is not recognised |
| `MaskingCompiler.IdentifiersNeverRecognised` | infra/agentlab/mask_prod_data.py:405-421 | the replacements of tax numbers and identity cards are recognised in no column |
| `MaskingRun.CleanPassesMask` | infra/agentlab/mask_prod_data.py:614-690 | two passes without failure apply to every column exactly its mask once and then every deny pattern once, and touch nothing else |
| `MaskingRun.SparedUnchanged` | infra/agentlab/mask_prod_data.py:134-189 | structural, allow-listed and unique columns keep their data through every run of retries, whatever fails and however commits are reported |
| `MaskingRun.OwedInFields` | infra/agentlab/mask_prod_data.py:614-690 | what an attempt owes to a column, in its own fields: one mask if it is no framework table, not allow-listed, not unique and not left alone, then one scrub per pattern if it is of a text type |
| `MaskingRun.ScrubsExactly` | infra/agentlab/mask_prod_data.py:677-690 | the scrubs of a column are those of every deny pattern, in order |
| `MaskingRun.FrameworkTables` | infra/agentlab/mask_prod_data.py:134-155 | the spared tables are exactly those that define models, modules, views and actions |
| `MaskingRun.AttemptAllOrNothing` | infra/agentlab/mask_prod_data.py:562-708 | one attempt commits everything or nothing, if its commit is atomic and reported truthfully |
| `MaskingRun.RetryAllOrNothing` | infra/agentlab/mask_prod_data.py:842-867 | for any pattern of statement failures and lost connections: at most `attempts` tries, and the database is unchanged with an error or masked by exactly the last attempt |
| `MaskingRun.CourseIgnoresData` | infra/agentlab/mask_prod_data.py:599-690 | statement outcomes are inputs of the model, given per attempt and statement; hence how the passes end can be read off them before the run |
| `MaskingRun.AllOrNothingExactly` | infra/agentlab/mask_prod_data.py:842-867 | a run of retries is all-or-nothing exactly when no attempt that is made reaches its commit and has it applied but reported lost, or no column is owed anything |
| `MaskingRun.AmbiguousCommitMasksTwice` | infra/agentlab/mask_prod_data.py:692-708 | a commit applied but reported lost is masked a second time, so the condition on commits is needed |
| `MaskingRun.PartnerImagesMaskedTwice` | infra/agentlab/mask_prod_data.py:692-708 | the same for the column of partner images |
| `MaskingRun.Masker.constructor` | infra/agentlab/mask_prod_data.py:562-597 | the session on a restored database |
| `MaskingRun.Masker.RunStatement` | infra/agentlab/mask_prod_data.py:599-612 | one statement in its savepoint: applied, rolled back and recorded, or the connection lost |
| `MaskingRun.Masker.RunTypePass` | infra/agentlab/mask_prod_data.py:614-655 | the loop of the type pass |
| `MaskingRun.Masker.RunDenyColumn` | infra/agentlab/mask_prod_data.py:657-690 | the deny patterns of one column |
| `MaskingRun.Masker.RunDenyPass` | infra/agentlab/mask_prod_data.py:657-690 | the loop of the deny-list pass |
| `MaskingRun.Masker.MaskDatabase` | infra/agentlab/mask_prod_data.py:562-708 | result and committed database of one attempt: masked, columns failed, commit refused or connection lost, the latter also when a rollback cannot be made |
| `MaskingRun.Masker.MaskWithRetry` | infra/agentlab/mask_prod_data.py:842-867 | the retry loop; nothing happens for zero attempts |
| `Billing.GenerateKeeps` | custom-addons/club_affiliate_billing/models/club_affiliate_billing_run.py:96-166 | generating a run keeps the books in order and flags exactly the eligible orders of the period whose partner has an affiliate |
| `Billing.GenerateExactly` | custom-addons/club_affiliate_billing/models/club_affiliate_billing_run.py:96-166 | in the fields of the orders: after generating, an order is flagged exactly when it was before, or is settled, dated within the period, has a cargo payment and a partner with an affiliate; every order like that is on a line |
| `Billing.CancelKeeps` | custom-addons/club_affiliate_billing/models/club_affiliate_billing_run.py:207-220 | a run that can still be cancelled has no invoices: cancelling changes its status and clears no flag |
| `Billing.CreateInvoiceKeeps` | custom-addons/club_affiliate_billing/models/club_affiliate_billing_run.py:168-205 | creating a journal invoice, or failing to, keeps one journal invoice per billing invoice with its amounts |
| `Billing.CargoIsSum` | custom-addons/club_affiliate_billing/models/club_affiliate_billing_run.py:119-133 | the charge of an order is the sum of its cargo payments |
| `Billing.SettleExactly` | custom-addons/club_affiliate_billing/models/club_affiliate_billing_run.py:111-117 | an order that becomes settled changes in nothing else |
| `Billing.GuardsExactly` | custom-addons/club_affiliate_billing/models/club_affiliate_billing_run.py:96-229 | the status each action on a run asks for |
| `Billing.CreateInvoiceExactly` | custom-addons/club_affiliate_billing/models/club_affiliate_billing_run.py:168-205 | a pending billing invoice with lines becomes invoiced, with a new journal invoice of exactly the amounts of its lines, or in error |
| `Billing.CreateInvoiceSkips` | custom-addons/club_affiliate_billing/models/club_affiliate_billing_run.py:168-205 | a billing invoice that is not pending or has no lines is left as it is |
| `Billing.StepKeeps` | custom-addons/club_affiliate_billing/models/club_affiliate_billing_run.py:96-229 | every action keeps the invariant of orders, lines, runs and journal |
| `Billing.RunKeeps` | custom-addons/club_affiliate_billing/models/club_affiliate_billing_run.py:96-229 | so does every run of actions |
| `Billing.DeleteExactly` | custom-addons/club_affiliate_billing/models/club_affiliate_billing_invoice.py:9-13 | deleting a run clears no flag and only its own references, so afterwards flags and lines match exactly when no line belonged to the run |
| `Billing.DeletedRunOrphans` | custom-addons/club_affiliate_billing/models/club_affiliate_billing_invoice.py:9-13 | an order of one peso, billed by the only run: after the run is deleted it is flagged and on no line |
| `Billing.TotalIsCargo` | custom-addons/club_affiliate_billing/models/club_affiliate_billing_run.py:74-77 | a run's total equals the cargo payments of the orders it billed |
| `Billing.BillingSafety` | custom-addons/club_affiliate_billing/models/club_affiliate_billing_run.py:96-229 | over all runs: no order on two lines, flagged exactly when on a line, charged its cargo payments to its own affiliate; every order on a line is settled, has a cargo payment and is dated within the period of the run that billed it; every run's total is the cargo of its orders; no billing invoice has two journal invoices or one with another total |
| `Billing.BillingBook.CollectOrders` | custom-addons/club_affiliate_billing/models/club_affiliate_billing_run.py:109-133 | the loop that groups eligible orders by partner |
| `Billing.BillingBook.BillInvoice` | custom-addons/club_affiliate_billing/models/club_affiliate_billing_run.py:151-163 | the loop that creates lines and flags orders |
| `Billing.BillingBook.ActionGenerate` | custom-addons/club_affiliate_billing/models/club_affiliate_billing_run.py:96-166 | new books and refusal of generating a run |
| `Billing.BillingBook.ActionCreateInvoices` | custom-addons/club_affiliate_billing/models/club_affiliate_billing_run.py:168-205 | the loop over the billing invoices of a run, each creation with its own outcome |
| `Billing.BillingBook.ActionDraft` | custom-addons/club_affiliate_billing/models/club_affiliate_billing_run.py:222-229 | new books and refusal of going back to draft |
| `Billing.BillingBook.ActionCancel` | custom-addons/club_affiliate_billing/models/club_affiliate_billing_run.py:207-220 | new books and refusal of cancelling |
| `YearClose.EntryNet` | custom-addons/co_accounting_extended/wizard/co_year_close_wizard.py:109-181 | the net effect of the entry on every account, and its imbalance, for both sides of the expense counterpart |
| `YearClose.AsWrittenImbalance` | custom-addons/co_accounting_extended/wizard/co_year_close_wizard.py:144-181 | as written, debits minus credits are minus twice the net class 5 and 6 balance, so the entry balances exactly when that balance is zero |
| `YearClose.AsWrittenDoesNotBalance` | custom-addons/co_accounting_extended/wizard/co_year_close_wizard.py:154-162 | one expense of 100 gives an entry off by 200 |
| `YearClose.BalanceIsSum` | custom-addons/co_accounting_extended/wizard/co_year_close_wizard.py:73-88 | the balance of an account is the sum over its posted items of the company dated within the period |
| `YearClose.ListedBalance` | custom-addons/co_accounting_extended/wizard/co_year_close_wizard.py:64-88 | each account of a class is listed once, with its whole balance |
| `YearClose.BalanceAfterClose` | custom-addons/co_accounting_extended/wizard/co_year_close_wizard.py:90-188 | the balance of any account once the commented entry is posted inside the fiscal year |
| `YearClose.CommentedCloseIsComplete` | custom-addons/co_accounting_extended/wizard/co_year_close_wizard.py:90-188 | with the counterpart on the commented side: the entry balances, every class 4, 5 and 6 balance becomes zero, the summary account's lines cancel, retained earnings moves by the net result and a second close finds nothing |
| `YearClose.CloseAccounts` | custom-addons/co_accounting_extended/wizard/co_year_close_wizard.py:109-136 | the loop that reverses balances and adds them up |
| `YearClose.GenerateYearClose` | custom-addons/co_accounting_extended/wizard/co_year_close_wizard.py:90-188 | the whole entry, and its two refusals |
| `FinancialReports.AggregateKeeps` | custom-addons/account_balance_sheet/report/account_balance_sheet_report.py:19-33 | grouping loses nothing: each account's cell is the net of its lines and the cells of a class add up to the net of the class |
| `FinancialReports.AggregateLines` | custom-addons/account_balance_sheet/report/account_balance_sheet_report.py:19-33 | the grouping loop over the nested dictionary |
| `FinancialReports.Section` | custom-addons/account_balance_sheet/report/account_balance_sheet_report.py:43-56 | balances and total of one class with its sign, in any order of the dictionary |
| `FinancialReports.AddUp` | custom-addons/account_balance_sheet/report/account_balance_sheet_report.py:43-56 | the total alone |
| `FinancialReports.BalanceSheet` | custom-addons/account_balance_sheet/report/account_balance_sheet_report.py:14-67 | totals are the nets of classes 1, 2 and 3 of the lines; the equation flag holds exactly when they add up |
| `FinancialReports.ProfitLoss` | custom-addons/account_profit_loss/report/account_profit_loss_report.py:14-75 | totals are the nets of classes 4, 5 and 6 of the lines; gross and operating result |
| `FinancialReports.ViewExactly` | custom-addons/account_balance_sheet/models/account_balance_sheet.py:54-75 | the lines behind each report are exactly those of its classes |
| `FinancialReports.FlattenExactly` | custom-addons/account_balance_sheet/report/account_balance_sheet_report.py:19-33 | the lines of a ledger are those of its moves, one after the other |
| `FinancialReports.CrossReport` | custom-addons/account_profit_loss/report/account_profit_loss_report.py:19-75 | for every ledger of balanced moves the balance sheet's `equation_diff` is the `utilidad_operacional` less the lines outside classes 1 to 6; the two are equal exactly when those net to zero |
| `FinancialReports.EquationAfterClose` | custom-addons/account_balance_sheet/report/account_balance_sheet_report.py:65-67 | when the result classes net to zero the equation holds |
| `ClosedBooks.ClassNetIsBalance` | custom-addons/co_accounting_extended/wizard/co_year_close_wizard.py:64-88 | a report's class total is the sum of the account balances the close works with |
| `ClosedBooks.CloseKeepsBooksClosed` | custom-addons/co_accounting_extended/wizard/co_year_close_wizard.py:90-188 | closing a balanced year on top of closed books, with the commented entry, gives closed books again and the balance sheet's equation holds |
| `Allocation.SplitConserves` | custom-addons/co_accounting_extended/models/co_auto_posting_rule.py:171-180 | the shares add up to the source amount exactly, whatever the percentages |
| `Allocation.RoundedNear` | custom-addons/co_accounting_extended/models/co_auto_posting_rule.py:174-180 | the first k shares are within half a cent each of their ideal sum, for every k |
| `Allocation.LastShareNear` | custom-addons/co_accounting_extended/models/co_auto_posting_rule.py:109-180 | under the 100% constraint the last share is within half a cent per other share plus 0.01% of the amount of its ideal value |
| `Allocation.EntryOffBalance` | custom-addons/co_accounting_extended/models/co_auto_posting_rule.py:158-207 | the generated entry has no counterpart: for a source line with an amount on one side it is off balance by that whole amount, and it balances exactly when the line has both sides or none |
| `Allocation.OnePesoOffBalance` | custom-addons/co_accounting_extended/models/co_auto_posting_rule.py:158-207 | one peso of debit split in halves gives an entry of one peso of debit and no credit |
| `Allocation.AllocateAmount` | custom-addons/co_accounting_extended/models/co_auto_posting_rule.py:171-196 | the loop that carries `total_allocated` posts exactly the shares on the sides the source line uses |
| `Allocation.ApplyAllocation` | custom-addons/co_accounting_extended/models/co_auto_posting_rule.py:158-207 | refusal without lines, no entry for a zero amount, otherwise the entry of the shares |
| `Budget.AddMonthsAdvances` | custom-addons/co_budget/models/co_budget.py:203-217 | adding one or more months gives a later valid date even when the day is clamped, so the loop ends |
| `Budget.YearStart` | custom-addons/co_budget/models/co_budget.py:203-217 | the days before a year on the Gregorian calendar: 365 a year and a leap day every four years, except every hundred, but again every four hundred |
| `Budget.MonthLengths` | custom-addons/co_budget/models/co_budget.py:203-217 | the lengths of the months |
| `Budget.NextDay` | custom-addons/co_budget/models/co_budget.py:203-217 | the day after a date |
| `Budget.AddMonthsExactly` | custom-addons/co_budget/models/co_budget.py:203-217 | adding months keeps the day or takes the last day of a shorter month |
| `Budget.WholeYear` | custom-addons/co_budget/models/co_budget.py:174-217 | a budget for a whole year has twelve, four or one periods: its months, its quarters or itself |
| `Budget.PeriodsTile` | custom-addons/co_budget/models/co_budget.py:203-217 | periods start at `date_from`, are contiguous and disjoint, never empty and never pass `date_to` |
| `Budget.PeriodsCover` | custom-addons/co_budget/models/co_budget.py:203-217 | a day is covered exactly when it is in the range and is not a `date_to` on which a period boundary lands |
| `Budget.LastDayMissed` | custom-addons/co_budget/models/co_budget.py:203-217 | 1 January to 1 February 2024 by month covers 31 January and not 1 February |
| `Budget.OneLinePerAccount` | custom-addons/co_budget/models/co_budget.py:207-216 | every period has one line per account, in the order of the accounts |
| `Budget.AccountsKept` | custom-addons/co_budget/models/co_budget.py:190-198 | the accounts collected are those of the existing lines |
| `Budget.AccountsOnce` | custom-addons/co_budget/models/co_budget.py:190-198 | none twice, each taken from an existing line |
| `Budget.CollectPlanned` | custom-addons/co_budget/models/co_budget.py:190-198 | the collecting loop keeps the first line of each account |
| `Budget.AppendPeriod` | custom-addons/co_budget/models/co_budget.py:207-216 | the inner loop appends the lines of one period |
| `Budget.PeriodLines` | custom-addons/co_budget/models/co_budget.py:203-217 | the outer loop terminates with the lines of all periods |
| `Budget.GenerateLines` | custom-addons/co_budget/models/co_budget.py:168-220 | refusals and the generated lines |
| `Withholding.ComputeUvtTax` | custom-addons/co_payroll/models/co_payslip.py:278-298 | the table walk returns the first bracket that reaches the income, in pesos |
| `Withholding.TableIsSlices` | custom-addons/co_payroll/models/co_payslip.py:278-298 | the lookup is the sum of the marginal slices up to 2300 UVT and 0.40 UVT more above it |
| `Withholding.TaxNonDecreasing` | custom-addons/co_payroll/models/co_payslip.py:278-298 | never negative, never less for more income |
| `Withholding.NetIncreases` | custom-addons/co_payroll/models/co_payslip.py:278-298 | income after tax strictly increases on each side of 2300 UVT |
| `Withholding.NetAcrossTheStep` | custom-addons/co_payroll/models/co_payslip.py:278-298 | across 2300 UVT it increases exactly when the lower income is below 945 UVT or the gain outweighs the 0.40 UVT step |
| `Withholding.NetCanDrop` | custom-addons/co_payroll/models/co_payslip.py:278-298 | 2300.1 UVT leaves less after tax than 2300 UVT |
| `Withholding.TaxWithinIncome` | custom-addons/co_payroll/models/co_payslip.py:278-298 | in pesos the tax never exceeds the income |
| `Payroll.NeverOverpaid` | custom-addons/co_payroll/models/co_loan.py:56-105 | over every interleaving of slip actions, `register_payment` calls, hand-entered payment rows and status changes, no loan is ever paid beyond its amount exactly when no hand-entered row exceeds what remains at the time; in particular when there is none; and then none is at the end of the run |
| `Payroll.EnteredBeyond` | custom-addons/co_payroll/models/co_loan.py:108-119 | a hand-entered row of 150 on a loan of 100 |
| `Payroll.ChargesCount` | custom-addons/co_payroll/models/co_payslip.py:445-491 | what a loan has paid after any run depends only on how many slips of its employee were confirmed |
| `Payroll.PaidOffExactly` | custom-addons/co_payroll/models/co_loan.py:56-105 | charged only through slips, a loan is paid exactly from `number_of_installments` confirmations on, one whole installment each before that and nothing after |
| `Payroll.ConfirmCharges` | custom-addons/co_payroll/models/co_payslip.py:445-480 | confirming takes from the loans exactly what is due at that moment and positive |
| `Payroll.ShownAndCharged` | custom-addons/co_payroll/models/co_payslip.py:314-480 | for every slip and every run of actions between computing and confirming it, payments and status changes included, it shows what the loans had due at computing and charges what they have due, and positive, at confirming |
| `Payroll.ShownBeyondCharged` | custom-addons/co_payroll/models/co_payslip.py:314-480 | when all the actions in between are slip actions, the difference is the summed excess of the loans as they were at computing, given the number of confirmations in between |
| `Payroll.ShownIsChargedExactly` | custom-addons/co_payroll/models/co_payslip.py:314-480 | over every run of actions in between, shown equals charged exactly when the two sums agree; with only slip actions in between, exactly when the excesses cancel out, which without negative installments means no confirmation of the employee in between or every active loan able to pay that many installments and one more, and without confirmations means no negative installment |
| `Payroll.PaidInBetween` | custom-addons/co_payroll/models/co_payslip.py:314-480 | a payment row of 100 entered in between: the slip shows 80 and charges nothing |
| `Payroll.StatusInBetween` | custom-addons/co_payroll/models/co_payslip.py:314-480 | a loan approved in between: the slip shows nothing and charges 80 |
| `Payroll.ComputeThenConfirm` | custom-addons/co_payroll/models/co_payslip.py:425-480 | confirmed right after it was computed, a slip charges what it shows exactly when no active loan has a negative installment |
| `Payroll.NegativeInstallment` | custom-addons/co_payroll/models/co_payslip.py:314-328 | an installment of -5 is shown as -5 and charged as nothing |
| `Payroll.NoInstallmentNoCharge` | custom-addons/co_payroll/models/co_loan.py:63-72 | a loan without a positive installment has zero installments and is never charged by slips |
| `Payroll.StaleDeductions` | custom-addons/co_payroll/models/co_payslip.py:314-328 | two slips computed before either is confirmed show 160 and charge 100 |
| `Payroll.PayrollBook.Register` | custom-addons/co_payroll/models/co_loan.py:89-105 | payment, status and returned amount |
| `Payroll.PayrollBook.CreateSlip` | custom-addons/co_payroll/models/co_payslip.py:180-187 | a new draft slip |
| `Payroll.PayrollBook.Pay` | custom-addons/co_payroll/models/co_loan.py:89-105 | `register_payment` as an action |
| `Payroll.PayrollBook.CreatePayment` | custom-addons/co_payroll/models/co_loan.py:108-119 | a payment row entered by hand |
| `Payroll.PayrollBook.SetStatus` | custom-addons/co_payroll/models/co_loan.py:74-87 | a manual change of a loan's status |
| `Payroll.PayrollBook.ActionCancel` | custom-addons/co_payroll/models/co_payslip.py:482-483 | a cancelled slip; its charges stay |
| `Payroll.PayrollBook.ActionResetDraft` | custom-addons/co_payroll/models/co_payslip.py:485-491 | a draft again; its charges stay |
| `Payroll.PayrollBook.LoanDeductions` | custom-addons/co_payroll/models/co_payslip.py:314-328 | the loop over the active loans adds up what is due |
| `Payroll.PayrollBook.ActionCompute` | custom-addons/co_payroll/models/co_payslip.py:425-443 | new state and refusal of computing |
| `Payroll.PayrollBook.ChargeLoans` | custom-addons/co_payroll/models/co_payslip.py:467-479 | the loop that charges every active loan of the employee |
| `Payroll.PayrollBook.ActionConfirm` | custom-addons/co_payroll/models/co_payslip.py:445-480 | new state and refusal of confirming |
| `Nit.ComputeNitCheckDigit` | custom-addons/co_exogena/models/co_exogena_report.py:17-32 | the weighted loop gives the specified digit |
| `Nit.ChangeDetectedExactly` | custom-addons/co_exogena/models/co_exogena_report.py:14-32 | changing one digit changes the remainder exactly when it is among the last fifteen |
| `Nit.SwapDetected` | custom-addons/co_exogena/models/co_exogena_report.py:14-32 | swapping two different adjacent weighted digits changes the remainder |
| `Nit.DigitClash` | custom-addons/co_exogena/models/co_exogena_report.py:26-32 | two remainders give the same digit exactly when equal, or 1 and 10 |
| `Nit.ShowsUnlessClash` | custom-addons/co_exogena/models/co_exogena_report.py:14-32 | a changed remainder shows in the check digit unless the remainders are 1 and 10 |
| `Nit.WrongCharacterExactly` | custom-addons/co_exogena/models/co_exogena_report.py:17-32 | one wrong digit of a written number keeps its check digit exactly when it is before the last fifteen or the remainders are 1 and 10 |
| `Nit.WrongOrderExactly` | custom-addons/co_exogena/models/co_exogena_report.py:17-32 | two different neighbours among the last fifteen digits in the wrong order keep it exactly when the remainders are 1 and 10 |
| `Nit.CheckDigitCompletes` | custom-addons/co_exogena/models/co_exogena_report.py:14-32 | for every number, 3*d0 + 7*d1 + ... + 71*d14 over its last fifteen digits from the right plus the check digit is a multiple of eleven exactly when that sum does not leave 1, and then the digit is 1 |
| `Nit.KnownNumber` | custom-addons/co_exogena/models/co_exogena_report.py:17-32 | 860002964 has check digit 4 |
| `Nit.LeadingZero` | custom-addons/co_exogena/models/co_exogena_report.py:14-32 | a leading zero never changes the check digit |
| `Nit.CleanKeepsDigits` | custom-addons/co_exogena/models/co_exogena_line.py:112-114 | stripping prefixes and punctuation keeps the check digit |
| `Exogena.GroupsAddUp` | custom-addons/co_exogena/wizard/co_exogena_generate_wizard.py:219-251 | what a group holds, in each of the four measures, is the sum of everything contributed under its key |
| `Exogena.ThresholdConserves` | custom-addons/co_exogena/wizard/co_exogena_generate_wizard.py:164-206 | aggregation keeps every per-concept total of every measure, less exactly the retained row under the reserved number that a small row of the same concept overwrites |
| `Exogena.ThresholdConservesWhenFree` | custom-addons/co_exogena/wizard/co_exogena_generate_wizard.py:164-206 | nothing is lost when no retained row has the reserved number and that concept |
| `Exogena.ThresholdLoses` | custom-addons/co_exogena/wizard/co_exogena_generate_wizard.py:164-206 | the same for any minimum amount, as one formula |
| `Exogena.PlainConserves` | custom-addons/co_exogena/wizard/co_exogena_generate_wizard.py:449-522 | formats keyed by tax number alone never lose anything |
| `Exogena.ThresholdCanLose` | custom-addons/co_exogena/wizard/co_exogena_generate_wizard.py:191-204 | a row of 900 under the reserved number is lost to a small row of 10 |
| `Exogena.RetainedExactly` | custom-addons/co_exogena/wizard/co_exogena_generate_wizard.py:173-189 | a row is retained exactly when its amount reaches the minimum, on either side of zero |
| `Exogena.TaxIsReading` | custom-addons/co_exogena/wizard/co_exogena_generate_wizard.py:258-278 | what a tax line adds, on the needles and fields themselves: a retention with its base, or VAT |
| `Exogena.Taxes1001` | custom-addons/co_exogena/wizard/co_exogena_generate_wizard.py:219-278 | before aggregation format 1001 reports for every tax number exactly the retentions, their bases and the VAT of the purchase lines of partners with that number |
| `Exogena.Retention1001` | custom-addons/co_exogena/wizard/co_exogena_generate_wizard.py:219-278 | so the retention of the whole format is the sum of the absolute balances of the retention lines whose partner has digits in its tax number |
| `Exogena.SplitSmall` | custom-addons/co_exogena/wizard/co_exogena_generate_wizard.py:170-189 | the loop that separates retained and small rows |
| `Exogena.ApplyMinThreshold` | custom-addons/co_exogena/wizard/co_exogena_generate_wizard.py:164-206 | the whole aggregation, unchanged rows for a non-positive minimum |
| `Exogena.GroupLines` | custom-addons/co_exogena/wizard/co_exogena_generate_wizard.py:219-251 | the grouping loop shared by the formats |
| `Exogena.AttributeTaxes` | custom-addons/co_exogena/wizard/co_exogena_generate_wizard.py:258-278 | the loop that adds each tax line to the first group of its tax number |
| `ExogenaReports.FormatDv` | custom-addons/co_exogena/models/co_exogena_line.py:96-154 | every row of every format shows the tax number of its group and the check digit of that number |
| `ExogenaReports.FormatNonNegative` | custom-addons/co_exogena/wizard/co_exogena_generate_wizard.py:283-616 | apart from formats 1001 and 1007 no format can hold a negative amount |
| `ExogenaReports.NoRefundNonNegative` | custom-addons/co_exogena/wizard/co_exogena_generate_wizard.py:247-251 | without refund lines those two cannot either |
| `ExogenaReports.LineIsRead` | custom-addons/co_exogena/wizard/co_exogena_generate_wizard.py:212-616 | what each of the nine formats adds for a line, its tax number and its concept, in the fields of the line and the needles of the tax names |
| `ExogenaReports.ConceptTotals` | custom-addons/co_exogena/wizard/co_exogena_generate_wizard.py:212-616 | before filters and aggregation every concept of every format holds exactly what the lines hold for it, in every measure |
| `ExogenaReports.PartnerTotals` | custom-addons/co_exogena/wizard/co_exogena_generate_wizard.py:212-616 | and so does every tax number |
| `ExogenaReports.VatTotals` | custom-addons/co_exogena/wizard/co_exogena_generate_wizard.py:328-405 | formats 1005 and 1006 report all VAT, and its whole base, of purchases and of sales with a partner, and nothing else |
| `ExogenaReports.RetentionTotals` | custom-addons/co_exogena/wizard/co_exogena_generate_wizard.py:283-326 | format 1003 reports all tax withheld at source, as amount and as retention, and its base |
| `ExogenaReports.PayableTotals` | custom-addons/co_exogena/wizard/co_exogena_generate_wizard.py:487-522 | format 1009 reports the absolute balances of all payable lines with a partner: nothing is lost to its filter or to the minimum amount |
| `ExogenaReports.IncomeTotals` | custom-addons/co_exogena/wizard/co_exogena_generate_wizard.py:407-447 | format 1007 reports all income less refunds by concept, less exactly the row that aggregation overwrites |
| `ExogenaReports.PaymentTotals` | custom-addons/co_exogena/wizard/co_exogena_generate_wizard.py:212-281 | format 1001 reports all payments less refunds by concept, less exactly the row that aggregation overwrites |
| `ExogenaReports.ReceivableTotals` | custom-addons/co_exogena/wizard/co_exogena_generate_wizard.py:449-485 | format 1008 retains exactly the tax numbers with a positive receivable balance, each once with that balance, and aggregation loses nothing of their total |
| `ExogenaReports.EquityAndTaxTotals` | custom-addons/co_exogena/wizard/co_exogena_generate_wizard.py:524-616 | formats 1010 and 1012 report all equity of partners and, by concept, all taxes |
| `ExogenaReports.KeepPositive` | custom-addons/co_exogena/wizard/co_exogena_generate_wizard.py:481-482 | the rows with a positive balance |
| `ExogenaReports.GenerateFormat` | custom-addons/co_exogena/wizard/co_exogena_generate_wizard.py:212-616 | the rows of each of the nine formats |
| `ExogenaReports.NegativeProblemsExactly` | custom-addons/co_exogena/models/co_exogena_report.py:209-218 | no negative amount is reported exactly when there is none |
| `ExogenaReports.RowProblemsExactly` | custom-addons/co_exogena/models/co_exogena_report.py:198-218 | a row is reported for its check digit exactly when it has a number and a digit that is not the one of that number, and for its amount exactly when that is negative |
| `ExogenaReports.ProblemsExactly` | custom-addons/co_exogena/models/co_exogena_report.py:195-238 | amounts are checked exactly in formats 1001 and 1005 to 1010 |
| `ExogenaReports.FindProblems` | custom-addons/co_exogena/models/co_exogena_report.py:195-238 | the error list: check digits, negative amounts, company number |
| `ExogenaReports.FindDvProblems` | custom-addons/co_exogena/models/co_exogena_report.py:198-207 | the check-digit loop |
| `ExogenaReports.FindNegativeProblems` | custom-addons/co_exogena/models/co_exogena_report.py:209-218 | the negative-amount loop |
| `ExogenaReports.StepKeeps` | custom-addons/co_exogena/wizard/co_exogena_generate_wizard.py:61-112 | generate, validate and reset keep every format good and every verdict deserved |
| `ExogenaReports.RunOneOfEach` | custom-addons/co_exogena/models/co_exogena_format.py:145-151 | over every run a report has at most one format of each code |
| `ExogenaReports.RefusedExactly` | custom-addons/co_exogena/wizard/co_exogena_generate_wizard.py:61-112 | for which reason a generation is refused: no company number, nothing chosen, or a chosen format that is there and not overwritten |
| `ExogenaReports.RefundIsRejected` | custom-addons/co_exogena/models/co_exogena_report.py:190-249 | a year with nothing but one supplier refund is generated and rejected |
| `ExogenaReports.GenerateThenValidate` | custom-addons/co_exogena/models/co_exogena_report.py:190-249 | after any run of generate, validate and reset, validating a generated report finds no wrong check digit and no missing company number, and accepts it exactly when no 1001 or 1007 amount is negative |
| `ExogenaReports.ValidatedExactly` | custom-addons/co_exogena/models/co_exogena_report.py:190-249 | the same for an overwriting generation from a given journal |
| `ExogenaReports.SelectFormats` | custom-addons/co_exogena/wizard/co_exogena_generate_wizard.py:75-78 | the selected formats in the fixed order |
| `ExogenaReports.MakeFormats` | custom-addons/co_exogena/wizard/co_exogena_generate_wizard.py:90-108 | one format with its rows per selected code |
| `ExogenaReports.ReportRecord.constructor` | custom-addons/co_exogena/models/co_exogena_report.py:146-156 | a draft with the digits of the company's VAT text |
| `ExogenaReports.ReportRecord.ActionGenerate` | custom-addons/co_exogena/wizard/co_exogena_generate_wizard.py:61-112 | new state and refusals of generating |
| `ExogenaReports.ReportRecord.ActionValidate` | custom-addons/co_exogena/models/co_exogena_report.py:190-250 | new state and refusal of validating |
| `ExogenaReports.ReportRecord.ActionResetDraft` | custom-addons/co_exogena/models/co_exogena_report.py:252-261 | an empty draft |

## Left out

- Odoo ORM, access rules, views, sequences, mail threads and the cron wrappers: only fields, guards and order of steps are kept. Fields of a record are not edited behind the actions' backs.
- IEEE floating point: money is exact cents, so an error below a cent in the original does not appear; tolerances below a cent become equality.
- `_compute_cumulative` of depreciation lines and the counters on forms: one running sum each.
- HTTP services, signature checks, Slack, GitHub and language-model clients, logging, message templates, `_mask_pii` and the sensitive-topic test: their outcomes are inputs of the bridge.
- Several bridge processes on one store: handlers do not interleave, because one event loop calls them synchronously (agents/agents/services/slack_intake_http.py:67-110).
- The SQLite store compares ISO timestamps as text; the model compares clock readings.
- StateStore.SqliteStore.SelectByIssue: returns some matching row, because the index on the issue is not unique and the query has no order.
- Deny patterns and the allow list are given as numbers of patterns and sets of columns; regular expressions, CSV, ZIP and JSON handling are not modelled. Columns have distinct names within a table.
- How the outcome of a masking statement depends on the data of the column: outcomes are inputs.
- Overflow of numeric columns by monetary noise, and integer rounding of noised integer columns on assignment: values are exact numbers.
- `sample_audit`, `verify_structural_integrity` and the command line of the masker; the waiting time between retries.
- Lower-casing and digit tests cover ASCII only.
- The automatic balance check that Odoo applies when a move is created: the entries are stated as the code builds them.
- Trigger rules and recurring entries of the posting rules: simple copies of templates.
- The contract, overtime and provision amounts of a payslip, the flags on overtime and manual deductions, and the deductions around the withholding table: independent formulas.
- Payroll.PaidOffExactly: for loans of a positive amount and installment charged only through payslips; other payments and status changes are in the runs of `Payroll.NeverOverpaid`, other installments in `Payroll.NoInstallmentNoCharge`.
- Editing or deleting existing payment rows by hand.
- Billing.BillingSafety: its runs contain no deletion of a run; one deletion is in `Billing.DeleteExactly`. Billing records are not edited by hand otherwise.
- StateStore.SqliteStore.MapSlackUser: keeps the login only; the columns `linked_at` and `linked_method` are written and never read.
- `participation_pct` of format 1010, the warnings and the log text of validation, partner address and document type: they do not affect amounts or verdicts.
- Formulas evaluated with `safe_eval` in `co_formulated_concept.py` and `co_salary_concept.py`: arbitrary Python.
- SQL view reports (aged balances, ledger, kardex, costs) and the simple status workflows of the club modules: they would only add easy members.
