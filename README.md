# GreenEnvelopes ledger, modelled in Dafny

GreenEnvelopes is an envelope-budgeting app. Income is split across named envelopes as
income allocations. Expenses are taken from one envelope, and transfers move money from a
source envelope to a target envelope. An envelope's balance is never stored: it is computed
from the records each time. This project models the ledger at the core of the app:

- the store and its three record kinds (envelopes, transactions and income allocations);
- the balance computation and the recent-activity feed of one envelope;
- the history list with its filter, envelope scope and search;
- the income, expense, transfer and envelope-form screens' gates and save commands;
- reordering and deleting envelopes;
- the insights totals;
- the CSV export;
- the hex colour parser behind the theme.

The store is one mutable object (`Records.Context`) holding three sequences. Queries read a
value snapshot of it (`Records.Store`). Commands are methods that modify it. Each Core Data
fetch is a filter over a sequence, and a sort descriptor is `Seqs.SortBy`, an insertion sort
proved sorted and a permutation. Amounts are exact `real`s: the finite precision of `Decimal`
(a 38-digit mantissa) is not modelled. Each screen is a
class whose fields are the screen's state. Its computed properties are functions that read
the screen and the store. Its buttons are methods.

Proved about the model, among other things:

- the balance loop computes the four-part sum, and each kind of record moves balances exactly
  by its effect;
- when every record points at a listed envelope, the envelopes' balances add up to income
  allocated minus expenses, because transfers cancel out;
- an even income split always sums to the income;
- the history list contains exactly the records it should, newest first; the feed holds the
  newest expenses and transfers of each role, and as many of the envelope's allocations as
  its fetch limit lets through, sorted newest first;
- reordering is a permutation that renumbers the orders 0..n-1;
- deleting an envelope leaves every other balance unchanged;
- the export holds exactly the in-scope records, sorted by day;
- a properly quoted CSV field reads back as the original text;
- every colour component is at most 255, and each hex length decodes as its case says.

## Model

| member | source | states |
|---|---|---|
| Records.TransactionsIn | GreenEnvelopes/Core/EnvelopeBalance.swift:22-23 | the fetch `type == … AND <role> == e` returns exactly the store's transactions filling that role for `e`, and no more than the store holds |
| Records.AllocationsTo | GreenEnvelopes/Core/EnvelopeBalance.swift:15-16 | the fetch `envelope == e` returns exactly the allocations pointing at `e` |
| Records.Displayed | GreenEnvelopes/Views/Settings/ManageEnvelopesView.swift:14-15 | the envelope list as the screens fetch it is a permutation of the stored envelopes in ascending `order` |
| Records.Resolve | GreenEnvelopes/Core/HistoryFetch.swift:17 | an envelope identifier resolves exactly when the store holds that envelope, and then to itself |
| Records.PositiveAmount | GreenEnvelopes/Views/Expense/AddExpenseView.swift:36-39 | the amount field is present exactly when the parsed text is above zero, and is then that value |
| Records.NoteOrNil | GreenEnvelopes/Views/Income/AddIncomeView.swift:163 | an empty note is stored as nil; any other note is stored as typed |
| Records.Without | GreenEnvelopes/Views/EnvelopeDetail/TransferView.swift:44 | the list without envelope `id` holds exactly the other envelopes |
| Records.SortKeepsDistinct | GreenEnvelopes/Views/Settings/ManageEnvelopesView.swift:14-15 | sorting the envelope list keeps its identifiers distinct |
| Seqs.SortBy | GreenEnvelopes/Core/HistoryFetch.swift:60 | a sort returns a permutation of its input of the same length, in non-decreasing key order |
| Seqs.SortBySortedIsIdentity | GreenEnvelopes/Core/HistoryFetch.swift:60 | sorting an already sorted list leaves it unchanged |
| Seqs.FetchLimit | GreenEnvelopes/Core/EnvelopeTransactions.swift:26 | a fetch limit keeps a prefix of `limit` records, or all of them when there are fewer; a limit of 0 means no limit |
| Seqs.TakeSortedKeepsLeast | GreenEnvelopes/Core/EnvelopeTransactions.swift:94-95 | the first `n` of a sorted list stay sorted, come from the list, and no record left out sorts before one kept |
| Text.Trim | GreenEnvelopes/Views/Settings/EnvelopeFormView.swift:75 | trimming removes exactly the leading and trailing spaces and tabs: the result is an infix with non-blank ends, and empty exactly when the input is all blank |
| Text.TrimIdempotent | GreenEnvelopes/Views/Settings/EnvelopeFormView.swift:75 | trimming twice is trimming once |
| Text.ContainsIsCaseBlind | GreenEnvelopes/Core/HistoryFetch.swift:27 | the case-insensitive search gives the same answer whatever the letter case of the text and the query |
| Text.LongerNeedleNotFound | GreenEnvelopes/Core/HistoryFetch.swift:27 | a query longer than the text is never found |
| Text.EscapeQuotes | GreenEnvelopes/Views/Export/ExportView.swift:102 | doubling the quote marks never shortens the text |
| Balance.Balance | GreenEnvelopes/Core/EnvelopeBalance.swift:11-43 | the four loops compute allocations + transfers in − expenses − transfers out; a failed fetch contributes nothing |
| Balance.TargetAmountValue | GreenEnvelopes/Core/EnvelopeBalance.swift:46-49 | the target is present exactly when stored, with the stored value |
| Balance.RecordTransaction | GreenEnvelopes/Core/EnvelopeBalance.swift:21-40 | recording a transaction moves every envelope's balance by exactly that transaction's effect on it |
| Balance.RecordAllocation | GreenEnvelopes/Core/EnvelopeBalance.swift:14-19 | recording an allocation raises only its own envelope's balance, by its amount |
| Balance.ExpenseLowersOnlyItsEnvelope | GreenEnvelopes/Core/EnvelopeBalance.swift:28-33 | an expense lowers its own envelope by its amount and leaves every other balance alone |
| Balance.TransferMovesAmount | GreenEnvelopes/Core/EnvelopeBalance.swift:21-40 | a transfer between two envelopes lowers the source and raises the target by its amount, and changes nothing else |
| Balance.SelfTransferNeutral | GreenEnvelopes/Core/EnvelopeBalance.swift:21-40 | a transfer from an envelope to itself changes no balance |
| Balance.IncomeTransactionNeutral | GreenEnvelopes/Core/EnvelopeBalance.swift:10-43 | an income transaction by itself changes no balance; only its allocations do |
| Balance.AmountlessRecordsNeutral | GreenEnvelopes/Core/EnvelopeBalance.swift:18 | records without an amount change no balance |
| Balance.UntouchedIsZero | GreenEnvelopes/Core/EnvelopeBalance.swift:11-43 | an envelope no record refers to has balance zero, whichever fetches fail |
| Balance.FailedFetchLosesOnlyItsPart | GreenEnvelopes/Core/EnvelopeBalance.swift:17 | a failed fetch removes exactly its own part of the sum and nothing else |
| Balance.FailedFetchDirection | GreenEnvelopes/Core/EnvelopeBalance.swift:17-39 | with non-negative amounts, a failed expense or transfer-out fetch can only overstate the balance, and a failed allocation or transfer-in fetch can only understate it |
| Recent.KindTagInjective | GreenEnvelopes/Core/EnvelopeTransactions.swift:12 | the four type tags are distinct |
| Recent.TransactionItems | GreenEnvelopes/Core/EnvelopeTransactions.swift:28-37 | one item per fetched transaction, in fetch order |
| Recent.AllocationItems | GreenEnvelopes/Core/EnvelopeTransactions.swift:81-91 | one item per fetched allocation, in fetch order |
| Recent.NewestInRole | GreenEnvelopes/Core/EnvelopeTransactions.swift:23-27 | each transaction fetch returns `limit` records filling its role, or all of them when there are fewer, newest first, and none left out is newer than one returned |
| Recent.AllocationFetch | GreenEnvelopes/Core/EnvelopeTransactions.swift:77-80 | the allocation fetch returns twice the limit of the envelope's allocations, or all of them when there are fewer, taken in store order |
| Recent.NewestItems | GreenEnvelopes/Core/EnvelopeTransactions.swift:94-95 | the feed keeps min(limit, count) items drawn from the gathered ones, newest first, and none dropped is newer than one kept |
| Recent.RecentTransactionItems | GreenEnvelopes/Core/EnvelopeTransactions.swift:19-96 | the method returns the newest `limit` of the gathered items, newest first, each built from a record that refers to the envelope in the role its type says |
| Recent.GatheredTraceable | GreenEnvelopes/Core/EnvelopeTransactions.swift:22-92 | every gathered item comes from a record that refers to the envelope |
| Recent.TraceableSign | GreenEnvelopes/Core/EnvelopeTransactions.swift:32-86 | with non-negative stored amounts, expenses and transfers out show as zero or less, and transfers in and income as zero or more |
| Recent.TraceableName | GreenEnvelopes/Core/EnvelopeTransactions.swift:35-89 | expense and income items name the envelope itself; a transfer names the envelope on the other side |
| HistoryFetch.SortHistory | GreenEnvelopes/Core/HistoryFetch.swift:60 | the final sort is a permutation, newest first |
| HistoryFetch.Items | GreenEnvelopes/Core/HistoryFetch.swift:9-62 | the method returns exactly the gathered items, as a multiset, newest first |
| HistoryFetch.FetchedKinds | GreenEnvelopes/Core/HistoryFetch.swift:38 | the transaction fetch returns only expenses and transfers |
| HistoryFetch.AllocationAppearance | GreenEnvelopes/Core/HistoryFetch.swift:19-33 | an allocation appears, as often as it is stored, exactly when the filter is not Expenses, it is in scope and it passes the search |
| HistoryFetch.ExpenseAppearance | GreenEnvelopes/Core/HistoryFetch.swift:35-57 | an expense appears, as often as it is stored, exactly when the filter is not Income, it names the envelope in scope as envelope, source or target, and it passes the search |
| HistoryFetch.TransferAppearance | GreenEnvelopes/Core/HistoryFetch.swift:35-57 | a transfer appears exactly when the filter is not Income and it names the envelope in scope as envelope, source or target, and passes the search |
| HistoryFetch.AllIsIncomeThenExpenses | GreenEnvelopes/Core/HistoryFetch.swift:19-58 | before sorting, All gathers the Income list followed by the Expenses list |
| HistoryFetch.IncomeShowsOnlyAllocations | GreenEnvelopes/Core/HistoryFetch.swift:35 | the Income filter shows only allocations |
| HistoryFetch.ExpensesShowNoAllocations | GreenEnvelopes/Core/HistoryFetch.swift:19 | the Expenses filter shows no allocation |
| HistoryFetch.EmptySearchKeepsAll | GreenEnvelopes/Core/HistoryFetch.swift:26 | an empty search keeps every fetched record |
| HistoryFetch.UnresolvedEnvelopeIgnored | GreenEnvelopes/Core/HistoryFetch.swift:17 | an envelope identifier that no longer resolves leaves the list unscoped |
| History.AmountSign | GreenEnvelopes/Models/HistoryItem.swift:30-36 | the shown amount is the stored amount, negated exactly when the item is not income |
| History.AllocationDetails | GreenEnvelopes/Models/HistoryItem.swift:22-57 | an allocation shows its parent's date (now when there is none) and its parent's note, and has a name exactly when its envelope exists |
| History.TransferDescription | GreenEnvelopes/Models/HistoryItem.swift:62-63 | a transfer's description starts with "Transfer to " |
| History.IdsDistinct | GreenEnvelopes/Models/HistoryItem.swift:14-20 | equal item ids mean the same case and the same underlying record |
| Income.Round2 | GreenEnvelopes/Views/Income/AddIncomeView.swift:139-140 | rounding to two places gives a whole number of hundredths within half a hundredth of the input, a tie going away from zero, and keeps a non-negative input non-negative |
| Income.HalfHundredthRoundsAway | GreenEnvelopes/Views/Income/AddIncomeView.swift:139-140 | 0.025 rounds to 0.03 and -0.025 to -0.03 |
| Income.SharesSumToIncome | GreenEnvelopes/Views/Income/AddIncomeView.swift:143-152 | the even split's shares, the last taking the remainder, sum to the income |
| Income.SharesNonNegative | GreenEnvelopes/Views/Income/AddIncomeView.swift:143-150 | when the even quotient income/n is at least (n−1)/200 (an income of at least n(n−1)/200), no share is negative |
| Income.ThreeWaySplit | GreenEnvelopes/Views/Income/AddIncomeView.swift:140-148 | 100 over three envelopes gives 33.33, 33.33 and 33.34 |
| Income.TinyIncomeOverdrawsLastShare | GreenEnvelopes/Views/Income/AddIncomeView.swift:140-148 | 0.05 over seven envelopes gives six shares of 0.01 and a last share of −0.01 |
| Income.SumOverIsMapSum | GreenEnvelopes/Views/Income/AddIncomeView.swift:38-42 | summing the entries in any repetition-free order gives the order-free sum |
| Income.IncomeForm.TotalAllocated | GreenEnvelopes/Views/Income/AddIncomeView.swift:35-44 | in single-envelope mode the total is the income (0 when unset); otherwise it is the sum of the non-negative entries, whatever the dictionary order |
| Income.IncomeForm.DistributeEvenly | GreenEnvelopes/Views/Income/AddIncomeView.swift:136-154 | with an income and some envelopes, each listed envelope gets its share; otherwise the entries are unchanged |
| Income.SplitEvenly | GreenEnvelopes/Views/Income/AddIncomeView.swift:138-152 | the loop writes, for every listed envelope, exactly its share: the rounded quotient, the last one the income less the running total of the others |
| Income.IncomeForm.SaveIncome | GreenEnvelopes/Views/Income/AddIncomeView.swift:156-184 | with an income, one income transaction is appended, plus one allocation to the preselected envelope or one per listed envelope with a positive entry; otherwise nothing changes |
| Income.WriteDistributed | GreenEnvelopes/Views/Income/AddIncomeView.swift:170-180 | the distribution loop appends exactly one allocation per listed envelope whose entry parses to an amount above zero, in list order, and touches no envelope or transaction |
| Income.DistributedShape | GreenEnvelopes/Views/Income/AddIncomeView.swift:173-181 | each written allocation belongs to the new transaction and to a listed envelope whose entry is positive, and carries that entry |
| Income.CommitConservesIncome | GreenEnvelopes/Views/Income/AddIncomeView.swift:46-50 | when the save gate holds, the allocations written add up to the income |
| Income.EvenSplitCanBeSaved | GreenEnvelopes/Views/Income/AddIncomeView.swift:136-154 | when no share is negative, the even split's entries sum to the income, so it passes the save gate |
| Income.LargeEnoughIncomeCanBeSaved | GreenEnvelopes/Views/Income/AddIncomeView.swift:136-154 | an income whose even quotient income/n is at least (n−1)/200 (at least n(n−1)/200 in all) split evenly passes the save gate |
| Income.TinySplitBlocksSave | GreenEnvelopes/Views/Income/AddIncomeView.swift:39-49 | 0.05 split over seven envelopes counts 0.06, because the negative entry is skipped, so the save gate stays closed |
| Expense.Message | GreenEnvelopes/Views/Expense/AddExpenseView.swift:142-151 | a warning has a message exactly when it is not `none` |
| Expense.WarningLevels | GreenEnvelopes/Views/Expense/AddExpenseView.swift:45-50 | for a positive amount: critical exactly when the balance is zero or less, a warning exactly when 0 < balance < amount, and none exactly when balance ≥ amount |
| Expense.ExpenseForm.SaveExpense | GreenEnvelopes/Views/Expense/AddExpenseView.swift:125-134 | when the gate holds, one expense transaction is appended for the selected envelope; otherwise nothing changes |
| Expense.SavedExpenseEffect | GreenEnvelopes/Views/Expense/AddExpenseView.swift:125-134 | a saved expense lowers only its envelope's balance, by its amount |
| Expense.OverspendingIsAllowed | GreenEnvelopes/Views/Expense/AddExpenseView.swift:41-50 | an expense above the balance is warned about but can be saved, and it leaves the balance negative |
| Transfer.WithoutKeepsOrder | GreenEnvelopes/Views/EnvelopeDetail/TransferView.swift:44 | leaving an envelope out keeps the list in ascending order |
| Transfer.TargetChoices | GreenEnvelopes/Views/EnvelopeDetail/TransferView.swift:44 | the target picker offers exactly the stored envelopes other than the source, in ascending order |
| Transfer.TransferForm.PerformTransfer | GreenEnvelopes/Views/EnvelopeDetail/TransferView.swift:72-83 | with an amount and a target, one transfer from the source to the target is appended; otherwise nothing changes |
| Transfer.TransferEffect | GreenEnvelopes/Views/EnvelopeDetail/TransferView.swift:72-83 | a transfer lowers the source and raises the target by its amount and leaves the other balances alone |
| Transfer.SelfTransferChangesNothing | GreenEnvelopes/Views/EnvelopeDetail/TransferView.swift:31-33 | a transfer whose target is the source would change no balance |
| EnvelopeForm.Form.constructor | GreenEnvelopes/Views/Settings/EnvelopeFormView.swift:16-17 | the form starts with an empty name and the icon "envelope.fill" |
| EnvelopeForm.Form.Appear | GreenEnvelopes/Views/Settings/EnvelopeFormView.swift:65-70 | an edited envelope's name and icon fill the inputs |
| EnvelopeForm.Form.Save | GreenEnvelopes/Views/Settings/EnvelopeFormView.swift:74-91 | a blank name saves nothing; otherwise the edited envelope takes the trimmed name and the icon, or a new envelope is appended; no transaction or allocation changes |
| EnvelopeForm.StoredNameIsTrimmed | GreenEnvelopes/Views/Settings/EnvelopeFormView.swift:75-76 | a stored name is non-empty, has no blank at either end and is left alone by trimming again |
| EnvelopeForm.EditChangesOnlyNameAndIcon | GreenEnvelopes/Views/Settings/EnvelopeFormView.swift:78-80 | an edit changes only the name and icon of the envelope edited |
| EnvelopeForm.CreateKeepsIdsDistinct | GreenEnvelopes/Views/Settings/EnvelopeFormView.swift:82-88 | creating with a fresh identifier keeps identifiers distinct |
| EnvelopeForm.EditKeepsIdsDistinct | GreenEnvelopes/Views/Settings/EnvelopeFormView.swift:78-80 | editing keeps identifiers distinct |
| EnvelopeForm.NewEnvelopeListedLast | GreenEnvelopes/Views/Settings/EnvelopeFormView.swift:86-87 | while no order exceeds the envelope count, a new envelope's order is above every other |
| EnvelopeForm.CreatedOrderCanTie | GreenEnvelopes/Views/Settings/EnvelopeFormView.swift:86-87 | after a deletion, a new envelope's order can equal an existing one |
| Manage.MoveIsPermutation | GreenEnvelopes/Views/Settings/ManageEnvelopesView.swift:74 | moving offsets to a destination rearranges the list without losing or adding an envelope |
| Manage.MoveOne | GreenEnvelopes/Views/Settings/ManageEnvelopesView.swift:74 | moving one envelope places it just before the element that stood at the destination |
| Manage.MoveInPlace | GreenEnvelopes/Views/Settings/ManageEnvelopesView.swift:74 | moving an envelope to its own position or the next one leaves the list unchanged |
| Manage.RenumberedIsDisplayed | GreenEnvelopes/Views/Settings/ManageEnvelopesView.swift:75-77 | renumbering sets the orders to 0..n-1 along the list, changes nothing else, and the list then displays in that order |
| Manage.Move | GreenEnvelopes/Views/Settings/ManageEnvelopesView.swift:72-79 | the store's envelopes become the displayed list, moved and renumbered; records are unchanged |
| Manage.MoveResult | GreenEnvelopes/Views/Settings/ManageEnvelopesView.swift:72-79 | after a move the envelopes are a permutation of those before, numbered 0..n-1 and displayed in the moved order |
| Manage.Delete | GreenEnvelopes/Views/Settings/ManageEnvelopesView.swift:67-70 | deleting removes the envelope and nullifies every reference to it |
| Manage.DeleteKeepsRecords | GreenEnvelopes/Core/PersistenceController.swift:164-190 | deletion keeps every transaction and allocation, with its amounts, type, date and note |
| Manage.DeleteKeepsOtherBalances | GreenEnvelopes/Views/Settings/ManageEnvelopesView.swift:67-70 | deleting an envelope leaves every other envelope's balance unchanged |
| Manage.DeletedEnvelopeIsUntouched | GreenEnvelopes/Core/PersistenceController.swift:164-190 | after deletion nothing refers to the deleted envelope, so its balance reads zero |
| Insights.ExpensesOf | GreenEnvelopes/Views/Insights/InsightsView.swift:64 | the expense fetch returns exactly the expense transactions |
| Insights.TotalIncome | GreenEnvelopes/Views/Insights/InsightsView.swift:52-59 | the income total is the sum of all allocations' amounts, or 0 when the fetch fails |
| Insights.TotalSpent | GreenEnvelopes/Views/Insights/InsightsView.swift:61-69 | the spent total is the sum of the expenses' amounts, transfers excluded, or 0 when the fetch fails |
| Insights.AtRisk | GreenEnvelopes/Views/Insights/InsightsView.swift:71-73 | the at-risk count is the number of positions in the list whose envelope has a balance of zero or less |
| Insights.PositiveBalances | GreenEnvelopes/Views/Insights/InsightsView.swift:22-26 | the chart holds exactly the listed envelopes with a positive balance, with their names and balances |
| Insights.AtRiskAndChartedSplit | GreenEnvelopes/Views/Insights/InsightsView.swift:22-73 | every envelope is either at risk or charted, never both |
| Insights.BalancesAddUp | GreenEnvelopes/Views/Insights/InsightsView.swift:52-69 | when every record points at a listed envelope, the balances add up to total income minus total spent |
| Export.AllocationFetch | GreenEnvelopes/Views/Export/ExportView.swift:161-164 | the allocation fetch returns exactly the allocations whose parent is dated within the window |
| Export.TransactionFetch | GreenEnvelopes/Views/Export/ExportView.swift:180-185 | the transaction fetch returns exactly the expenses and transfers dated within the window |
| Export.FetchExportData | GreenEnvelopes/Views/Export/ExportView.swift:145-202 | the loops produce the allocation rows, then the transaction rows, sorted by day |
| Export.ExportRowsSorted | GreenEnvelopes/Views/Export/ExportView.swift:200 | the exported rows are a permutation of the gathered rows, in ascending day order |
| Export.ExportedExactly | GreenEnvelopes/Views/Export/ExportView.swift:159-198 | a row is exported exactly when it is built from an in-scope allocation or an in-scope expense or transfer |
| Export.ScopeBounds | GreenEnvelopes/Views/Export/ExportView.swift:149-154 | the current-month export holds only records dated from the month start to now; the all-data export holds every allocation, expense and transfer |
| Export.RowSigns | GreenEnvelopes/Views/Export/ExportView.swift:170-196 | allocation rows are income with the stored amount; expense and transfer rows are never income and carry the amount negated |
| Export.GenerateCSV | GreenEnvelopes/Views/Export/ExportView.swift:98-104 | the file is the header followed by one line per exported row |
| Export.CsvShape | GreenEnvelopes/Views/Export/ExportView.swift:100-103 | the file starts with the header and has at least nine characters per row after it |
| Export.LineEnvelopeReadsBack | GreenEnvelopes/Views/Export/ExportView.swift:103 | in the line with the envelope escaped like the note, the envelope field reads back as the envelope's name, followed by the rest of the line |
| Export.LineNoteReadsBack | GreenEnvelopes/Views/Export/ExportView.swift:102 | in that line the note field reads back as the note, followed by the line end |
| Export.QuotedRoundTrip | GreenEnvelopes/Views/Export/ExportView.swift:102-103 | a field quoted with its quote marks doubled reads back as the original text under the quoting rule of section 2 of RFC 4180 |
| Export.EnvelopeQuoteBreaksField | GreenEnvelopes/Views/Export/ExportView.swift:103 | the envelope column as written reads back wrong for a name containing a quote mark |
| Colors.Strip | GreenEnvelopes/Theme/AppColors.swift:31 | stripping keeps the text between the first and last ASCII letter or digit, and is empty exactly when there is none |
| Colors.ScanBound | GreenEnvelopes/Theme/AppColors.swift:33 | the scanned value is below 16 to the power of the text's length |
| Colors.ParseHex | GreenEnvelopes/Theme/AppColors.swift:29-45 | every component is at most 255 for any input |
| Colors.ThreeDigits | GreenEnvelopes/Theme/AppColors.swift:36-37 | three hex digits give opaque channels of digit × 17 |
| Colors.SixDigits | GreenEnvelopes/Theme/AppColors.swift:38-39 | six hex digits give an opaque colour with one channel per pair of digits |
| Colors.EightDigits | GreenEnvelopes/Theme/AppColors.swift:40-41 | eight hex digits give alpha, red, green and blue, one per pair of digits |
| Colors.OtherLengthIsBlack | GreenEnvelopes/Theme/AppColors.swift:42-43 | any other stripped length gives opaque black |
| Colors.HashIsStripped | GreenEnvelopes/Theme/AppColors.swift:31-39 | "#2AAA6A" loses its "#" and decodes as 2A, AA, 6A |
| Colors.Backgrounds | GreenEnvelopes/Theme/AppColors.swift:10-25 | the light background is white and the dark one is #121412, chosen exactly when the scheme is dark |

## Left out

- Sorting is modelled by its result. Swift's in-place `sort` and `Array.move(fromOffsets:toOffset:)` are specified by the sequences they produce. Ties between equal keys come out in insertion-sort order, where Swift leaves that order unspecified.
- The `??` fallbacks for a missing transaction id, date or type, or a missing envelope name or icon, are not modelled. Every command in the app writes these fields, so the model stores them as non-optional. Amounts, notes and relationships stay optional.
- Fresh `UUID`s, object identifiers and `Date()` come in as parameters (`newId`, `firstKey`, `now`).
- `Decimal(string:)` is an input: each entry field holds the already parsed `Option<real>`.
- The date formatter, `Double` conversion and number printing of the export are parameters (`dayOf`, `dateText`, `amountText`). The model takes it that the `yyyy-MM-dd` text orders as the day does.
- The export's intermediate fetch sorts by date are not modelled, because the final sort by day decides the order up to ties. The history's transaction fetch sort is modelled.
- A failed `try? context.fetch` is a parameter: a set of failed sub-fetches for the balance, and a flag for the insights totals. Every other fetch is taken to succeed: those of the feed and the history list, the two fetches of the export, the balances behind the insights' at-risk count and balance chart, and the envelope count in `EnvelopeForm.CreatedOrder`, where a failed count would give order 0.
- Recent.AllocationFetch: the feed's allocation fetch has a limit but no sort order, so which allocations Core Data returns is not determined. The model takes the first ones in store order. It therefore does not promise that the feed shows the envelope's newest allocations.
- Insights.PositiveBalances: the chart converts each balance to `Double` before keeping those above zero. The model compares the exact balance with zero.
- `Income.IncomeForm.DistributeEvenly` writes each share as `"\(amount)"`. The model stores the share itself, taking it that the printed decimal parses back exactly.
- Envelope deletion follows the store's default nullify rule: transactions and allocations are kept and their references to the envelope are cleared. Only deleting a transaction cascades to its allocations, and that operation is not part of the app's screens.
- `EnvelopeForm.CreatedOrder` models the `Int32` cast of the count as the plain integer; no store holds 2^31 envelopes. `Manage.Move` likewise stores the index as an integer.
- `Colors.Strip` and `Colors.IsAlnum` treat only ASCII letters and digits as alphanumeric. `Text.IsBlank` treats only the space and the tab as whitespace. Unicode letters and other whitespace characters are not modelled.
- `Colors.ParseHex` returns the components as integers. The `Double` division by 255 and the `Color` value are not modelled. `UInt64` overflow of the scan is not modelled: values stay below 16^8 for the lengths that are used.
- `Text.ContainsIgnoringCase` folds only ASCII letters. Locale-aware comparison is not modelled.
- The insights monthly spending chart, the budget screen, the PDF export, onboarding, settings, currency formatting and the remote-configuration layer are not part of this model.
- Writing the CSV file, `viewContext.save()` and navigation are I/O and are not modelled; a save is the change to the store.

## Findings

| source | as written | input that shows it | evidently intended | confidence | as-written member | corrected member |
|---|---|---|---|---|---|---|
| GreenEnvelopes/Views/Export/ExportView.swift:103 | the envelope column is wrapped in quote marks, but a `"` inside the name is not doubled, unlike the note column on line 102 | an envelope named `a"b`: its field `"a"b"` reads back as `a`, and the rest of the line, `b",…`, is then misread | the envelope name escaped like the note, so that each field reads back as written | high, not executed | Export.EnvelopeQuoteBreaksField | Export.QuotedRoundTrip |
