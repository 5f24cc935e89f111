# Settlement of site orders against bank deposits

`app.py` is a Streamlit page. The user uploads two spreadsheets: the site's order list and the bank's deposit list. The page then builds a settlement table and writes it out as a four-sheet Excel workbook. This project models the reconciliation at its centre, as a batch transform over in-memory records:

1. **Keys and amounts.**
   - A payer's name becomes a comparison key: every `' '` is removed, then white space is stripped from both ends.
   - An amount cell that is not a number counts 0.
2. **Grouping.** Order rows and deposit rows are grouped by key, as pandas `groupby` does.
   - There is one group per key, in ascending key order.
   - Each group carries the names of its first row and the sum of its amounts.
3. **Greedy matching.**
   - Each order group, in key order, takes the first deposit group still unused whose key contains the order's key or is contained in it. That deposit's key goes into the set of used keys.
   - An order with no such deposit gets a row of its own with deposit 0.
   - Every deposit no order took gets an orphan row with empty order-side names.
4. **Report.**
   - Each row gets its 차이 column, 통장입금 − 총 구매금액.
   - The table is sorted by 주문자.
   - It is split into "B2B" (some order-side name present) and "B2B 이외" (both empty).
   - Two further sheets take the B2B rows paid over (차이 > 0) and paid short (차이 < 0).
5. **Emphasis.** A pure function gives the highlighting the workbook applies to each data row: on the 차이 cell, and on the two payment sheets also on the 주문자 cell.

Modules, one per file:

| Module | Contents |
|---|---|
| `Options` | The option type. |
| `Strings` | Python's white-space set, the lexicographic order pandas sorts by, and `in` on strings. |
| `Sums` | Column sums. |
| `Normalize` | Records, amount coercion, and the key. |
| `Aggregate` | Grouping. |
| `Matcher` | The matching loop as a method, proved against a functional specification. |
| `Report` | Difference, sort and sheets. |
| `Style` | Emphasis. |
| `Reconcile` | The whole pipeline and its end-to-end properties. |
| `Scenarios` | Worked examples: exact payment, partial name, no deposit, no order, and an order split over two rows. |

## Where the model departs from the program or its description

- **Group order.** Groups are scanned in ascending key order, because pandas `groupby` sorts by default (app.py:31, app.py:43). Insertion order is not used.
- **"B2B" is decided by the two order-side names, as in app.py:94-95.** An order whose 주문자 and 입금자(사이트) are both empty lands in "B2B 이외", together with the orphan deposits. `Report.RowOrigins` states this.
- **First fit beats exact match.** Greedy matching prefers the first compatible deposit in key order over an exact key match that comes later. The order "가" takes the deposit "가나" before the order "가나" is reached (`Reconcile.GreedyTakesFirstFit`). This is the program's policy as written, and the model keeps it.
- **No data row, no workbook.** When neither upload has a data row, the matcher emits no row and the program fails when it computes 차이 (app.py:90-91). `Reconcile.Reconcile` then returns None, and `Reconcile.NoRowsIffNoRecords` states exactly when this happens.
- **An empty key matches every deposit.** The empty string is contained in every string (`Strings.EmptyIsSubstring`).

## Model

| member | source | states |
|---|---|---|
| Normalize.Coerce | app.py:27-28 | A numeric amount is kept as it is; a non-numeric or missing one becomes 0 |
| Normalize.RemoveBlanks | app.py:29 | Every `' '` is removed and every other character is kept with its multiplicity; a name without blanks is unchanged |
| Normalize.RemoveBlanksAppend | app.py:29 | Removing blanks works part by part on a concatenation, so the kept characters stay in their order |
| Normalize.RemoveBlanksChar | app.py:29 | A single `' '` disappears and any other single character is kept |
| Normalize.TrimStart | app.py:29 | The result is a suffix of the input and does not start with white space |
| Normalize.TrimStartDrops | app.py:29 | Every character `lstrip` drops is white space |
| Normalize.TrimEnd | app.py:29 | The result is a prefix of the input and does not end with white space |
| Normalize.TrimEndDrops | app.py:29 | Every character `rstrip` drops is white space |
| Normalize.Strip | app.py:29 | The result occurs in the input and has no white space at either end; an all-white input gives `""`; an unpadded input is unchanged |
| Normalize.StripOccurs | app.py:29 | The stripped text sits in the input exactly where the leading white space ends |
| Normalize.Key | app.py:29 | A key contains no `' '` and has no white space at either end |
| Normalize.KeyOfBlankName | app.py:41 | A name made only of blanks has the empty key |
| Normalize.KeyOfCleanName | app.py:41 | A name with no blank and no surrounding white space is its own key |
| Normalize.KeyIdempotent | app.py:29 | Deriving the key of a key changes nothing |
| Normalize.OrderLines | app.py:27-29 | Row i of the order sheet becomes line i under its 입금자(사이트) key; no key holds a `' '`; the lines add up to the coerced order amounts |
| Normalize.DepositLines | app.py:40-41 | Row i of the deposit sheet becomes line i under its 입금자(실제) key; no key holds a `' '`; the lines add up to the coerced deposit amounts |
| Aggregate.Insert | app.py:31-35 | Adding a line keeps the groups in strictly ascending key order and creates no group under any other key |
| Aggregate.InsertFind | app.py:31-35 | After a line is added, the group under its key has absorbed it (created with the line's names, or keeping its first names and adding the amount) and every other group is unchanged |
| Aggregate.Group | app.py:31 | The groups are in strictly ascending key order, so keys are distinct |
| Aggregate.GroupEmpty | app.py:31-35 | There is no group exactly when there is no line |
| Aggregate.GroupSummarises | app.py:31-35 | There is a group exactly for each key that occurs; its total is the sum of that key's amounts (0 for absent keys) and its names are those of the key's first line |
| Aggregate.GroupEntities | app.py:43-46 | Each group's total and names are those of its key's lines, and every line's key has a group |
| Aggregate.GroupConserves | app.py:34 | The group totals add up to the sum of all amounts |
| Aggregate.InsertConserves | app.py:45 | Adding a line raises the sum of the group totals by exactly its amount |
| Aggregate.InsertAbove | app.py:31-35 | A line whose key is above every group's key becomes a new last group |
| Aggregate.GroupOfAscending | app.py:31-35 | Grouping the lines of an ascending, already grouped sequence gives it back |
| Aggregate.GroupIdempotent | app.py:43-46 | Grouping an aggregate again changes nothing |
| Aggregate.HasKeySnoc | app.py:31 | A key occurs in the lines plus one more line iff it occurs before or is that line's key |
| Strings.IsSpace | app.py:29 | Definition of the white space `str.strip()` removes, Python's `str.isspace` set; its properties are in `Normalize.TrimStartDrops`, `Normalize.TrimEndDrops` and `Normalize.Key` |
| Strings.IsSubstring | app.py:58 | Definition of Python's `in` on strings; its properties are in `Strings.SubstringOccurs` and `Strings.EmptyIsSubstring` |
| Strings.SubstringOccurs | app.py:58 | Python's `a in b` holds iff `a` occurs as a contiguous block of `b` |
| Strings.EmptyIsSubstring | app.py:58 | The empty key is contained in every key |
| Strings.Less | app.py:31-43 | Definition of Python's order on str, by code point, which `groupby` and `sort_values` (app.py:92) use; its properties are in `Strings.LessIrreflexive`, `Strings.LessTransitive`, `Strings.LessTrichotomy` and `Strings.EmptyIsLeast` |
| Strings.LessIrreflexive | app.py:92 | No name sorts before itself |
| Strings.LessTransitive | app.py:92 | The sort order is transitive |
| Strings.LessAsymmetric | app.py:92 | Two names never sort before each other |
| Strings.LessTrichotomy | app.py:92 | Two different names are always ordered one way or the other |
| Strings.LessEqTotal | app.py:92 | Any two names are comparable |
| Strings.EmptyIsLeast | app.py:92 | The empty 주문자 sorts before every other |
| Matcher.Compatible | app.py:58 | Definition of the test `site_key in deposit_key or deposit_key in site_key`; its properties are in `Strings.SubstringOccurs` and `Matcher.FirstFit` |
| Matcher.MatchedRow | app.py:59-65 | Definition of the row of an order that took a deposit; its properties are in `Matcher.RowsFollowPicks` |
| Matcher.UnmatchedRow | app.py:71-77 | Definition of the row of an order that took none; its properties are in `Matcher.RowsFollowPicks` |
| Matcher.OrphanRow | app.py:81-87 | Definition of the row of a deposit no order took; its properties are in `Matcher.OrphanSums` and `Matcher.LeftOverRow` |
| Matcher.AscendingDistinct | app.py:43-46 | Grouped deposits have pairwise distinct keys |
| Matcher.FirstFit | app.py:56-58 | A pick is a valid index of a deposit that is unused and compatible with the order key |
| Matcher.FirstFitIsFirst | app.py:56-68 | No deposit before the pick could have been taken; with no pick, no deposit could be taken |
| Matcher.FindDeposit | app.py:56-69 | The inner loop with its `break` returns exactly the first fit |
| Matcher.MatchRows | app.py:49-87 | Definition of the matcher's rows: the order rows, then one row per deposit left over; its properties are in `Matcher.GreedyChoice`, `Matcher.AtMostOnce`, `Matcher.LeftOverIffNotTaken` and `Matcher.MatchConserves` |
| Matcher.Match | app.py:49-87 | The two loops, with `used_deposit_keys`, emit exactly the rows of the matching specification |
| Matcher.AddOrphans | app.py:79-87 | The loop over the deposits appends one orphan row per deposit whose key is unused, in deposit order |
| Matcher.Step | app.py:53-77 | Definition of one pass of the order loop; its properties are in `Matcher.GreedyChoice` and `Matcher.RowsFollowPicks` |
| Matcher.MatchOrders | app.py:52-77 | The order loop emits one row and records one pick per order group |
| Matcher.RowsFollowPicks | app.py:59-77 | Row i carries order i's names and total, plus the taken deposit's payer and total, or `""` and 0 when it took none |
| Matcher.UsedIsTaken | app.py:66 | The used keys are exactly the keys of the deposits taken |
| Matcher.TakenKeysMembers | app.py:66 | A key is taken iff some pick points at a deposit with that key |
| Matcher.OrderRows | app.py:52-77 | One row per order, in order, each built from its pick; a key is used iff some order took a deposit with that key |
| Matcher.MatchOrdersPrefix | app.py:52 | The first n orders are matched the same whatever follows them |
| Matcher.GreedyChoice | app.py:56-68 | Order i takes the first deposit available given the keys used by the orders before it |
| Matcher.AtMostOnce | app.py:58-66 | Two different orders never take the same deposit, nor two deposits with the same key |
| Matcher.TakenIff | app.py:66 | With distinct keys, a deposit's key is taken iff some pick is that deposit |
| Matcher.Unconsumed | app.py:79 | There are never more left-over deposits than deposits |
| Matcher.UnconsumedMembers | app.py:79 | A deposit is left over iff its key is not in the used set |
| Matcher.LeftOverIffNotTaken | app.py:79-87 | A deposit gets an orphan row iff no order took it |
| Matcher.IncompatibleNotTaken | app.py:58 | A deposit whose key is compatible with no order key is taken by no order |
| Matcher.LeftOverRow | app.py:79-87 | A deposit no order took has its orphan row among the matcher's rows |
| Matcher.OrphanRows | app.py:80-87 | One orphan row per left-over deposit, in deposit order; its members are in `Matcher.OrphanRowsMembers` and its sums in `Matcher.OrphanSums` |
| Matcher.OrphanRowsMembers | app.py:80-87 | Every left-over deposit has its orphan row |
| Matcher.NoRows | app.py:49-87 | The matcher emits no row exactly when there is neither an order group nor a deposit group |
| Matcher.UnconsumedNone | app.py:79 | With no key used, every deposit is left over |
| Matcher.UnconsumedRemove | app.py:66 | Using one more present key removes exactly that deposit and its amount from the left-overs |
| Matcher.UnconsumedKeep | app.py:66 | Using a key no deposit has changes nothing |
| Matcher.DepositBalance | app.py:52-79 | The deposits on order rows plus the left-over deposits make up all deposits |
| Matcher.PurchaseBalance | app.py:52-77 | The order rows carry the order totals in full |
| Matcher.PoolShrinks | app.py:52-79 | Each deposit is either left over or taken by exactly one order |
| Matcher.OrderLoopBalance | app.py:52-79 | The three balances of the order loop hold together |
| Matcher.OrphanSums | app.py:80-87 | Orphan rows carry the left-over deposits in full and no purchase |
| Matcher.DepositsConserved | app.py:49-87 | The 통장입금 column adds up to the sum of all deposit groups |
| Matcher.PurchasesConserved | app.py:49-87 | The 총 구매금액 column adds up to the sum of all order groups |
| Matcher.RowCount | app.py:49-87 | There are as many rows as order groups plus deposit groups, less the deposits taken |
| Matcher.MatchConserves | app.py:49-87 | Both column sums and the row count |
| Matcher.Taken | app.py:66 | The number of orders that took a deposit is at most the number of orders |
| Report.Annotate | app.py:91 | 차이 is 통장입금 − 총 구매금액, and the other columns are carried over |
| Report.WithDifference | app.py:91 | The 차이 column adds no row and drops none |
| Report.WithDifferenceRows | app.py:91 | Row i of the table is matched row i with its 차이 |
| Report.DifferenceTotals | app.py:91 | Adding 차이 keeps both amount columns, and the 차이 column adds up to total deposits − total purchases |
| Report.TableRow | app.py:91-92 | Every matched row reaches the sorted table with its 차이 |
| Report.InsertFront | app.py:92 | A row whose 주문자 is at or below the first of a sorted table can go in front, and the table stays sorted |
| Report.InsertBehind | app.py:92 | A row whose 주문자 is above the first goes into the tail, and the table stays sorted with exactly that row added |
| Report.InsertByBuyer | app.py:92 | Inserting a row into a table sorted by 주문자 keeps it sorted and adds exactly that row |
| Report.SortByBuyer | app.py:92 | The sorted table is in non-decreasing 주문자 order and is a permutation of the input |
| Report.BuyerlessFirst | app.py:92 | In a table sorted by 주문자, only rows with an empty 주문자 come before a row with an empty 주문자 |
| Report.SortKeepsTotals | app.py:92 | Sorting leaves every column sum unchanged |
| Report.Filter | app.py:94-97 | A row selection keeps each row's multiplicity when the condition holds and drops it otherwise; `Report.FilterOne` and `Report.FilterAppend` fix the order of the kept rows |
| Report.FilterOne | app.py:94-97 | A single row is kept exactly when the condition holds for it |
| Report.FilterAppend | app.py:94-97 | Selecting from two tables in sequence selects from each in turn, so every sheet keeps the table's row order |
| Report.FilterSorted | app.py:94-97 | Selecting rows from a sorted table keeps it sorted |
| Report.FilterMembers | app.py:94-97 | A row is selected iff it is in the table and meets the condition |
| Report.IsB2B | app.py:94-95 | Definition of the "B2B" test: not both 주문자 and 입금자(사이트) empty; its properties are in `Report.ClassifyPartition` and `Report.RowOrigins` |
| Report.IsNonB2B | app.py:95 | Definition of the "B2B 이외" test: both 주문자 and 입금자(사이트) empty; its properties are in `Report.ClassifyPartition` |
| Report.PaidMore | app.py:96 | Definition of the over-paid test, 차이 > 0; its properties are in `Report.PaidSheets` |
| Report.PaidLess | app.py:97 | Definition of the under-paid test, 차이 < 0; its properties are in `Report.PaidSheets` |
| Report.Classify | app.py:94-97 | Definition of the four sheets; its properties are in `Report.ClassifyPartition`, `Report.PaidSheets`, `Report.ClassifySorted` and `Report.ClassifyTotals` |
| Report.ClassifyPartition | app.py:94-95 | "B2B" and "B2B 이외" split the table exactly: "B2B" holds the rows with an order-side name and "B2B 이외" the rest |
| Report.ClassifyTotals | app.py:94-95 | The two sheets together carry each column sum of the table |
| Report.PaidSheets | app.py:96-97 | The over-paid and under-paid sheets are disjoint parts of "B2B" with 차이 > 0 and 차이 < 0 respectively, so a 차이 of 0 is in neither |
| Report.ClassifySorted | app.py:94-97 | All four sheets of a sorted table are sorted |
| Report.RowOrigins | app.py:94-95 | An orphan deposit row is never "B2B"; an order row is "B2B" iff its group has a 주문자 or 입금자(사이트) |
| Style.SheetNamesDistinct | app.py:105-108 | The four sheet names are pairwise different |
| Style.RowEmphasis | app.py:118-120 | A row is skipped (no emphasis computed) exactly when its 차이 cell is empty; a row with 차이 0 is not skipped but gets no styling, as `Style.DifferenceCell` and `Style.BuyerCell` state |
| Style.SheetEmphasis | app.py:115-117 | Each data row of a sheet gets one emphasis |
| Style.DifferenceCell | app.py:128-133 | On every sheet the 차이 cell is yellow and bold iff 차이 > 0, red bold iff 차이 < 0, untouched iff 0 |
| Style.BuyerCell | app.py:122-126 | The 주문자 cell is bold only on the over-paid sheet with 차이 > 0, and red bold only on the under-paid sheet with 차이 < 0 |
| Style.PositiveRowsEmphasis | app.py:123-131 | On the over-paid sheet every row with 차이 > 0 gets a bold 주문자 and a yellow bold 차이 |
| Style.NegativeRowsEmphasis | app.py:125-133 | On the under-paid sheet every row with 차이 < 0 gets a red bold 주문자 and a red bold 차이 |
| Style.OverpaidEmphasis | app.py:123-131 | Every row of the over-paid sheet gets a bold 주문자 and a yellow bold 차이 |
| Style.UnderpaidEmphasis | app.py:125-133 | Every row of the under-paid sheet gets a red bold 주문자 and a red bold 차이 |
| Reconcile.OrderGroups | app.py:27-35 | Definition of the order groups; their properties are in `Aggregate.GroupSummarises` and `Normalize.OrderLines` |
| Reconcile.DepositGroups | app.py:40-46 | Definition of the deposit groups; their properties are in `Aggregate.GroupSummarises` and `Normalize.DepositLines` |
| Reconcile.Settle | app.py:27-97 | Definition of the settlement table and its sheets; its properties are in `Reconcile.SettleTotals`, `Reconcile.SettleRowCount`, `Reconcile.SettleSheets` and `Reconcile.OrphanDeposit` |
| Reconcile.NoRowsIffNoRecords | app.py:49-90 | The matcher emits no row exactly when neither upload has a data row |
| Reconcile.Reconcile | app.py:27-97 | With no data row in either upload the run fails and nothing is produced (computing 차이 at app.py:91 on a table without columns raises, and app.py:137-138 reports the error); otherwise the steps, with the matcher as a loop, yield the settlement |
| Reconcile.SettleTotals | app.py:27-92 | The table's 통장입금 column adds up to all deposits and its 총 구매금액 column to all orders, counting non-numbers as 0; its 차이 column adds up to the difference of the two |
| Reconcile.SettleRowCount | app.py:49-92 | The table has one row per order group plus one per deposit group no order took |
| Reconcile.SettleSheets | app.py:92-97 | The table and all four sheets are sorted; "B2B" and "B2B 이외" partition the table; the payment sheets are disjoint parts of "B2B" |
| Reconcile.SheetTotals | app.py:94-95 | "B2B" and "B2B 이외" together carry all deposits and all purchases |
| Reconcile.GreedyTakesFirstFit | app.py:56-68 | The order "가" takes the deposit "가나" first, so the order "가나" with the identical key stays unmatched |
| Reconcile.OrphanDeposit | app.py:79-95 | For any order groups and ascending deposit groups: a deposit group whose key is compatible with no order key gets a row with empty 주문자 and 입금자(사이트), purchase 0 and 차이 equal to its amount; it is in "B2B 이외", and only rows without a 주문자 precede it in the table |
| Reconcile.OrphanDepositExample | app.py:79-92 | The order "김" 300 and the deposit "박" 500 give the orphan row first, then the order row short by 300 |
| Reconcile.OrphanDepositSheets | app.py:94-97 | In that example table the unmatched order lands in "B2B" and the under-paid sheet; the orphan deposit lands in "B2B 이외" only |
| Scenarios.CleanPrefixKeys | app.py:58 | Clean names are their own keys; a name that begins another gives compatible keys |
| Scenarios.MatchCompatible | app.py:56-68 | One order row and one deposit row with compatible keys give one matched row |
| Scenarios.SettleCompatible | app.py:52-92 | That row, with both amounts and their 차이, is the whole table |
| Scenarios.MatchTwoOrders | app.py:31-68 | Two order rows under one key make one group, with the first row's names and the summed amount, which takes a compatible deposit |
| Scenarios.SettleNoDeposit | app.py:70-92 | An order with no deposit at all gets a row short of its whole amount |
| Scenarios.SettleNoOrder | app.py:79-92 | A deposit with no order at all gets an orphan row over by its whole amount |
| Scenarios.ExactPayment | app.py:52-97 | "kimminji" pays 10000 for 10000: one row with 차이 0, in "B2B" only |
| Scenarios.PartialName | app.py:58 | The site payer "leeho" takes the bank payer "leehojoon" |
| Scenarios.NoDeposit | app.py:70-97 | An order of 3000 without a deposit is 3000 short, in "B2B" and the under-paid sheet |
| Scenarios.NoOrder | app.py:79-97 | A deposit of 7000 without an order is an orphan row 7000 over, in "B2B 이외" only |
| Scenarios.SplitOrder | app.py:31-91 | Orders of 1000 and 2000 under "hong" meet a deposit of 3000 with 차이 0 |

## Left out

- The Streamlit page is left out: page setup, uploaders, the success and error messages, the table display and the download button (app.py:7-16, 99-100, 135). These are user interface.
- The catch-all `except` (app.py:137-138) is modelled only for the failure the core itself raises: with no data row in either upload, `Reconcile.Reconcile` returns None. Errors raised by reading, renaming or writing the spreadsheets belong to parts left out below.
- Reconcile.Settle: as a function it gives an empty settlement when both uploads have no data row, where the program fails at app.py:91; `Reconcile.Reconcile` is the member that reports that failure.
- Reading the spreadsheets and renaming their columns by position and header (app.py:19-25, 38-39) is left out. The model starts from order and deposit records with the named columns.
- Writing the workbook with openpyxl is left out (app.py:103-113, 135). So are the loop that mutates its cells (app.py:115-117) and the font and fill objects. `Style` models only which emphasis each cell receives.
- Amounts are whole numbers: a cell is a number, non-numeric, or missing.
  - Floating-point values and the parsing done by `pd.to_numeric` are not modelled.
  - Neither is the `float64` type of the sums.
- pandas' missing values are left out. A missing name turned into `"nan"` by `astype(str)`, and `first` skipping missing values, are library behaviour. The model's names are always strings.
- Report.SortByBuyer: specified by sortedness and permutation only. pandas' default sort is not stable, so the order among rows with equal 주문자 is not fixed by the program either.
- Matcher.FindDeposit: the inner loop is a method of its own, called once per order. In the program it is written inline. The same holds for Matcher.AddOrphans, the loop over the unused deposits.
- Style.RowEmphasis: the branch for an empty 차이 cell (app.py:119-120) is modelled. But every data row the program writes has a number there, so `SheetEmphasis` never takes that branch.
- Scenarios.SplitOrder: stated for the table before sorting and splitting into sheets. With a single row, sorting and splitting change nothing, as `Scenarios.SettleCompatible` shows for one order row.
