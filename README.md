# Expense ledger model

A Dafny model of the expense ledger behind the console menu of the ExpenseTracker program (`Program.cs`). The ledger state is `UserData`: the list of `Expense` records in insertion order, the `NextId` counter and the `MonthlyBudget`. Four menu actions change it in place: add, update, delete and set budget. Loading at start-up replaces it. The read-only views are the filter menu with its date-descending listing and total, the budget status line, and the monthly summary.

How the model is laid out:

- `Records` holds the data: `Expense`, `UserData`, the fresh `UserData` and `Sum`.
- `Operations` states each mutation as a function from the old `UserData` to the new one. It also holds the id invariant and whole sessions of menu actions.
- `Store.Ledger` is the program's static `data` as a class. Each of its methods updates the fields in place and is proved to leave exactly the state the `Operations` function describes.
- `Queries` models `FilterExpenses` and `DisplayBudgetStatus`.
- `Summary` models `GenerateSummary`.
- `Display` models the column truncation of `DisplayResults`.
- `Dates`, `Text`, `Seqs` and `Wrappers` model the parts of .NET and LINQ that the ledger uses.

How the source's inputs appear in the model:

- A `Console.ReadLine()` answer is an `Option<string>`. `None` is a null read at the end of input.
- The outcome of `int`/`decimal`/`DateTime.TryParse` is an `Option` of the parsed value.
- `DateTime.Now` is a `now` or `today` parameter.
- The filter menu's choice is a `FilterChoice`. The answer "1" and any unrecognised answer both mean `ShowAll`, because the `switch` has no filtering case for them.
- Amounts (`decimal`) are `real`.
- A `DateTime` is a record (year, month, day, time of day). It is compared chronologically as a whole timestamp, and only its year and month are projected. A failed `TryParse` leaves `DateTime.MinValue` (0001-01-01 00:00), as the out-parameter does.

Points where the code's behaviour is easy to misstate:

- Dates are full timestamps, not calendar days. An expense added without a date carries the time of day of `DateTime.Now`, and the date-range filter compares whole timestamps.
- One might expect that, for a minimum `m >= 0`, the total of the expenses of at least `m` never exceeds the grand total. That holds only when no amount is negative, and the code accepts amounts of any sign. `MinAmountTotalBounded` proves the claim under that condition, and `MinAmountTotalCanExceed` gives a two-expense ledger where the filtered total is larger.
- `Program.cs` has no "expensive" filter, top-N listing, group-by-category view or stand-alone find; the only lookup is the one inside `UpdateExpense`.

## Model

| member | source | states |
|---|---|---|
| `Operations.AddExpense` | Program.cs:100-127 | An unparsed amount leaves the state unchanged. Otherwise exactly one expense is appended and all earlier entries are kept. It gets the old `NextId` as its id and the parsed amount. `NextId` grows by exactly 1 and the budget is unchanged. A null description becomes "Unnamed". A null, empty or whitespace category answer becomes "General"; any other answer is kept as typed, so the category is never blank. The date is `now` when the date answer was blank or did not parse, and the parsed date otherwise. |
| `Operations.FindById` | Program.cs:219 | Returns the position of the first expense carrying the id. No expense before that position carries it. None means that no expense carries it. |
| `Operations.Patch` | Program.cs:222-233 | Each field is decided on its own. A non-blank description or category replaces the old value, and a blank or null one keeps it. A parsed amount replaces the old amount, and an unparsed one keeps it. `Id` and `Date` are never changed, so an all-blank patch with no parsed amount leaves the expense identical. |
| `Operations.UpdateExpense` | Program.cs:214-237 | An unparsed id gives `InvalidId`. `NotFound` is returned exactly when no expense has the id. Both leave the state identical. Otherwise only the first expense with that id is replaced, by its patch. Every other position, the list length, `NextId` and the budget are unchanged. |
| `Operations.DeleteExpense` | Program.cs:239-248 | With a parsed id, every expense without that id remains, as many times as it occurred, and none with it. The reported count is the number of expenses that carried it, and the new length plus the count is the old length. An unparsed id removes nothing. `NextId` and the budget never change. |
| `Operations.SetBudget` | Program.cs:265-274 | A parsed limit of any sign becomes the budget, and the expenses and `NextId` are kept. An unparsed limit changes nothing. |
| `Operations.LoadData` | Program.cs:291-305 | A missing file leaves the current state as it is; at start-up that is the fresh `UserData`. An unreadable file, or a document that deserializes to null, gives the fresh `UserData`. Otherwise the stored state is used as it is. The warning is shown exactly for an unreadable file. |
| `Operations.AddThenFind` | Program.cs:120-127 | When ids are valid, looking up the id just handed out finds the new expense, at the end of the list. |
| `Operations.UpdateWithBlankPatchChangesNothing` | Program.cs:222-233 | If every answer is blank or unparseable, the update leaves the whole state unchanged. |
| `Operations.DeleteReportsRemoval` | Program.cs:244-245 | "Deleted." is reported exactly when some expense carried the id. A missing id leaves the state identical. The remaining expenses keep their relative order, as a subsequence of the old list. |
| `Operations.DeleteRemovesAtMostOne` | Program.cs:244 | When ids are valid, a delete removes at most one expense. |
| `Operations.DefaultIdsValid` | Program.cs:26-28 | The fresh `UserData` satisfies the id invariant: `NextId >= 1`, every id is between 1 and `NextId - 1`, and ids are pairwise distinct. |
| `Operations.AddPreservesIds` | Program.cs:122 | Add preserves the id invariant. |
| `Operations.UpdatePreservesIds` | Program.cs:219-233 | Update preserves the id invariant. |
| `Operations.DeletePreservesIds` | Program.cs:244 | Delete preserves the id invariant. |
| `Operations.SetBudgetPreservesIds` | Program.cs:270 | Set budget preserves the id invariant. |
| `Operations.RunPreservesIds` | Program.cs:62-71 | Any sequence of add, update, delete and set-budget actions keeps the id invariant. |
| `Operations.SessionKeepsIdsValid` | Program.cs:26-28 | Every state reached from the fresh `UserData` has distinct ids, all below `NextId`. |
| `Operations.RunCountsAdds` | Program.cs:122 | After any sequence of actions, `NextId` has grown by exactly the number of adds whose amount parsed. Deletes in between do not change this, so no id is handed out twice. |
| `Store.Ledger.constructor` | Program.cs:24-29 | A new ledger has no expenses, `NextId` 1 and budget 0, and satisfies the id invariant. |
| `Store.Ledger.LoadData` | Program.cs:291-305 | Leaves the state alone for a missing file and otherwise replaces it, exactly as `Operations.LoadData` of the old state gives. |
| `Store.Ledger.AddExpense` | Program.cs:100-133 | Updates the fields in place to exactly `Operations.AddExpense` of the old state. It reports success exactly when the amount parsed, and it keeps the id invariant. |
| `Store.Ledger.UpdateExpense` | Program.cs:214-237 | Assigns the found expense's fields in place. The new state and the outcome are exactly `Operations.UpdateExpense` of the old state, and the id invariant is kept. |
| `Store.Ledger.DeleteExpense` | Program.cs:239-248 | Performs `RemoveAll` in place, giving exactly `Operations.DeleteExpense` of the old state. The count is positive exactly when some old expense had the id, and the id invariant is kept. |
| `Store.Ledger.SetBudget` | Program.cs:265-274 | Gives exactly `Operations.SetBudget` of the old state and keeps the id invariant. |
| `Seqs.Where` | Program.cs:155 | LINQ `Where`: the result is no longer than the input, and every element of the result is an input element satisfying the predicate. |
| `Seqs.WhereCount` | Program.cs:146-173 | A filter keeps every satisfying element exactly as often as it occurs, and no other element. |
| `Seqs.WhereIsSubsequence` | Program.cs:146-173 | A filter keeps the relative order of the elements it keeps. |
| `Dates.AtOrBeforeIsTotalOrder` | Program.cs:162 | `DateTime` comparison is a total order: total, antisymmetric and transitive. |
| `Queries.SortByDateDesc` | Program.cs:176 | The result is a permutation of the input and is sorted most recent first. |
| `Queries.SortByDateDescStable` | Program.cs:176 | The sort is stable: expenses with equal dates keep their original relative order. |
| `Queries.FilterExpensesSpec` | Program.cs:135-179 | The listing holds exactly the expenses that match the chosen filter, each as often as in the ledger. It is sorted most recent first, and equal dates keep ledger order. |
| `Queries.CategoryFilter` | Program.cs:150-156 | The category filter keeps exactly the expenses whose lower-cased category equals the lower-cased answer. A null answer counts as the empty string. |
| `Queries.DateRangeFilter` | Program.cs:157-163 | The date filter keeps exactly the expenses with `start <= Date <= end`, both bounds inclusive. An unparsed bound is `DateTime.MinValue`. With an unparsed end bound, the only valid dates that pass are exactly `MinValue`. |
| `Queries.MinAmountFilter` | Program.cs:164-168 | The amount filter keeps exactly the expenses with `Amount >= min`. An unparsed minimum is 0. |
| `Queries.KeywordFilter` | Program.cs:169-173 | The keyword filter keeps exactly the expenses whose lower-cased description contains the lower-cased keyword. |
| `Queries.EmptyKeywordListsAll` | Program.cs:169-173 | A null or empty keyword lists the same expenses as "Show All". |
| `Queries.FilterTotal` | Program.cs:207 | The TOTAL line equals the sum of the amounts of the matching expenses, whatever their listed order. |
| `Records.SumOfPermutation` | Program.cs:207 | `Sum` does not depend on the order of the expenses. |
| `Queries.MinAmountTotalBounded` | Program.cs:164-168 | If no amount is negative and the minimum is not negative, the filtered total is at most the grand total. |
| `Queries.MinAmountTotalCanExceed` | Program.cs:164-168 | With a negative amount present, the filtered total can exceed the grand total. |
| `Queries.BudgetStatus` | Program.cs:80-98 | No line is shown unless the budget is above 0. Spent is the total for `today`'s year and month, and percent × budget = 100 × spent. The status is Red exactly when spent > budget. It is Yellow exactly when spent ≤ budget and spent > 80% of the budget. It is Green exactly when spent ≤ 80% of the budget. |
| `Queries.PercentAbove80` | Program.cs:88-93 | For a positive budget, `spent / budget * 100 > 80` holds exactly when 5 × spent > 4 × budget. |
| `Summary.AddToGroups` | Program.cs:253-255 | Filing an expense keeps the group keys strictly descending by (year, month). The new key set is the old one plus the expense's month. |
| `Summary.AddToGroupsMembers` | Program.cs:254 | Filing an expense appends it to its own month's members and leaves every other month unchanged. |
| `Summary.AddToGroupsTotal` | Program.cs:260 | Filing an expense raises the sum of the group totals by its amount. |
| `Summary.MonthlySummary` | Program.cs:250-263 | Groups are listed in strictly descending (year, month) order and none is empty. The members under each month are exactly that month's expenses, in ledger order. The group totals add up to the sum of all amounts. |
| `Summary.SummaryGroups` | Program.cs:253-260 | Each listed group holds exactly the expenses of its month, and every month that has an expense gets a line. |
| `Summary.CurrentMonthMatchesSummary` | Program.cs:84-86 | The budget line's spent figure equals the summary's total for the current month, or 0 when that month has no line. |
| `Display.TruncateDescription` | Program.cs:199 | The description cell is at most 25 characters. It is the description itself exactly when that fits. Otherwise it is the first 22 characters followed by "...". |
| `Display.TruncateCategory` | Program.cs:200 | The category cell is at most 12 characters. It is the category itself exactly when that fits. Otherwise it is the first 10 characters followed by "..". |

## Left out

- The menu loop, prompts, `Console.Clear`/`ReadKey` and the colours are terminal side effects, so they are not modelled. This covers the red rows for amounts over 100 and the list of available categories. The budget colour is returned as a `Status` value.
- `SaveData` and JSON serialization are left out. `System.Text.Json` and `File` are foreign library calls. Loading takes the file's outcome as a `StoredFile` parameter.
- `decimal` is modelled as an exact `real`. Its 28-digit precision, overflow and the rounding of the percentage division are not modelled.
- `Operations.AddExpense`: `NextId` is an unbounded integer. The 32-bit wrap-around of `NextId++` at `int.MaxValue` is not modelled, and a parsed id is any integer.
- `Text.ToLower` only folds ASCII letters. `ToLower` in .NET is culture-dependent and covers all of Unicode.
- String lengths count Unicode scalar values. C# `Length` counts UTF-16 code units, so a truncated cell can differ for text outside the Basic Multilingual Plane.
- `TryParse` itself, with its culture-dependent formats, is not modelled. Only its outcome is an input.
- Month names, currency and format strings from `CultureInfo` are formatting only.
- `Store.Ledger.UpdateExpense`: expenses are values, not shared objects. Assigning fields of the found `Expense` is modelled as replacing that list element. This is the same because no other reference to the object outlives the call.
- The id invariant is proved for sessions that start from the fresh `UserData`. A loaded file is used as it is and is not checked against the invariant, as in the source.
