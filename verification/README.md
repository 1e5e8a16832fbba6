# Expense tracker core, modelled in Dafny

This project models the computational core of a personal-finance web app.
The app records expenses, splits bills between friends, tracks shared-group
balances, shows budgets and draws a dashboard. Everything here is pure logic:
data in, data out. The screens, browser APIs and storage are not modelled.

Modules, one per part of the app:

- `Common`: `Option`, `Result` and `SumOf`. `SumOf` is the `reduce((sum, x) => sum + f(x), 0)` every summary uses.
- `Money`: amounts are whole cents. `RoundDiv` is `toFixed(2)` applied to a ratio of cents: round to nearest, ties away from zero.
- `Types`: the records from `src/types/index.ts`.
- `SplitBill`: the "Split Bill" handler with its equal, custom and percentage strategies, and the participant-row editors.
- `Balances`: `calculateBalances`, the per-member balance of a group.
- `Categories`: the category colour and icon tables, and the chart label.
- `Aggregates`: `calculateCategoryTotals` and `groupExpensesByDate`.
- `Budgets`: budget progress, the over-budget test and the alert test.
- `AppReducer`: the application store's reducer.
- `Text`: JavaScript's `toLowerCase`, `includes`, `trim`, `split` and `join`.
- `ExpenseList`: the expense page's search, category filter and sort.
- `ExpenseForm`: the expense form's submit step and its tags field.
- `Dashboard`: the dashboard figures.

Modelling choices:

- Money is an integer number of cents.
  - A percentage in the split form is in hundredths of a percent, so 100% is `10000`.
  - Both steps are the form inputs' `step="0.01"`.
- JavaScript numbers that can become `NaN` or infinite are modelled with explicit datatypes:
  - `Balances.Num` is a finite balance or `NaN`. In the source, `undefined - x` gives `NaN`.
  - `Budgets.Ratio` is a finite value, `-Infinity` or `NaN`. These are the three results of a division by a zero budget.
- A date is abstracted to three fields: its timestamp, its month index (0 to 11, as `getMonth()` returns) and its `yyyy-MM-dd` day key.
- Sources of nondeterminism become parameters:
  - the current month (`new Date().getMonth()`);
  - the freshly generated id (`generateId()`).
- The split handler's two `alert` calls become the `Err` values `SharesMismatch` and `PercentagesMismatch`. Its silent early return becomes `InvalidTotal` or `InsufficientParticipants`.
- The reducer's `default:` branch is the action `Unrecognised`.
- Object maps keyed by id are Dafny `map`s. The category-totals object keeps its insertion order, so it is a list of pairs in first-seen order.

Behaviours the proofs establish:

- The equal split never hands out leftover cents. $100.00 split three ways gives $33.33 each, which adds up to $99.99 (`SplitBill.EqualSplitLosesACent`).
- The percentage check compares rounded money shares with the total, within one cent. When the percentages add up to 100%, the shares add up to the total within half a cent per participant. In exact cent arithmetic that always passes for two or three participants (`SplitBill.SmallPercentageAccepted`), but not for four or more. The program itself compares float sums, which can reject a drift of exactly one cent (see "## Left out"). $1.02 split four ways at 25% gives four shares of $0.26, which add up to $1.04, so the split is rejected (`SplitBill.FourWayPercentageRejected`). Likewise $3.00 split eight ways at 12.5% gives eight shares of $0.38, which add up to $3.04 (`SplitBill.EightWayPercentageRejected`).
- A participant whose id is not a group member ends up with a `NaN` balance (`Balances.UnknownIdIsNaN`). When every id is known and every expense's participant amounts add up to its amount, the balances add up to zero (`Balances.BalancesSumToZero`).
- The dashboard compares month indices only. Its "last month" for January is index -1, which no expense has, so in January the previous-month figure and the change figure are both 0 (`Dashboard.JanuaryHasNoLastMonth`).

Where the documentation and the code differ, the model follows the code:

- Split participant names are marked `required` in the form (src/components/Expenses/SplitBill.tsx:102). The handler itself does not check them: only that HTML attribute does, and it is outside the handler. So `SplitBill.Split` accepts empty names.
- `ExpenseForm.BuildExpense` always stores a description. It stores the empty string when the field is empty, so an edited expense with no description comes back with `Some("")`.

## Model

| member | source | states |
|---|---|---|
| SplitBill.Split | src/components/Expenses/SplitBill.tsx:34-58 | A missing or non-positive total is rejected first, then fewer than two participants. An accepted split keeps every participant's name, in order. Equal: every share is the total divided by the head count, rounded to the cent. Custom: accepted exactly when the shares add up to the total, and the rows are returned unchanged; otherwise the error carries the total and the actual sum. Percentage: accepted exactly when the rounded money shares add up to the total within one cent, each share being the rounded percentage of the total. |
| SplitBill.EqualShares | src/components/Expenses/SplitBill.tsx:39-41 | Keeps the row count and the names, and gives every row the same rounded share. |
| SplitBill.PercentageShares | src/components/Expenses/SplitBill.tsx:50 | Keeps the row count and the names, and turns each row's percentage into its rounded share of the total. |
| SplitBill.EqualSplitDrift | src/components/Expenses/SplitBill.tsx:39-41 | An equal split always succeeds. Its shares add up to the total within half a cent per participant. |
| SplitBill.EqualSplitLosesACent | src/components/Expenses/SplitBill.tsx:40 | $100.00 split three ways is accepted, and its shares add up to $99.99. |
| SplitBill.PercentageDrift | src/components/Expenses/SplitBill.tsx:49-55 | When the percentages add up to exactly 100%, the rounded money shares add up to the total within half a cent per participant. |
| SplitBill.SmallPercentageAccepted | src/components/Expenses/SplitBill.tsx:49-55 | In exact cent arithmetic, two or three participants whose percentages add up to 100% always have their percentage split accepted. |
| SplitBill.FourWayPercentageRejected | src/components/Expenses/SplitBill.tsx:49-55 | Four participants at 25% each (adding up to 100%) splitting $1.02 are rejected with the sum $1.04, so the acceptance above stops at three. |
| SplitBill.EightWayPercentageRejected | src/components/Expenses/SplitBill.tsx:49-55 | Eight participants at 12.5% each (adding up to 100%) splitting $3.00 are rejected with the sum $3.04. |
| SplitBill.PercentageSplit | src/components/Expenses/SplitBill.tsx:49-55 | Accepted exactly when the rounded money shares add up to the total within one cent. An accepted split keeps the names and gives each row its rounded percentage of the total. A rejection carries the total and the sum of the shares. |
| SplitBill.Submit | src/components/Expenses/SplitBill.tsx:45-57 | A rejected split leaves the form and the result on display as they were. An accepted split shows its breakdown. The total, rows and strategy never change. |
| SplitBill.ChangeParticipant | src/components/Expenses/SplitBill.tsx:19-24 | Only row `i` changes. A name edit replaces the name and keeps the share. A share edit stores the parsed number, or 0 when it does not parse, and keeps the name. |
| SplitBill.AddParticipant | src/components/Expenses/SplitBill.tsx:26-28 | Appends one blank row with share 0 and keeps the others. |
| SplitBill.RemoveParticipant | src/components/Expenses/SplitBill.tsx:30-32 | Drops exactly row `i` and keeps the rest in order. An index outside the rows changes nothing. |
| SplitBill.RemoveUndoesAdd | src/components/Expenses/SplitBill.tsx:26-32 | Removing the row just added restores the rows. |
| Money.RoundDiv | src/components/Expenses/SplitBill.tsx:40 | The result is within half a unit of the exact quotient. A tie goes away from zero. |
| Money.RoundDivUnique | src/components/Expenses/SplitBill.tsx:40 | Any integer meeting the rounding contract is the rounded value, so the contract determines the value completely. |
| Balances.Adjust | src/utils/helpers.ts:89-92 | `balances[id] ±= x` changes only `id`. It adds to a known finite balance, and a missing `id` becomes `NaN`. |
| Balances.Initial | src/utils/helpers.ts:78-83 | Every member id starts at 0, and there are no other keys. |
| Balances.CalculateBalances | src/utils/helpers.ts:77-97 | Every member has a balance, and it is a number: what the member paid for expenses with participants, minus the participant amounts they owe. This holds whatever non-member ids the expenses name. |
| Balances.BalanceKeys | src/utils/helpers.ts:77-97 | Every member has a balance. Any other key is an id that some expense with participants names as a participant or as its payer. |
| Balances.UntouchedMemberIsZero | src/utils/helpers.ts:81-94 | A member who neither pays for nor takes part in any expense with participants ends at exactly 0. |
| Balances.UnknownIdIsNaN | src/utils/helpers.ts:86-94 | A non-member named by an expense with participants ends with a `NaN` balance. |
| Balances.BalanceIsPaidMinusOwed | src/utils/helpers.ts:77-97 | For any group, each member's balance is what they paid for expenses with participants, minus the participant amounts they owe. Non-member ids elsewhere in the expenses do not affect it. This is an independent closed form. |
| Balances.SkipsExpensesWithoutParticipants | src/utils/helpers.ts:87 | An expense without a participant list leaves the balances unchanged, even for its payer. |
| Balances.BalancesSumToZero | src/utils/helpers.ts:77-97 | When every id is a member and every expense's participant amounts add up to its amount: the keys are exactly the member ids, every balance is finite, and the balances add up to zero. |
| Categories.ColorOfKey | src/utils/helpers.ts:34-47 | The result is always a `#rrggbb` colour. A known key gets its category's colour; any other key gets the `other` colour (see Left out for inherited property names). |
| Categories.IconOfKey | src/utils/helpers.ts:19-32 | The result is never empty. A known key gets its category's icon; any other key gets the `other` icon (see Left out for inherited property names). |
| Categories.KeyFindsOwnEntry | src/utils/helpers.ts:19-47 | Looking up a category's own key in the colour and icon tables finds that category's colour and icon. |
| Categories.ParseKeyRoundTrip | src/types/index.ts:60-69 | Reading a category back from its key gives that category. |
| Categories.Label | src/utils/helpers.ts:71 | The label is the key with its first letter in upper case, the rest unchanged. |
| Categories.LabelInjective | src/utils/helpers.ts:71 | Different categories get different chart labels. |
| Aggregates.AddToValues | src/utils/helpers.ts:66 | Adding an amount to a category raises that category's total by the amount, leaves the other totals as they were, and raises the grand total by the amount. |
| Aggregates.FoldTotalsCorrect | src/utils/helpers.ts:65-68 | The running totals keep one entry per category, cover exactly the categories seen, and hold for each category the sum of its expenses' amounts. |
| Aggregates.CategoryTotals | src/utils/helpers.ts:64-75 | One chart slice per category present, with no category twice. Each slice has its category's label, colour and total. The values of the returned slices add up to the sum of all amounts. |
| Aggregates.GroupByDate | src/utils/helpers.ts:53-62 | The buckets are exactly the days that occur. Each bucket holds that day's expenses in their original order. |
| Aggregates.OnDayContents | src/utils/helpers.ts:53-62 | A day's bucket contains an expense exactly when the input contains it with that day, and never holds more copies than the input. |
| Aggregates.EveryExpenseInOneBucket | src/utils/helpers.ts:53-62 | Every expense is in the bucket of its own day, as often as it is in the input, and in no other bucket. |
| Budgets.Progress | src/utils/helpers.ts:108-110 | A finite progress is never above 100. For a non-zero budget it is the spent percentage capped at 100. For a zero budget it is 100 when something was spent, `-Infinity` when the spending is negative, and `NaN` when nothing was spent. |
| Budgets.ProgressCapped | src/utils/helpers.ts:108-114 | For a positive budget, progress is exactly 100 when the spending reaches the budget. An over-budget budget shows 100. |
| Budgets.AlertIffThresholdReached | src/utils/helpers.ts:116-119 | For a positive budget, with the percentage computed exactly, the alert shows exactly when the threshold is at most 100 and the spending reaches that percentage of the budget. |
| Budgets.OverBudgetAlerts | src/utils/helpers.ts:112-119 | An over-budget positive budget always alerts when its threshold is at most 100. |
| Budgets.OverBudgetShowsFullBar | src/utils/helpers.ts:108-114 | Whenever the budget is not negative, being over budget means the progress is exactly 100. This includes a zero budget with anything spent. |
| Budgets.ZeroBudgetAlert | src/utils/helpers.ts:108-119 | A zero budget alerts exactly when something was spent and the threshold is at most 100. Nothing spent gives `NaN`, which never alerts. |
| AppReducer.Reduce | src/context/AppContext.tsx:55-102 | Each field keeps its value unless the action writes it. Only SET_USER writes the user. Only the four expense actions write the expenses, and only the four group actions write the groups. Each other SET action writes only its own field. |
| AppReducer.UnrecognisedIsIdentity | src/context/AppContext.tsx:99-100 | An action the reducer does not know returns the state unchanged. |
| AppReducer.ReplaceById | src/context/AppContext.tsx:64-66 | Same length. Exactly the entries with the payload's id become the payload; the others are unchanged, in place. |
| AppReducer.RemoveById | src/context/AppContext.tsx:71 | No remaining entry has the id. Nothing is added or duplicated. |
| AppReducer.RemoveByIdKeeps | src/context/AppContext.tsx:71 | Every entry with another id is kept. |
| AppReducer.RemoveByIdAppend | src/context/AppContext.tsx:71 | Removing from a concatenation removes from each part, so the kept entries stay in order. |
| AppReducer.RemoveByIdIdempotent | src/context/AppContext.tsx:68-72 | Removing an id twice is the same as removing it once. |
| AppReducer.AddExpenseAppends | src/context/AppContext.tsx:59-60 | ADD_EXPENSE puts the payload last and keeps the earlier entries. |
| AppReducer.UpdateExpenseReplaces | src/context/AppContext.tsx:61-67 | UPDATE_EXPENSE replaces in place exactly the entries with the payload's id. When no entry has that id, the state is unchanged. |
| AppReducer.DeleteExpenseFilters | src/context/AppContext.tsx:68-72 | After DELETE_EXPENSE, an expense is listed exactly when it was listed before and has a different id. No expense is listed more often than before. |
| AppReducer.DeleteExpenseIdempotent | src/context/AppContext.tsx:68-72 | Deleting an expense id twice gives the same state as deleting it once. |
| AppReducer.DeleteAbsentExpense | src/context/AppContext.tsx:68-72 | Deleting an id that no expense has leaves the state unchanged. |
| AppReducer.AddGroupAppends | src/context/AppContext.tsx:75-76 | ADD_GROUP puts the payload last and keeps the earlier groups. |
| AppReducer.UpdateGroupReplaces | src/context/AppContext.tsx:77-83 | UPDATE_GROUP replaces in place exactly the groups with the payload's id. When no group has that id, the state is unchanged. |
| AppReducer.DeleteGroupFilters | src/context/AppContext.tsx:84-88 | After DELETE_GROUP, a group is listed exactly when it was listed before and has a different id. No group is listed more often than before. |
| AppReducer.DeleteGroupIdempotent | src/context/AppContext.tsx:84-88 | Deleting a group id twice gives the same state as deleting it once. |
| AppReducer.DeleteAbsentGroup | src/context/AppContext.tsx:84-88 | Deleting an id that no group has leaves the state unchanged. |
| AppReducer.SetDataActionsStore | src/context/AppContext.tsx:73-94 | SET_EXPENSES, SET_GROUPS, SET_BUDGETS and SET_INSIGHTS store their payload as given. |
| AppReducer.SetSessionActionsStore | src/context/AppContext.tsx:57-98 | SET_USER, SET_LOADING and SET_ERROR store their payload as given. |
| Text.Lower | src/components/Expenses/ExpenseList.tsx:25-26 | Same length. Each upper-case ASCII letter becomes its lower-case letter, and every other character is kept. |
| Text.Includes | src/components/Expenses/ExpenseList.tsx:25-26 | True exactly when the term occurs as a contiguous piece of the text at some position. |
| Text.Trim | src/components/Expenses/ExpenseForm.tsx:96 | The result has no white space at either end. |
| Text.TrimPiece | src/components/Expenses/ExpenseForm.tsx:96 | The trimmed string is a contiguous piece of the input. Everything dropped before and after that piece is white space. |
| Text.TrimKeepsOut | src/components/Expenses/ExpenseForm.tsx:96 | Trimming never introduces a character that the input lacks. |
| Text.Split | src/components/Expenses/ExpenseForm.tsx:96 | There is always at least one piece, and no piece contains the separator. |
| Text.JoinSplit | src/components/Expenses/ExpenseForm.tsx:96 | Joining the pieces back with the separator gives the original string. |
| Text.SplitConcat | src/components/Expenses/ExpenseForm.tsx:96 | Splitting `a + sep + b` gives the pieces of `a` followed by the pieces of `b`. |
| ExpenseList.SearchFilter | src/components/Expenses/ExpenseList.tsx:24-27 | Keeps each expense whose title or description contains the term, ignoring case, with all its copies, and drops every other expense. |
| ExpenseList.CategoryStep | src/components/Expenses/ExpenseList.tsx:28-30 | Keeps each expense in the chosen category (or every expense for "all"), with all its copies, and drops the rest. |
| ExpenseList.Insert | src/components/Expenses/ExpenseList.tsx:31-36 | Inserting into a list sorted newest or largest first keeps it sorted, and adds exactly the one element. |
| ExpenseList.Sort | src/components/Expenses/ExpenseList.tsx:31-36 | The result is a permutation of the input, ordered newest first (by date) or largest first (by amount). |
| ExpenseList.FilteredExpenses | src/components/Expenses/ExpenseList.tsx:23-36 | The list is sorted by the chosen key. Each expense appears as often as in the input when it matches both the search and the category, and not at all otherwise. |
| ExpenseList.ListedExpensesMatch | src/components/Expenses/ExpenseList.tsx:23-36 | Every listed expense matches the search and the category, and comes from the input. |
| ExpenseList.EmptySearchListsAll | src/components/Expenses/ExpenseList.tsx:23-36 | An empty search with "all" categories lists a permutation of every expense. |
| ExpenseForm.Clean | src/components/Expenses/ExpenseForm.tsx:96 | From comma-free pieces it produces at most as many tags, each non-empty, trimmed and comma-free. |
| ExpenseForm.CleanAppend | src/components/Expenses/ExpenseForm.tsx:96 | Cleaning a list of pieces cleans each part separately and keeps their order. |
| ExpenseForm.ParseTags | src/components/Expenses/ExpenseForm.tsx:96 | Every parsed tag is non-empty, has no surrounding white space and contains no comma. |
| ExpenseForm.ParseTagsConcat | src/components/Expenses/ExpenseForm.tsx:96 | Tags keep the order of the field: the tags of `a,b` are the tags of `a` followed by the tags of `b`. |
| ExpenseForm.ParseTagsPiece | src/components/Expenses/ExpenseForm.tsx:96 | A field without a comma gives its trimmed text as the one tag, or no tag when only white space is left. With the previous row, this fixes the tags of every field. |
| ExpenseForm.ParseTagsLeadingSpace | src/components/Expenses/ExpenseForm.tsx:96 | A leading space in the field changes no tag. |
| ExpenseForm.InitialTags | src/components/Expenses/ExpenseForm.tsx:40 | A new expense starts with an empty field. An edited expense's field parses back to its tags when they are well formed. |
| ExpenseForm.TagsRoundTrip | src/components/Expenses/ExpenseForm.tsx:40 | Joining well-formed tags with ", " (the field's initial value when editing), then parsing the field on submit, gives back the same tags in the same order. |
| ExpenseForm.BuildExpense | src/components/Expenses/ExpenseForm.tsx:86-102 | Keeps the edited expense's id when it has a non-empty one, and otherwise uses the fresh id. The user id is always "1". The tags are the parse of the tags field, so they are well formed. The form fields are copied. Receipt, group, split type and participants are absent. |
| ExpenseForm.EditKeepsIdAndTags | src/components/Expenses/ExpenseForm.tsx:89-98 | Saving an edited expense whose tags field was left as opened keeps its id and its tags. |
| Dashboard.TotalExpenses | src/components/Dashboard/Dashboard.tsx:25 | The total of all amounts equals the twelve month sums added up. |
| Dashboard.MonthExpenses | src/components/Dashboard/Dashboard.tsx:26-30 | Holds exactly the expenses whose month index equals the given one (any year), with all their copies. |
| Dashboard.ThisMonth | src/components/Dashboard/Dashboard.tsx:26-30 | The sum of the amounts of exactly the expenses in the current month index. |
| Dashboard.LastMonth | src/components/Dashboard/Dashboard.tsx:32-36 | The sum of the amounts of exactly the expenses in the month index one below the current one. It is 0 in January. |
| Dashboard.MonthSumIsFilteredSum | src/components/Dashboard/Dashboard.tsx:26-36 | The one-pass month sum equals filtering by month index and then summing the amounts. |
| Dashboard.MonthSumOutOfRange | src/components/Dashboard/Dashboard.tsx:32-36 | A month index outside 0 to 11 has a sum of 0. |
| Dashboard.JanuaryHasNoLastMonth | src/components/Dashboard/Dashboard.tsx:32-40 | When the current month is January, the previous-month sum is 0 and so is the change figure. |
| Dashboard.MonthlyChange | src/components/Dashboard/Dashboard.tsx:38-40 | 0 when last month's sum is not positive. Otherwise it is the relative change in tenths of a percent, within half a unit, with a tie rounded away from zero as `toFixed(1)` does. |
| Dashboard.ChangeSign | src/components/Dashboard/Dashboard.tsx:38-40 | A positive change means this month exceeds last month, and a negative one means it falls below. Equal months give 0. |
| Dashboard.TotalCardAgreesWithThisMonthCard | src/components/Dashboard/Dashboard.tsx:61-69 | When the "Total Expenses" card flags its change as bad news, the "This Month" card does too. |
| Dashboard.MonthsPartitionTotal | src/components/Dashboard/Dashboard.tsx:25-36 | The twelve month sums add up to the total of all expenses. |
| Dashboard.ActiveGroups | src/components/Dashboard/Dashboard.tsx:42-43 | The active groups never outnumber the groups. All groups are active exactly when every group has an expense, and none is active exactly when every group is empty. |
| Dashboard.ActiveGroupsCount | src/components/Dashboard/Dashboard.tsx:43 | The figure is the number of positions holding a group with at least one expense. |
| Dashboard.BudgetBars | src/components/Dashboard/Dashboard.tsx:105-116 | One bar per budget, in order. Each bar's width is the budget's progress, never above 100. |
| Dashboard.TotalOfFullList | src/components/Dashboard/Dashboard.tsx:25 | The total is the same for the expense page's full list in any sort order. |

## Left out

- Floating point. Amounts are whole cents and percentages are hundredths of a percent. `parseFloat`/`toFixed` rounding of binary fractions, and comparing float sums exactly (the custom split's `sum !== amount`), are modelled as exact integer arithmetic. So are the percentage split's tolerance test `Math.abs(sum - amount) > 0.01`, the budget division `(spent / amount) * 100` and the dashboard's `toFixed(1)`; the member lines below say where that differs.
- Text.Lower: lower-cases ASCII letters only. JavaScript's full Unicode case mapping is not modelled.
- ExpenseList.Sort: the result is proved ordered and a permutation, but not stable. The sort is an insertion sort that is stable; stability is not stated.
- Aggregates.GroupByDate: the result is a `map`, so the insertion order of the day keys in the JavaScript object is not modelled. The order inside each bucket is.
- Date handling is abstract: `format(date, 'yyyy-MM-dd')`, `getMonth()`, `getTime()` and the form's ISO round trip of the date. An expense's month index, day key and timestamp are given fields.
- Parsing of the form's amount (`parseFloat`, including `NaN` for text that does not parse). The split form's total and share fields arrive already parsed, as `Option`s.
- `generateId`, `new Date()`, `alert`, speech recognition, `localStorage` and every rendering or formatting function (`formatCurrency`, `formatDate`). Ids and the current month are parameters.
- SplitBill.SmallPercentageAccepted: holds in exact cent arithmetic only. The program tests `Math.abs(sum - amount) > 0.01` on doubles (src/components/Expenses/SplitBill.tsx:52), and a drift of exactly one cent can land above the double `0.01`. $0.13 at 50%/50% gives shares 0.07 + 0.07, whose difference from 0.13 is 0.010000000000000009 in doubles, so the program rejects a split the model accepts ($1.01 at 50%/50% is another).
- Budgets.AlertIffThresholdReached: the boundary `spent * 100 == threshold * amount` is decided exactly. The program divides in doubles (src/utils/helpers.ts:108-110), so $0.69 spent of $0.92 with a 75% threshold gives 74.99999999999999 and no alert, while the model alerts.
- Dashboard.MonthlyChange: a change between -0.05% and 0 is shown by `toFixed(1)` as "-0.0", while the integer model gives 0. The card's change type is the same either way, since `parseFloat("-0.0") > 0` is false (src/components/Dashboard/Dashboard.tsx:61).
- SplitBill.ChangeParticipant: requires an index inside the rows. The handler would throw on any other index, and the form only passes the index of a row it shows. The handler also mutates the shared row object in place; the model returns a new list.
- Balances: JavaScript object keys that clash with inherited properties such as `toString` are not modelled. Ids are plain map keys.
- Categories.ColorOfKey: a key naming an inherited `Object.prototype` property (`toString`, `constructor`, `__proto__`) finds that function or object in the JavaScript table, which is truthy, so `getCategoryColor` returns it instead of the `other` colour. The model gives such keys the `other` colour. Category values are typed as the nine keys, so only an untyped caller can pass one.
- Categories.IconOfKey: the same holds for `getCategoryIcon`. The model gives inherited property names the `other` icon.
- Components other than the ones above (the recent-expenses list, insights panel, navigation, the spending chart's rendering and the mock data) are not part of this model.
