# Expense tracker page: a Dafny model

The Expense Tracker is a single-page view over a remote record-keeping
service. The page keeps a local cache of expense records. It lets the user
add a record, delete one after confirming, and filter by category and by
date. It shows the filtered records, their total, and a "(Total in ...)" note
when a filter hides something.

This project models that page in two modules.

- `ExpenseViews` (`views.dfy`) holds the expense record and the three views
  the page recomputes on every render. The category list is `"All"` followed by
  the distinct categories in first-seen order. The filtered list applies a category
  filter and then a date filter. The total is the sum of the filtered amounts.
  All of these are functions, and their properties are lemmas. Being
  functions, they cannot alter the cache they read.
- `ExpenseApp` (`app.dfy`) holds the page's state slots as the fields of a
  class `ExpenseView`. The three handlers are methods on it. Each network call
  and the confirmation dialog become inputs to the method. Each method states
  the whole new state: what changes and what stays.

Amounts are whole paise (`int`), so the total has exact algebraic properties.
The draft amount stays a string, as in the form, because the page only checks
that it is non-empty.

## Where the expected behaviour and the code differ (the model follows the code)

- One would expect the category list to hold `"All"` exactly once. The code puts
  `"All"` in front of the deduplicated record categories without deduplicating
  it against them. So a record whose category is `"All"` makes it appear twice
  (`UniqueCategoriesAllCount`).
- One would expect a negative or unparseable amount to be refused, since a
  record's amount is a non-negative decimal. The code checks only that the
  amount string is non-empty (the number input has no `min`), so `"-5"` is
  sent. `"0"` passes too, as it should (`AddExpense`, and the `"-5"` and
  `"0"` cases in `Scenarios`). Parsing is out of the model.
- The note's text names the category filter even when only the date filter
  hides records. The model covers only when the note is shown, not its text.

## Model

| member | source | states |
|---|---|---|
| `ExpenseViews.Categories` | frontend/client/src/App.tsx:72 | one category per record, position by position, in cache order |
| `ExpenseViews.Distinct` | frontend/client/src/App.tsx:72 | the insertion-ordered set of a list is no longer than the list and holds only its elements (the full characterisation is `DistinctSpec`) |
| `ExpenseViews.UniqueCategories` | frontend/client/src/App.tsx:72 | the category list is never empty and starts with "All" |
| `ExpenseViews.DistinctSpec` | frontend/client/src/App.tsx:72 | the insertion-ordered set of the categories holds exactly the categories, none twice, ordered by first occurrence |
| `ExpenseViews.DistinctUnique` | frontend/client/src/App.tsx:72 | any list with those three properties equals that set's listing, so together the properties define it |
| `ExpenseViews.UniqueCategoriesMembership` | frontend/client/src/App.tsx:72 | "All" comes first; after it every record's category appears and only those appear |
| `ExpenseViews.UniqueCategoriesOrder` | frontend/client/src/App.tsx:72 | after "All", no category is listed twice, and the categories follow the order of their first occurrence in the cache |
| `ExpenseViews.UniqueCategoriesAllCount` | frontend/client/src/App.tsx:72 | "All" occurs twice if some record's category is "All" and once otherwise |
| `ExpenseViews.Holds` | frontend/client/src/App.tsx:76-77 | the category test "All" and the empty date test pass every record |
| `ExpenseViews.Kept` | frontend/client/src/App.tsx:76-77 | a record passes both tests iff (the category filter is "All" or equals its category) and (the date filter is empty or equals its date) |
| `ExpenseViews.Filter` | frontend/client/src/App.tsx:75-77 | a filter pass never lengthens the list |
| `ExpenseViews.FilterMembership` | frontend/client/src/App.tsx:75-77 | a record is in a filter's result iff it is in the input and passes the test |
| `ExpenseViews.FilterIsSubsequence` | frontend/client/src/App.tsx:75-77 | a filter's result is an order-preserving subsequence of its input |
| `ExpenseViews.FilterAppend` | frontend/client/src/App.tsx:75-77 | filtering a concatenation is concatenating the filtered parts |
| `ExpenseViews.FilterFilter` | frontend/client/src/App.tsx:75-77 | two chained filters equal one filter by the conjunction of their tests |
| `ExpenseViews.FilterKeepsAll` | frontend/client/src/App.tsx:75-77 | a filter keeps the length iff every record passes, and then it returns its input unchanged |
| `ExpenseViews.FilteredExpenses` | frontend/client/src/App.tsx:75-77 | the shown list is no longer than the cache, and a record is shown iff it is cached and passes both filters (`Kept`) |
| `ExpenseViews.FilteredExpensesSpec` | frontend/client/src/App.tsx:75-77 | the shown list is one pass over the cache with both conditions, and it keeps cache order |
| `ExpenseViews.FilteredUnfiltered` | frontend/client/src/App.tsx:75-77 | with filters "All" and "", the shown list is the whole cache |
| `ExpenseViews.Total` | frontend/client/src/App.tsx:80 | the sum from 0 of a list of non-negative amounts is non-negative |
| `ExpenseViews.FilteredTotal` | frontend/client/src/App.tsx:80 | the shown total is the sum over one pass of the cache with both filters |
| `ExpenseViews.TotalAppend` | frontend/client/src/App.tsx:80 | the total of a concatenation is the sum of the totals |
| `ExpenseViews.TotalSplit` | frontend/client/src/App.tsx:80 | the total of a list is the total a filter keeps plus the total it drops |
| `ExpenseViews.FilteredTotalExcluded` | frontend/client/src/App.tsx:80 | the shown total is the cache total minus the excluded records' total; it is 0 when nothing is shown |
| `ExpenseViews.FilteredTotalBounds` | frontend/client/src/App.tsx:80 | with non-negative amounts the shown total lies between 0 and the cache total |
| `ExpenseViews.ShowsTotalNote` | frontend/client/src/App.tsx:89 | the "(Total in ...)" note is shown iff some cached record fails a filter |
| `ExpenseApp.ExpenseView.constructor` | frontend/client/src/App.tsx:16-22 | initial slots: empty cache and draft, category "Food", not loading, filters "All" and "" |
| `ExpenseApp.ExpenseView.FetchExpenses` | frontend/client/src/App.tsx:29-36 | a successful fetch replaces the cache wholesale; a failed one leaves it; no other slot changes |
| `ExpenseApp.ExpenseView.AddExpense` | frontend/client/src/App.tsx:39-58 | the guard refuses exactly the drafts whose description or amount is the empty string (`DraftComplete`): those send nothing and change no state; any other draft, amount "0" included, is sent; success clears description and amount, keeps the category and reloads; failure keeps the draft and cache; loading ends false |
| `ExpenseApp.ExpenseView.DeleteExpense` | frontend/client/src/App.tsx:61-69 | without confirmation nothing is sent and nothing changes; a confirmed delete sends the id, and only a successful delete followed by a successful reload replaces the cache; no other slot changes |

`ExpenseApp.Scenarios` checks worked cases against these contracts: a
two-record cache filtered to "Food" through the page's filter slots, a
rejected submission, a successful one with its reload, failed submissions of
amounts "0" and "-5", and an unconfirmed deletion.

## Left out

- HTTP calls, URLs and response decoding (App.tsx:31, 45, 64) are network I/O. Each is replaced by an outcome flag and, for fetches, the returned records.
- The mount-time fetch (`useEffect`, App.tsx:24-26) and setter batching are React mechanics. The model has the constructor followed by `FetchExpenses`.
- All rendering (App.tsx:82-207) is out. This includes the inline `onChange` setters for the draft inputs and the filters, the date filter's Clear button, the "No expenses yet" message and the disabled submit button. The button is enabled when the `loading` field is false.
- `toFixed(2)` display rounding and `parseFloat` of the draft amount (App.tsx:47, 88, 187) are floating-point numerics. Amounts are whole paise instead.
- The `alert` and `confirm` dialogs and `console.error` logging (App.tsx:34, 41, 54-55, 62, 67) are UI. `confirm` is the `confirmed` input. `alert` on a rejected draft is the `Rejected` outcome.
- Reloads after an add or a delete are not awaited. Overlapping reloads completing out of order (App.tsx:52, 65) is asynchronous interleaving, so the model applies each reload at once, inside the handler that issues it.
- AddExpense: in the source, `loading` is already false when the un-awaited reload completes. The model applies the reload first and then clears `loading`, so that intermediate order is not captured. The final state is the same.
- backend/app.py is not part of this model. It is Flask routing and SQLAlchemy persistence over libraries not shown here.
