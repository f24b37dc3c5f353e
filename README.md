# Expense tracker ledger, in Dafny

A model of the expense ledger behind the single page of the expense tracker
(`app/page.tsx`). The page keeps an ordered list of expense records, newest
first, and three form fields (description, amount text, selected category).
Submitting the form prepends a record built from the fields and clears the
description and amount; the delete button of a row removes the records with
that row's id. From the list the page derives the running total and a
breakdown per category: for each of the six fixed categories (Food,
Transport, Shopping, Entertainment, Bills, Other, in that order) the sum of
the amounts of its records, keeping only the categories whose sum is
strictly positive.

The project has two modules:

- `Ledger` (`ledger.dfy`): the `Expense` record, the `Categories` constant,
  the order-preserving `Filter` that both deletion and the breakdown use,
  `Total` (the running total, a left fold of the amounts), `Deleted`
  (deleting by id), `Subtotal` and `Breakdown` (the per-category
  breakdown), and the lemmas about them.
- `Page` (`page.dfy`): the class `Home`, holding the ledger, the three form
  fields and `saved`, the copy of the ledger last written to the browser's
  storage. Its methods `Add` and `Delete` change that state, and three
  small methods stand for the form's `onChange` handlers. `DatePart` models
  taking the date out of an ISO timestamp with `split('T')[0]`.

Amounts are exact reals. `Add` receives the clock's id, the ISO timestamp and
the parsed amount as parameters. The parsed amount is an `Option<real>`, and
it must be present whenever the amount field is not empty.

Three facts about the code the model keeps:

- Deletion is a filter, so it removes every record carrying the id, not
  just one.
- Nothing in the code makes ids unique (they come from the clock), so no
  uniqueness invariant is claimed.
- Nothing in the code checks that an amount is non-negative (only the
  browser's `min="0"` does), so non-negativity appears only as a
  precondition of `BreakdownSumsToTotal`.

## Model

| member | source | states |
|---|---|---|
| `Ledger.Total` | app/page.tsx:54 | `totalExpenses`, the left fold of the amounts from 0: the empty ledger totals 0; TotalCons, TotalAppend, TotalPermutation and TotalNonNegative state the rest |
| `Ledger.ReduceShift` | app/page.tsx:54 | folding the amounts from any start value gives that value plus the total |
| `Ledger.TotalCons` | app/page.tsx:54 | the total of the empty ledger is 0, and putting a record in front adds its amount to the total |
| `Ledger.TotalAppend` | app/page.tsx:54 | the total of two ledgers joined together is the sum of their totals |
| `Ledger.TotalPermutation` | app/page.tsx:54 | two ledgers holding the same records in any order have the same total |
| `Ledger.TotalNonNegative` | app/page.tsx:54 | with no negative amount the total is not negative |
| `Ledger.Filter` | app/page.tsx:51-59 | the filtered list is no longer than the input and holds exactly the input's elements that pass the test |
| `Ledger.FilterAppend` | app/page.tsx:51 | filtering distributes over concatenation, so kept elements keep their relative order |
| `Ledger.FilterCount` | app/page.tsx:51 | a kept element keeps its number of occurrences; a dropped element has none |
| `Ledger.FilterKeepsAll` | app/page.tsx:51 | when every element passes the test, filtering returns the list unchanged |
| `Ledger.Deleted` | app/page.tsx:51 | the ledger after deleting an id is no longer than before and holds exactly the old records whose id differs |
| `Ledger.DeletedRemovesExactly` | app/page.tsx:50-52 | after deleting an id, a record is in the ledger iff it was before and carries another id; every record with that id is gone, and every other record keeps its number of occurrences |
| `Ledger.DeletedKeepsOrder` | app/page.tsx:50-52 | deleting from two joined ledgers is deleting from each and joining, so the survivors keep their relative order |
| `Ledger.DeletedAbsent` | app/page.tsx:50-52 | deleting an id that no record carries leaves the ledger unchanged |
| `Ledger.DeletedIdempotent` | app/page.tsx:50-52 | deleting the same id twice gives the same ledger as deleting it once |
| `Ledger.IndexOf` | app/page.tsx:14 | the position is at most the list's length, it is inside the list iff the category is in the list, and there the list holds that category |
| `Ledger.IndexOfAt` | app/page.tsx:14 | in a list without duplicates, the position of the category at position k is k |
| `Ledger.CategoriesDistinct` | app/page.tsx:14 | the six category labels are pairwise different |
| `Ledger.OfCategory` | app/page.tsx:58 | the records summed for a category are exactly the ledger's records of that category |
| `Ledger.Subtotal` | app/page.tsx:58 | a category's subtotal is not negative when no amount is, and is 0 when no record has that category |
| `Ledger.Subtotals` | app/page.tsx:56-58 | the mapped list has one entry per category, at the category's position, carrying that category's subtotal |
| `Ledger.SubtotalSelects` | app/page.tsx:58 | a category's subtotal is taken over exactly the records of that category, each with its number of occurrences |
| `Ledger.SubtotalCons` | app/page.tsx:58 | putting a record in front adds its amount to its own category's subtotal and nothing to any other |
| `Ledger.SubtotalsEntries` | app/page.tsx:56-58 | every mapped entry is about a listed category and carries its subtotal |
| `Ledger.SubtotalsOrdered` | app/page.tsx:56-58 | over a list without duplicates, the mapped entries follow the list's order |
| `Ledger.OrderedHeadTail` | app/page.tsx:56-59 | in an ordered entry list, the head's category comes before every later one, and the rest is ordered |
| `Ledger.OrderedCons` | app/page.tsx:56-59 | an entry whose category comes before all of an ordered list's categories can be put in front of it |
| `Ledger.PositiveSubtotalsComplete` | app/page.tsx:56-59 | every listed category with a strictly positive subtotal survives the positivity filter with its subtotal |
| `Ledger.FilterKeepsOrder` | app/page.tsx:59 | filtering an ordered list of entries leaves it ordered |
| `Ledger.Breakdown` | app/page.tsx:56-59 | `expensesByCategory`: at most six entries; each is one of the six categories carrying its subtotal, which is strictly positive; every category with a strictly positive subtotal is listed; the entries' categories stand in strictly increasing positions of the fixed list, so none repeats |
| `Ledger.SumPositiveOnly` | app/page.tsx:59 | dropping the entries that are not positive leaves the sum of non-negative entries unchanged |
| `Ledger.ShareNone` | app/page.tsx:58 | a record whose category is not listed adds nothing to the listed subtotals |
| `Ledger.ShareOnce` | app/page.tsx:58 | a record whose category is listed once adds exactly its amount to the listed subtotals |
| `Ledger.SumSubtotalsCons` | app/page.tsx:56-58 | putting a record in front adds its share to the sum of the subtotals |
| `Ledger.SumSubtotalsEmpty` | app/page.tsx:56-58 | the subtotals of the empty ledger add up to 0 |
| `Ledger.SumSubtotals` | app/page.tsx:54-58 | over a category list without duplicates that covers every record's category, the subtotals add up to the total |
| `Ledger.BreakdownSumsToTotal` | app/page.tsx:54-59 | with no negative amount and every record in one of the six categories, the breakdown's subtotals add up to the total |
| `Page.DatePart` | app/page.tsx:42 | the date is a prefix of the timestamp that holds no 'T' and stops at the first 'T' when there is one |
| `Page.DatePartOfTimestamp` | app/page.tsx:42 | splitting "date T time" at the first 'T' gives back the date |
| `Page.Home.constructor` | app/page.tsx:17-31 | on mount the ledger is the stored one when storage holds a snapshot and empty otherwise; the form is blank with Food selected; storage then holds the ledger |
| `Page.Home.EditDescription` | app/page.tsx:96 | the description field takes the typed text and nothing else changes |
| `Page.Home.EditAmount` | app/page.tsx:104 | the amount field takes the typed text and nothing else changes |
| `Page.Home.SelectCategory` | app/page.tsx:112 | the selected category becomes the picked one and nothing else changes |
| `Page.Home.Add` | app/page.tsx:33-48 | with an empty description or amount nothing changes; otherwise the ledger grows by one, with the new record (description, parsed amount, selected category, date of the timestamp) at the head and the old ledger as the tail, storage holds the new ledger, description and amount are cleared, the category stays, the total grows by the amount, and only the selected category's subtotal grows, by the amount |
| `Page.Home.Delete` | app/page.tsx:50-52 | the ledger becomes the old one without the records carrying the id, storage holds it, a record remains iff it was there and carries another id, and an absent id leaves the ledger unchanged |

## Left out

- Reading and writing the browser's storage and the JSON encoding (app/page.tsx:22-31) are I/O and a foreign serialiser. The field `saved` stands for the stored snapshot, and the constructor takes the decoded snapshot as an `Option`. A malformed snapshot is not modelled.
- `parseFloat` (app/page.tsx:40) is floating-point parsing. Its result is a parameter of `Add`, so text that parses to `NaN` is not modelled.
- JavaScript floating-point addition is not modelled. Amounts and sums are exact reals, so rounding in `reduce` and the `toFixed(2)` formatting (app/page.tsx:71, 81, 139) are not captured.
- `Date.now()` and `new Date()` (app/page.tsx:38, 42) read the clock. The id and the ISO timestamp are parameters of `Add`.
- React's re-rendering, the effect scheduling order on mount, `preventDefault`, the markup and the styles (app/page.tsx:3-4, 61-155) are user interface and are not modelled.
- The browser-side input constraints `required`, `min="0"` and `step` (app/page.tsx:98, 106-108) are enforced by the browser, not by the code, so `Add` accepts any parsed amount.
