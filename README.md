# TrackExpenses ledger engine in Dafny

A model of the ledger core of TrackExpenses, a small multi-user personal
finance tracker, together with proofs of what that core promises.

- **A transaction** (`Transactions`) is a five-field record: date, description, amount, type and category.
  - It has a dictionary encoding (`ToDict`/`FromDict`) and a one-line rendering (`Render`).
- **A user's ledger** (`Users.User`) is a list of transactions held in memory and written through to that user's data file after every addition.
  - `AddTransaction` coerces the sign of the amount from the type: expenses are stored negative, income positive.
  - Queries filter on inclusive date bounds and on a type compared case-insensitively, then sort newest first (`Ledger.Query`).
  - Balance and per-category summaries add the amounts up (`Ledger.BalanceOf`, `Users.User.GetCategorySummary`).
- **The tracker** (`Tracker.MoneyTracker`) holds a registry of users seeded with "Father" and "Self", plus the currently selected user.
  - It adds users, selects one by menu number, validates a new transaction before handing it to the user, and builds the monthly report over a month window.
- **Persistence** (`Persistence`) is a map from file name to file content. `Disk` holds that map.
  - Saving writes a record holding the user's name and every encoded transaction.
  - Loading decodes the record back. A missing file, one that does not parse, one without a "transactions" key and one with an entry that fails to decode all load as the empty list.

Modelling choices:
- Amounts are whole numbers of cents (`int`).
- Strings are `seq<char>`. Python's `str` ordering is `Text.LexLe`, which compares code points left to right; it is proved reflexive, total, antisymmetric and transitive.
- `str.lower()` and `str.strip()` are modelled on ASCII.
- `sorted(..., reverse=True)` is a stable insertion sort. It is specified independently:
  - the result is ordered newest first;
  - it holds the same entries equally often (a permutation);
  - entries of one date keep their original order (stability).

Behaviour the model keeps from the code exactly as written:
- The type string is stored exactly as passed; the model never normalises it.
- An unrecognised type leaves the amount untouched.
- The monthly window's end bound is the first day of the *next* month. The date filter is inclusive, so that day is counted in the report of the month before (`Tracker.NextMonthFirstIsCounted`).
- For December of year 9999 the end bound is "10000-01-01". It sorts before the start, so that window is empty (`Tracker.LastDecemberIsEmpty`).
- The year is `int(input())` and may be negative. December of a year from -999 to -2 has an empty window as well: "-002-12-01" sorts after "-001-01-01" (`Tracker.NegativeDecemberIsEmpty`).
- A zero amount is counted in the category summary but adds to neither income nor expenses.
- `from_dict` gives a missing category the default "General" (transaction.py:47), and the model follows the code.

Layout:

| file | module | contents |
|---|---|---|
| wrappers.dfy | Wrappers | `Option`, `Result` |
| text.dfy | Text | case folding, `strip`, string order, numerals, `.2f` rendering of cents |
| transaction.dfy | Transactions | the record, its dictionary form, its rendering |
| ledger.dfy | Ledger | sign coercion, filters, newest-first sort, sums, balance and category summaries |
| persistence.dfy | Persistence | file names, stored records, save/load rule, `Disk` |
| user.dfy | Users | class `User` |
| tracker.dfy | Tracker | month window, monthly sums, class `MoneyTracker` |

## Model

| member | source | states |
|---|---|---|
| Transactions.NewTransaction | transaction.py:11-27 | the constructor stores date, description, amount, type and category exactly as given |
| Transactions.NewTransactionDefaultsCategory | transaction.py:12 | a transaction built without a category has category "General" |
| Transactions.ToDict | transaction.py:29-37 | the dictionary has exactly the keys date, description, amount, type and category |
| Transactions.FromDict | transaction.py:39-48 | decoding succeeds exactly when date, description, amount and type are present (with the right kinds) and a category, when present, is text; on success each field is the stored value and a missing category becomes "General"; a missing-key error names a key that is absent |
| Transactions.FromDictToDict | transaction.py:29-48 | decoding the dictionary of any transaction gives that transaction back, field for field |
| Transactions.ToDictFromDict | transaction.py:29-48 | a dictionary that decodes agrees on every key it has with the dictionary of its decoded transaction; an absent category comes back as "General" |
| Transactions.RenderLayout | transaction.py:50-52 | the rendering is date, description, "$" and amount, type, category joined by " \| ", and its amount text reads back as the amount |
| Text.CentsRoundTrip | transaction.py:52 | two-decimal rendering of an amount in cents loses nothing: parsing it back gives the same amount |
| Text.StripShape | money_tracker.py:79 | `strip()` keeps an infix that starts and ends with a non-space character, and all it drops is whitespace |
| Text.StripEmptyIffBlank | money_tracker.py:79-80 | a name is empty after `strip()` if and only if it was all whitespace |
| Text.LexLeTotal | user.py:52-56 | any two dates are comparable with `<=` |
| Text.LexLeTransitive | user.py:52-56 | string `<=` is transitive |
| Text.LexLeAntisymmetric | user.py:52-56 | two strings each `<=` the other are equal |
| Ledger.CoercedAmount | user.py:29-33 | a type lower-casing to "expense" gives a non-positive amount of the same magnitude; "income" a non-negative one of the same magnitude; any other type keeps the amount unchanged |
| Ledger.FilteredIsSelection | user.py:50-59 | the three successive filters keep exactly the entries that meet every given bound and the type, in ledger order, an absent or empty filter being skipped |
| Ledger.SelectionCounts | user.py:50-59 | each entry occurs in the selection as often as in the ledger if it matches the filter, and not at all otherwise |
| Ledger.SortIsOrdered | user.py:61-62 | the newest-first sort yields a list ordered with non-increasing dates that is a permutation of its input |
| Ledger.SortIsStable | user.py:61-62 | the sort keeps the entries of each date in their original relative order |
| Ledger.Query | user.py:39-62 | `get_transactions` is ordered newest first, holds each entry that matches the filter as often as the ledger does and no other entry, and keeps entries of one date in insertion order |
| Ledger.QueryRespectsBounds | user.py:52-56 | every entry returned lies within the given start and end dates and comes from the ledger |
| Ledger.TotalIncome | user.py:66 | the sum of the positive amounts is non-negative |
| Ledger.TotalExpenses | user.py:67 | total expenses are the negated sum of the negative amounts |
| Ledger.BalanceOf | user.py:64-75 | income and expenses are non-negative, the balance is their difference and equals the sum of all amounts, and the count is the number of entries |
| Ledger.GroceriesAndSalary | user.py:64-75 | the summary of an expense of 50.00 and an income of 2000.00: income 2000.00, expenses 50.00, balance 1950.00, count 2 |
| Ledger.CategorySummaryStep | user.py:80-90 | one pass of the loop body changes the per-category summary of the entries so far into that of the entries with one more |
| Ledger.ZeroAmountCountsOnly | user.py:85-90 | an entry with amount zero adds one to the count only |
| Ledger.CategoriesAddUp | user.py:77-92 | the per-category totals, taken in first-occurrence order, add up to the totals of the whole ledger |
| Ledger.CategoriesMatchBalance | user.py:64-92 | per-category income adds up to `total_income`, expenses to `total_expenses` and counts to `transaction_count` |
| Ledger.QuerySums | money_tracker.py:283-292 | sorting does not change any per-entry sum or the entry count of a query |
| Persistence.DataFileShape | user.py:23 | the file name is the user name lower-cased with spaces turned into underscores, followed by "_transactions.json", and its stem holds no space and no upper-case letter |
| Persistence.DataFileCollision | user.py:23 | two user names share a data file if and only if they agree character by character once lower-cased and with spaces as underscores |
| Persistence.DecodeEncode | user.py:94-114 | decoding the list of dictionaries of any transactions gives those transactions back |
| Persistence.DecodeAllSpec | user.py:114 | the stored list decodes if and only if every entry decodes, and then entry by entry |
| Persistence.SaveLoadRoundTrip | user.py:94-114 | loading the record just saved gives back the same list of transactions |
| Persistence.LoadSpec | user.py:108-117 | a missing file, a malformed one, one without "transactions" and one with an entry that does not decode all load as empty; a record whose every entry decodes loads as exactly those entries, in order; a non-empty load comes only from such a record |
| Users.User.constructor | user.py:14-24 | a new user derives its file name from its name and starts with what that file loads to |
| Users.User.AddTransaction | user.py:26-37 | appends exactly one transaction with the coerced amount and the type and category as passed, keeps the earlier ones, and replaces the user's file with the full list; reloading it gives the list back |
| Users.User.GetCategorySummary | user.py:77-92 | the loop yields the reference summary (each category that occurs, with its entries' totals), and the summary adds up to the ledger's totals |
| Users.User.SaveTransactions | user.py:94-106 | the user's file now holds the name and the full list, every other file is unchanged, and it loads back to the list |
| Users.User.LoadTransactions | user.py:108-117 | an existing file replaces the list by its decoded contents (empty on failure); a missing file leaves the list as it was |
| Tracker.MoneyTracker.constructor | money_tracker.py:14-26 | the registry holds exactly "Father" and "Self" in that order, each loaded from its file, and no user is selected |
| Tracker.MoneyTracker.AddNewUser | money_tracker.py:77-86 | a stripped, non-empty, new name is added at the end with every existing user kept; a registered name or a blank one leaves the registry unchanged and reports why |
| Tracker.MoneyTracker.SelectUser | money_tracker.py:51-75 | choice k from 1 to the number of users selects the k-th user in menu order; the next number runs `add_new_user`, and a user it adds is new and holds what its file loads to; any other number changes nothing |
| Tracker.MoneyTracker.AddTransaction | money_tracker.py:88-157 | a transaction is added if and only if a user is selected, the stripped description is non-empty, the amount is positive and the type choice is 1 or 2; the gates report in that order, and a refused one changes neither the ledger nor the files |
| Tracker.TypeName | money_tracker.py:129-134 | choice 1 is a type lower-casing to "income", choice 2 one lower-casing to "expense" |
| Tracker.ChosenCategory | money_tracker.py:142-154 | the category is the chosen one only for an expense with a choice in 1..10, and "General" otherwise |
| Tracker.MonthFilter | money_tracker.py:276-283 | a transaction passes the report's filter if and only if its date lies between the month's start and end dates, both included, whatever its type |
| Tracker.MonthStartShape | money_tracker.py:277 | for a four-digit year the start date is `YYYY-MM-01`, ten characters long |
| Tracker.MonthWindowSpan | money_tracker.py:277-283 | for a year from 0 to 9999, a month from 1 to 12 and any month but December 9999, every day of the month from "01" on lies within the window and strictly before its end, and the end date itself is inside the window |
| Tracker.NextMonthFirstIsCounted | money_tracker.py:278-283 | for a year from 0 to 9999, a month from 1 to 12 and any month but December 9999, a transaction dated the first of the next month passes the month's filter |
| Tracker.NegativeDecemberIsEmpty | money_tracker.py:278-279 | for December of a year from -999 to -2 the end bound sorts before the start, so no date passes both bounds |
| Tracker.LastDecemberIsEmpty | money_tracker.py:278-279 | for December 9999 the end is "10000-01-01" and no date passes both bounds |
| Tracker.MonthlySums | money_tracker.py:290-292 | monthly income and expenses are non-negative, net is their difference and the sum of all amounts, and the count is the number of entries |
| Tracker.MonthlySumsMatchBalance | money_tracker.py:290-292 | the monthly figures are those of the balance summary of the same transactions |
| Tracker.MoneyTracker.MonthlyReportFor | money_tracker.py:262-299 | without a selected user the report is refused; otherwise it is "nothing this month" when no transaction falls in the window, and else the sums of exactly the transactions in the window |

## Left out

- Console interaction is modelled as parameters: the menu loop, prompts, `input()`, `print` and the `display_*` and `view_*` methods. A menu choice, an amount or a year arrives as an already parsed number, and the branches for input that does not parse (`ValueError`) are not modelled.
- visualizer.py is not part of this model: it draws charts.
- JSON text and the file system are replaced by `Disk`, a map from file name to `StoredFile`.
  - Text that does not parse, or parses to something other than an object, is `Malformed`. So is an object whose "transactions" value is not a list of objects: iterating it raises at user.py:114, the handler at user.py:115-117 gives the empty list, and `Malformed` loads as the same empty list.
  - A field value that is null, a boolean, a list or an object cannot be represented (`JsonValue` holds only text and numbers). Python would keep, for instance, a null date as it is.
  - `open`, `os.path.exists` and `json.dump`/`json.load` are not modelled.
- The `last_updated` timestamp in the saved record is not modelled, because it comes from the clock.
- `datetime.now()` as the default date, year and month is not modelled. Neither is the `strptime` date check in `add_transaction`. The model takes the date after that check as a parameter.
- Float arithmetic and rounding of amounts are not modelled: amounts are whole cents.
- `lower()` and `strip()` on non-ASCII characters are not modelled.
- Transactions.FromDict: a value of the wrong JSON kind (a number where text is expected, or the reverse) is a decode failure. Python's `from_dict` would keep such a date, description, type or category as it is; the amount goes through `float()`, which turns numeric text such as "12.5" into a number and raises on other text or null (a raise that `load_transactions` turns into the empty list). Numeric text as an amount is not modelled.
- Users.User.SaveTransactions: a write that fails is not modelled. The source catches and prints the error; a failing `open` leaves the file as it was, but `open(..., 'w')` has already emptied the file when `json.dump` fails, so the file is left empty or partly written and loads back as the empty list.
- Users.User.LoadTransactions: the "user" key of a stored record is read by nobody and is not checked, as in the source.
- Tracker.MoneyTracker.MonthlyReportFor: the figures are returned instead of printed. The transactions are summed in the newest-first order the source uses, and the contract states the sums over the unsorted selection, because `Ledger.QuerySums` proves the two equal.
- The sorted printing of the category report (`sorted(categories.items())`) is left out, because it is display only.
