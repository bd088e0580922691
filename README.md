# Expense tracker — a Dafny model

This project models the core of a personal expense tracker, the class
`ExpenseTracker` in `main.py`. The tracker keeps two SQLite tables:

- `expenses`: amount, category, description and a timestamp, with ids from
  `AUTOINCREMENT`;
- `categories`: unique names, seeded with nine defaults the first time.

The class offers three read queries over these tables: the categories sorted
by name, the expenses of a period (newest first, with their total), and the
spending per category (largest first). The menu adds two decisions that are
pure functions: what an answer to "Select category by number or enter new
category" selects, and which period a view choice stands for.

The model represents the parts this way:

- **Tables** (`tables.dfy`): the rows, as datatypes. The schema's conditions
  are predicates: positive, rising `AUTOINCREMENT` ids, never above the
  `sqlite_sequence` entry, and unique category names.
- **Tracker** (`tracker.dfy`): a class whose fields are the two tables and
  their two `sqlite_sequence` entries. Its methods `CreateTables` (the
  seeding loop of `executemany`), `AddExpense` and `AddCategory` state the
  whole new state in their postconditions.
- **Queries** (`queries.dfy`): functions over the table contents for
  `get_categories`, `view_expenses` and `get_spending_by_category`. Lemmas
  connect them to independent reference definitions: a filter described by
  multiplicities, per-category sums, and sums that do not depend on order.
- **Menu** (`menu.dfy`): the category choice, the period mapping, and the
  add-expense and add-category flows built on them.
- **Text** (`text.dfy`): Python's `str.strip()` and base-10 `int()` with
  ASCII digits, Python's integer formatting, and SQLite's `BINARY` collation
  used by `ORDER BY name`. Both `strip()` and `int()` trim white space at the
  ends, but not the same white space: `int()` leaves the four ASCII
  separators U+001C to U+001F in place and then fails on them, while
  `strip()` removes them. One trimming function, parameterised by the set of
  white space characters, serves both. `int()` also refuses a numeral of
  more than 4300 digits, leading zeros included and underscores not, which
  is the default of `sys.int_info.default_max_str_digits`.
- **Sequences** (`sequences.dfy`): a generic insertion sort. It stands for
  one of the orders an `ORDER BY` may return, and its contract promises only
  what every such order has. The file also holds a generic sum with its
  permutation lemma.

Time is an integer count of seconds on the naive local clock, counted from a
midnight. The stored text `YYYY-MM-DD HH:MM:SS` is fixed-width, so SQLite's
text comparison in `BETWEEN` agrees with integer comparison. Naive Python
datetimes have 86400-second days, so the window starts are computed from a
`now` parameter:

- "day" starts at `now - now % 86400` (midnight);
- "week" starts at `now - 7*86400`;
- "month" starts at `now - 30*86400`.

Amounts are exact `real`s.

Three behaviours of the source are worth knowing:

- The connection is closed by `__del__`. The model has no connection at all.
- A category whose registration fails with a store error still receives the
  expense (`AddExpenseFlow`).
- A blank answer at the category prompt strips to `""`, which the schema
  accepts as a category name.

The model keeps the last two as they are: the expense added after a failed
registration, and the blank category name.

## Model

| member | source | states |
|---|---|---|
| `Text.Trim` | main.py:184-191 | the result is the slice of the answer left once the leading and trailing white space are removed (Python's `isspace` set for `strip()`, that set without U+001C to U+001F for `int()`); it is empty exactly when the answer is all white space and otherwise starts and ends with a non-space |
| `Text.StripIdempotent` | main.py:191 | stripping twice gives the same as stripping once |
| `Text.ParseShow` | main.py:177-184 | `int()` applied to the number the menu printed in front of a category gives back that number, negatives included, as long as it has at most 4300 digits; a longer one raises `ValueError` (`None`) |
| `Text.ParseNumeral` | main.py:184 | `int()` reads any numeral typed with white space it skips on either side, an optional `+` or `-` and leading zeros as the number with that sign; with more than 4300 digits, the zeros counted, it raises `ValueError` (`None`) |
| `Text.ParsePadded` | main.py:184 | only the literal between the skipped white space decides what `int()` reads |
| `Text.ParseLiteral` | main.py:184 | a literal `int()` accepts starts with a digit or with a sign followed by a digit, and holds only digits and underscores after that sign |
| `Text.ParseInt` | main.py:184 | an answer that `int()` accepts contains a digit and consists only of white space `int()` skips, digits, underscores and signs; every other answer raises `ValueError` (`None`) |
| `Text.ParseIntLimit` | main.py:184 | no answer of more than 4300 digits, leading zeros counted and underscores not, is accepted by `int()`: it raises `ValueError` (`None`) |
| `Text.Show` | main.py:178 | `f"{i}"` is non-empty, starts with `-` exactly for a negative number, and is digits otherwise |
| `Text.SeparatorIsNotIntSpace` | main.py:184-191 | on the answer U+001C followed by `1`, `int()` fails while `strip()` gives `"1"` |
| `Text.LexLeTotal` | main.py:150 | the `BINARY` collation relates any two names one way or the other |
| `Text.LexLeTransitive` | main.py:150 | the `BINARY` collation is transitive, so `ORDER BY name` is well defined |
| `Queries.GetCategories` | main.py:147-151 | the names returned are exactly the stored names with their multiplicities, as many as there are rows, in ascending collation order; with unique names each appears once |
| `Queries.PeriodWindow` | main.py:63-88 | "day", "week" and "month", and only these, filter the rows; each window ends at `now` and starts no earlier than 30 days before it; any other text means no filter |
| `Queries.Filter` | main.py:69-72 | each row occurs in the result as often as in the table when its date is within the window, and not at all otherwise |
| `Queries.View` | main.py:58-90 | the listed rows are a permutation of the rows in the period's window, a row is listed iff it is stored and its date is in the window, and dates do not increase along the listing |
| `Queries.ViewExpenses` | main.py:90-102 | "No expenses found." is reported exactly when no stored row lies in the window; otherwise the listing is the ordered rows and the printed total equals the sum of amounts over the matching rows |
| `Queries.WindowsNested` | main.py:63-81 | for one `now`, every date in today's window lies in the week's window, and every date in the week's window lies in the month's |
| `Queries.ViewNested` | main.py:58-90 | the listings nest as multisets: day within week within month within all, and "all" lists the whole table |
| `Queries.ViewAll` | main.py:87-88 | "all" and every period text not recognised list every stored row, each as often as it is stored |
| `Queries.FilterMonotone` | main.py:69-72 | a window that contains another keeps every row the smaller one keeps |
| `Queries.AddToGroups` | main.py:107-112 | aggregating one more row adds its amount to its category's group, or opens a new group with that amount at the end; all other groups keep their totals |
| `Queries.CategoriesOfMembers` | main.py:109-110 | a category is among the distinct `category` values exactly when some row carries it |
| `Queries.KeysOfMembers` | main.py:110 | a category heads a group exactly when some group carries it |
| `Queries.AddToGroupsSum` | main.py:107-112 | aggregating a row raises the sum of all group totals by exactly its amount |
| `Queries.GroupsStep` | main.py:107-112 | one more row keeps the groups a summary: distinct categories, exactly the categories present, each total equal to its category's sum |
| `Queries.Groups` | main.py:107-113 | `GROUP BY category` yields one group per distinct category present, each total the sum of that category's amounts, and the totals add up to all amounts |
| `Queries.SummarizesPermutation` | main.py:111 | reordering the groups by `ORDER BY total DESC` keeps them a summary of the rows |
| `Queries.SpendingByCategory` | main.py:104-119 | `None` exactly when there are no expenses; otherwise one pair per category present, each with that category's sum, totals non-increasing, and the totals summing to the sum of all amounts |
| `Queries.TwoCategoriesScenario` | main.py:104-119 | 12.50 for "Food" and 30.00 for "Transportation" summarise as Transportation 30.00, then Food 12.50 |
| `Tracker.SeedingProperties` | main.py:33-42 | seeding an empty table yields exactly the nine default names in order, with ids following the last id used; a non-empty table is unchanged; the result keeps ids rising and names unique; seeding again changes nothing |
| `Tracker.DefaultCategoriesDistinct` | main.py:36-39 | the nine default names are pairwise different, so their inserts never trip the `UNIQUE` constraint |
| `Tracker.DefaultRowsStep` | main.py:36-41 | each seeding insert appends the next default name under the next id, and that name is not yet in the table |
| `Tracker.ExpenseTracker.constructor` | main.py:8-11 | opening a database file keeps its expenses and runs the seeding on its categories |
| `Tracker.ExpenseTracker.CreateTables` | main.py:13-42 | the loop of inserts leaves `categories` equal to the seeded table, with the sequence advanced by the rows added; `expenses` is unchanged |
| `Tracker.ExpenseTracker.AddExpense` | main.py:44-56 | without a store error, exactly one row is appended with the given amount, category, description and time, under an id above every earlier one, and no check is made on amount or category; with one, nothing changes; `categories` is never touched |
| `Tracker.ExpenseTracker.AddCategory` | main.py:135-145 | a present name reports "already exists" and changes nothing; an absent name is appended under an id above all earlier ones unless the store fails; `expenses` is never touched |
| `Tracker.NewExpenseListed` | main.py:44-53 | an added row is listed exactly once by "all", beside all rows listed before, and a row stamped `now` is listed by "day" at that `now` |
| `Tracker.NewCategoryListed` | main.py:135-151 | after adding a new name, `get_categories` lists one name more, that name among them, still without repetition |
| `Tracker.FreshStoreRejectsDefault` | main.py:33-42 | on a new database file, adding "Food" reports "already exists" and nine names stay listed |
| `Menu.ChooseCategory` | main.py:180-192 | an existing category is chosen exactly when `int()` reads the answer as an n with 1 <= n <= count, and it is then the n-th listed name; any other answer becomes the stripped answer |
| `Menu.ChooseByShownNumber` | main.py:182-186 | typing the number n shown for the n-th category, 1 <= n <= count, selects exactly that category, unless n has more than 4300 digits, when `int()` refuses it and the text becomes a new name |
| `Menu.ChooseOutOfRange` | main.py:184-192 | a number below 1 or above the count, "0" included, becomes a new category named by that number |
| `Menu.ChooseByText` | main.py:189-192 | an answer without digits always becomes the new name `strip(answer)` |
| `Menu.ChooseBehindSeparator` | main.py:182-192 | with at least one category listed, the answer U+001C followed by `1` is not a number to `int()` and becomes the new category `"1"` |
| `Menu.PeriodForChoice` | main.py:209-210 | the choice names one of "day", "week", "month", "all", and "all" exactly for answers other than "1", "2" and "3" |
| `Menu.PeriodChoices` | main.py:209-211 | "1" filters since midnight, "2" the last 7 days and "3" the last 30 days, each up to `now`; only these filter, and "4" and any other answer list the whole table |
| `Menu.AddExpenseFlow` | main.py:172-195 | the choice is made against the sorted category list; a new name is registered through `add_category`; the expense is added under the chosen name with the expense id advanced by one, or nothing is added on a store error; afterwards the name is registered unless its registration faulted |
| `Menu.RegisterChoice` | main.py:189-192 | only a new name reaches `add_category`; it is appended under the next id unless already known or the store fails, and is then registered; `expenses` is untouched |
| `Menu.AddCategoryFlow` | main.py:216-218 | the typed name is stripped and passed to `add_category`: its outcome, the appended row and the category id advanced by one when inserted, nothing changed otherwise; `expenses` and its id are untouched |

## Left out

- SQLite itself: the connection, cursors, `commit` and the closing in `__del__` (main.py:10, main.py:153-155). The tables are in-memory sequences.
- Store errors: an `sqlite3.Error` other than the `UNIQUE` violation is a `fault` parameter of `AddExpense` and `AddCategory`. When it is set, nothing changes. The order in which SQLite would meet a fault and a `UNIQUE` violation is not modelled; the model checks uniqueness first.
- Start-up failures in `create_tables` are not modelled: there, an error ends the program.
- `Tracker.ExpenseTracker.AddExpense`: SQLite's `SQLITE_FULL` after id 2^63-1 is not modelled, because ids are unbounded.
- `datetime.now()`, `strftime` and `pd.DateOffset`: foreign library calls. `now` is a parameter, and formatting to text is replaced by the integer clock described above. Daylight-saving shifts are left out, because naive datetimes ignore them.
- `Queries.View`: the order among rows with equal dates is not stated, because SQL leaves it open. The model's insertion sort fixes one such order.
- `Queries.SpendingByCategory`: the order among groups with equal totals is not stated, because SQL leaves it open. The model's insertion sort fixes one such order.
- Python `float` amounts: they are exact `real`s, so nothing is claimed about rounding in sums. Non-finite amounts are not modelled either. `float()` accepts `"nan"` and `"inf"`; SQLite stores a NaN parameter as NULL, which the `NOT NULL` constraint on `amount` (main.py:19) rejects, and `add_expense` reports the error (main.py:55-56) after the category step may already have registered a new name. In the model that case is an `AddExpenseFlow` call with `expenseFault` set.
- `Text.ParseInt`: `int()` also accepts non-ASCII decimal digits. Only ASCII digits are modelled.
- `Text.ParseInt`, `Text.ParseShow`, `Text.ParseNumeral`, `Menu.ChooseCategory`, `Menu.ChooseByShownNumber`: the digit limit is fixed at its default of 4300. Python lets `PYTHONINTMAXSTRDIGITS`, `-X int_max_str_digits` or `sys.set_int_max_str_digits` change or lift it, and releases before the 2022 security fixes have none.
- `Text.Show`: `str()` of an integer above the digit limit raises `ValueError` in Python; the model formats every integer.
- The amount prompt's `float(input(...))` and its `ValueError` message (main.py:174, main.py:197-198): the flow starts with an amount already read.
- Rendering: `generate_report` with its list comprehensions and the matplotlib pie chart (main.py:121-133), the `tabulate` table (main.py:97-98), and all printed messages.
- The interactive `while True` loop, the `input()` calls and the exit choice of `main_menu` (main.py:162-225): I/O plumbing. Only the decisions inside the loop are modelled.
