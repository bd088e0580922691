/**
  The rows of the tracker's two tables, `expenses` and `categories`, and the
  conditions that their schema and SQLite's `AUTOINCREMENT` keep.
*/
module Tables {
  import opened Sequences

  /**
    A point in time as the tracker stores it: seconds on the local wall clock,
    counted from a midnight. The stored text `YYYY-MM-DD HH:MM:SS` is fixed
    width, so comparing two such texts agrees with comparing these numbers.
  */
  type Timestamp = int

  const SecondsPerDay: int := 86400

  /** One row of `expenses`. */
  datatype Expense = Expense(id: nat, amount: real, category: string, description: string, date: Timestamp)

  /** One row of `categories`. */
  datatype Category = Category(id: nat, name: string)

  /** The names seeded into an empty `categories` table, in insertion order. */
  const DefaultCategories: seq<string> :=
    ["Food", "Transportation", "Housing", "Entertainment",
     "Utilities", "Healthcare", "Education", "Shopping", "Other"]

  /** The `name` column of `categories`, in row order. */
  function Names(cats: seq<Category>): seq<string> {
    seq(|cats|, i requires 0 <= i < |cats| => cats[i].name)
  }

  /**
    Ids assigned by `AUTOINCREMENT` in an append-only table: positive, rising
    with the row order, and never above the largest id handed out so far,
    which SQLite keeps in `sqlite_sequence`.
  */
  ghost predicate ExpenseIdsValid(rows: seq<Expense>, lastId: nat) {
    && (forall i :: 0 <= i < |rows| ==> 1 <= rows[i].id <= lastId)
    && (forall i, j :: 0 <= i < j < |rows| ==> rows[i].id < rows[j].id)
  }

  /** As for expenses, and `name TEXT UNIQUE` besides. */
  ghost predicate CategoriesValid(cats: seq<Category>, lastId: nat) {
    && (forall i :: 0 <= i < |cats| ==> 1 <= cats[i].id <= lastId)
    && (forall i, j :: 0 <= i < j < |cats| ==> cats[i].id < cats[j].id)
    && Distinct(Names(cats))
  }

  function Amount(e: Expense): real {
    e.amount
  }

  /** The sum of the `amount` column over `rows`. */
  function Total(rows: seq<Expense>): real {
    SumBy(rows, Amount)
  }
}
