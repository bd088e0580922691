/**
  `ExpenseTracker`: the two tables of the database file as the object's
  state, and the statements that change them — the seeding in
  `create_tables` and the inserts of `add_expense` and `add_category`.
*/
module Tracker {
  import opened Sequences
  import opened Tables
  import Queries

  /** How an `INSERT` ended: a new row, the `UNIQUE` constraint, or another store error. */
  datatype InsertOutcome = Inserted | AlreadyExists | StoreError

  /** The rows the seeding inserts into an empty `categories` whose last id was `lastId`. */
  function DefaultRows(lastId: nat): seq<Category> {
    seq(|DefaultCategories|, i requires 0 <= i < |DefaultCategories| => Category(lastId + i + 1, DefaultCategories[i]))
  }

  /** The `categories` table after `create_tables`: seeded when empty, untouched otherwise. */
  function Seeded(cats: seq<Category>, lastId: nat): seq<Category> {
    if cats == [] then DefaultRows(lastId) else cats
  }

  /**
    The first `i + 1` seeded rows are the first `i` and then one more, and
    its name is not among the names before it.
  */
  lemma DefaultRowsStep(lastId: nat, i: nat)
    requires i < |DefaultCategories|
    ensures DefaultRows(lastId)[..i + 1] == DefaultRows(lastId)[..i] + [Category(lastId + i + 1, DefaultCategories[i])]
    ensures DefaultCategories[i] !in Names(DefaultRows(lastId)[..i])
  {
    DefaultCategoriesDistinct();
    var before := DefaultRows(lastId)[..i];
    forall k | 0 <= k < i ensures Names(before)[k] != DefaultCategories[i] {
      assert Names(before)[k] == DefaultCategories[k];
    }
  }

  lemma DefaultCategoriesDistinct()
    ensures Distinct(DefaultCategories)
  {
    forall i, j | 0 <= i < j < |DefaultCategories|
      ensures DefaultCategories[i] != DefaultCategories[j]
    {
      assert i in {0, 1, 2, 3, 4, 5, 6, 7} && j in {1, 2, 3, 4, 5, 6, 7, 8};
      assert DefaultCategories[i][0] != DefaultCategories[j][0]
          || DefaultCategories[i][1] != DefaultCategories[j][1];
    }
  }

  /**
    Seeding an empty table yields exactly the nine default names, in order,
    under fresh ids above every id used before; a non-empty table is left as
    it is, so running the seeding again never adds or duplicates a name.
  */
  lemma SeedingProperties(cats: seq<Category>, lastId: nat)
    requires CategoriesValid(cats, lastId)
    ensures cats == [] ==> Names(Seeded(cats, lastId)) == DefaultCategories
    ensures cats == [] ==> forall i :: 0 <= i < 9 ==> Seeded(cats, lastId)[i].id == lastId + 1 + i
    ensures cats != [] ==> Seeded(cats, lastId) == cats
    ensures CategoriesValid(Seeded(cats, lastId), lastId + |Seeded(cats, lastId)| - |cats|)
    ensures forall m: nat :: Seeded(Seeded(cats, lastId), m) == Seeded(cats, lastId)
  {
    DefaultCategoriesDistinct();
    assert Names(DefaultRows(lastId)) == DefaultCategories;
  }

  class ExpenseTracker {
    /** The `expenses` table, in insertion order. */
    var expenses: seq<Expense>
    /** The `categories` table, in insertion order. */
    var categories: seq<Category>
    /** The `sqlite_sequence` entries: the largest id each table has handed out. */
    var lastExpenseId: nat
    var lastCategoryId: nat

    ghost predicate Valid()
      reads this
    {
      ExpenseIdsValid(expenses, lastExpenseId) && CategoriesValid(categories, lastCategoryId)
    }

    /**
      `__init__` on a database file holding these tables (a new file holds
      two empty ones): the file is opened and `create_tables` runs.
    */
    constructor (storedExpenses: seq<Expense>, storedCategories: seq<Category>, expenseSeq: nat, categorySeq: nat)
      requires ExpenseIdsValid(storedExpenses, expenseSeq)
      requires CategoriesValid(storedCategories, categorySeq)
      ensures Valid()
      ensures expenses == storedExpenses && lastExpenseId == expenseSeq
      ensures categories == Seeded(storedCategories, categorySeq)
      ensures lastCategoryId == categorySeq + |categories| - |storedCategories|
    {
      expenses, categories := storedExpenses, storedCategories;
      lastExpenseId, lastCategoryId := expenseSeq, categorySeq;
      new;
      CreateTables();
    }

    /**
      `create_tables`: when `categories` is empty, the nine defaults are
      inserted one statement at a time (`executemany`), each with the next id.
    */
    method CreateTables()
      requires Valid()
      modifies this
      ensures Valid()
      ensures expenses == old(expenses) && lastExpenseId == old(lastExpenseId)
      ensures categories == Seeded(old(categories), old(lastCategoryId))
      ensures lastCategoryId == old(lastCategoryId) + |categories| - |old(categories)|
    {
      if |categories| == 0 {
        var i := 0;
        while i < |DefaultCategories|
          invariant 0 <= i <= |DefaultCategories|
          invariant Valid()
          invariant expenses == old(expenses) && lastExpenseId == old(lastExpenseId)
          invariant categories == DefaultRows(old(lastCategoryId))[..i]
          invariant lastCategoryId == old(lastCategoryId) + i
        {
          DefaultRowsStep(old(lastCategoryId), i);
          var outcome := AddCategory(DefaultCategories[i], false);
          i := i + 1;
        }
      }
    }

    /**
      `add_expense`: the new row carries the given amount, category,
      description and the current time, under an id above every earlier one.
      Neither the amount nor the category is checked. On a store error
      nothing changes.
    */
    method AddExpense(amount: real, category: string, description: string, now: Timestamp, fault: bool)
      returns (outcome: InsertOutcome)
      requires Valid()
      modifies this
      ensures Valid()
      ensures categories == old(categories) && lastCategoryId == old(lastCategoryId)
      ensures outcome == if fault then StoreError else Inserted
      ensures outcome == Inserted ==>
        && expenses == old(expenses) + [Expense(old(lastExpenseId) + 1, amount, category, description, now)]
        && lastExpenseId == old(lastExpenseId) + 1
        && forall e :: e in old(expenses) ==> e.id < lastExpenseId
      ensures outcome == StoreError ==> expenses == old(expenses) && lastExpenseId == old(lastExpenseId)
    {
      if fault {
        outcome := StoreError;
      } else {
        lastExpenseId := lastExpenseId + 1;
        expenses := expenses + [Expense(lastExpenseId, amount, category, description, now)];
        outcome := Inserted;
      }
    }

    /**
      `add_category`: a name already present trips the `UNIQUE` constraint and
      changes nothing ("Category already exists"); otherwise one row is
      appended under an id above every earlier one, unless the store fails.
      `expenses` is never touched.
    */
    method AddCategory(name: string, fault: bool) returns (outcome: InsertOutcome)
      requires Valid()
      modifies this
      ensures Valid()
      ensures expenses == old(expenses) && lastExpenseId == old(lastExpenseId)
      ensures outcome == if name in Names(old(categories)) then AlreadyExists
                         else if fault then StoreError
                         else Inserted
      ensures outcome == Inserted ==>
        && categories == old(categories) + [Category(old(lastCategoryId) + 1, name)]
        && lastCategoryId == old(lastCategoryId) + 1
        && forall c :: c in old(categories) ==> c.id < lastCategoryId
      ensures outcome != Inserted ==> categories == old(categories) && lastCategoryId == old(lastCategoryId)
    {
      if name in Names(categories) {
        outcome := AlreadyExists;
      } else if fault {
        outcome := StoreError;
      } else {
        lastCategoryId := lastCategoryId + 1;
        categories := categories + [Category(lastCategoryId, name)];
        assert Names(categories) == Names(old(categories)) + [name];
        outcome := Inserted;
      }
    }
  }

  /**
    A row added by `add_expense` next to rows with smaller ids is listed
    exactly once by "all", beside every row listed before, and a row stamped
    `now` is listed by "day" at that same `now`.
  */
  lemma NewExpenseListed(rows: seq<Expense>, lastId: nat, x: Expense, now: Timestamp)
    requires ExpenseIdsValid(rows, lastId) && x.id > lastId
    ensures multiset(Queries.View(rows + [x], "all", now)) == multiset(Queries.View(rows, "all", now)) + multiset{x}
    ensures multiset(Queries.View(rows + [x], "all", now))[x] == 1
    ensures x.date == now ==> x in Queries.View(rows + [x], "day", now)
  {
    Queries.ViewAll(rows, "all", now);
    Queries.ViewAll(rows + [x], "all", now);
    assert multiset(rows + [x]) == multiset(rows) + multiset{x};
    assert x !in rows;
    assert x in rows + [x];
    assert Queries.StartOfDay(now) <= now;
  }

  /**
    After `add_category` of a new name, `get_categories` lists one name more,
    that name among them, and still without repetition.
  */
  lemma NewCategoryListed(cats: seq<Category>, lastId: nat, name: string)
    requires CategoriesValid(cats, lastId)
    ensures name !in Names(cats) ==>
      && |Queries.GetCategories(cats + [Category(lastId + 1, name)])| == |Queries.GetCategories(cats)| + 1
      && name in Queries.GetCategories(cats + [Category(lastId + 1, name)])
      && Distinct(Queries.GetCategories(cats + [Category(lastId + 1, name)]))
  {
    var grown := cats + [Category(lastId + 1, name)];
    assert Names(grown) == Names(cats) + [name];
    if name !in Names(cats) {
      assert Distinct(Names(grown));
    }
  }

  /**
    A new database file: startup seeds the nine defaults, after which adding
    "Food" trips the `UNIQUE` constraint and the listing still has nine names.
  */
  method FreshStoreRejectsDefault() returns (outcome: InsertOutcome, listed: seq<string>)
    ensures outcome == AlreadyExists
    ensures |listed| == 9 && "Food" in listed
  {
    var tracker := new ExpenseTracker([], [], 0, 0);
    SeedingProperties([], 0);
    assert DefaultCategories[0] == "Food";
    assert "Food" in Names(tracker.categories);
    outcome := tracker.AddCategory("Food", false);
    listed := Queries.GetCategories(tracker.categories);
  }
}
