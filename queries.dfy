/**
  The three read queries of the tracker, as functions of the table contents:
  `SELECT name FROM categories ORDER BY name`, the period-filtered expense
  listing with its total, and the `GROUP BY category` spending summary.
*/
module Queries {
  import opened Optional
  import opened Sequences
  import opened Text
  import opened Tables

  // ---------------------------------------------------------------------------
  // Categories

  lemma LexLeOrders()
    ensures IsTotal(LexLe) && IsTransitive(LexLe)
  {
    forall a: string, b: string ensures LexLe(a, b) || LexLe(b, a) {
      LexLeTotal(a, b);
    }
    forall a: string, b: string, c: string | LexLe(a, b) && LexLe(b, c) ensures LexLe(a, c) {
      LexLeTransitive(a, b, c);
    }
  }

  /**
    `get_categories`: every registered name, each as often as it is stored,
    in ascending `BINARY` order. With unique names it lists each once.
  */
  function GetCategories(cats: seq<Category>): (r: seq<string>)
    ensures |r| == |cats|
    ensures multiset(r) == multiset(Names(cats))
    ensures forall name :: name in r <==> name in Names(cats)
    ensures forall i, j :: 0 <= i < j < |r| ==> LexLe(r[i], r[j])
    ensures Distinct(Names(cats)) ==> Distinct(r)
  {
    LexLeOrders();
    var r := Sort(Names(cats), LexLe);
    assert |r| == |multiset(r)| == |Names(cats)|;
    assert forall name :: name in r <==> name in multiset(Names(cats));
    if Distinct(Names(cats)) then
      DistinctPermutation(Names(cats), r);
      r
    else r
  }

  // ---------------------------------------------------------------------------
  // Listing expenses

  /** The bounds of `date BETWEEN start AND end`, both inclusive. */
  datatype Window = Between(start: Timestamp, end: Timestamp)

  /** `now.replace(hour=0, minute=0, second=0)`, once formatted to whole seconds. */
  function StartOfDay(now: Timestamp): Timestamp {
    now - now % SecondsPerDay
  }

  /**
    The filter `view_expenses` applies for `timePeriod`: since midnight for
    "day", the last 7 days for "week", the last 30 days for "month", each up
    to `now`; no filter for "all" or any other text.
  */
  function PeriodWindow(timePeriod: string, now: Timestamp): (w: Option<Window>)
    ensures w.Some? <==> timePeriod == "day" || timePeriod == "week" || timePeriod == "month"
    ensures w.Some? ==> w.value.end == now && now - 30 * SecondsPerDay <= w.value.start <= now
  {
    if timePeriod == "day" then Some(Between(StartOfDay(now), now))
    else if timePeriod == "week" then Some(Between(now - 7 * SecondsPerDay, now))
    else if timePeriod == "month" then Some(Between(now - 30 * SecondsPerDay, now))
    else None
  }

  predicate InWindow(w: Option<Window>, date: Timestamp) {
    w.None? || w.value.start <= date <= w.value.end
  }

  /** The `WHERE` clause: the rows inside `w`, each as often as it is stored. */
  function Filter(rows: seq<Expense>, w: Option<Window>): (r: seq<Expense>)
    ensures forall e :: multiset(r)[e] == if InWindow(w, e.date) then multiset(rows)[e] else 0
  {
    if rows == [] then []
    else
      assert rows == [rows[0]] + rows[1..];
      var rest := Filter(rows[1..], w);
      if InWindow(w, rows[0].date) then [rows[0]] + rest else rest
  }

  function LaterOrSame(a: Expense, b: Expense): bool {
    a.date >= b.date
  }

  /**
    The rows `view_expenses` fetches for `timePeriod`: exactly the rows in the
    period's window, newest first. Rows with equal dates may come in any order.
  */
  function View(rows: seq<Expense>, timePeriod: string, now: Timestamp): (r: seq<Expense>)
    ensures multiset(r) == multiset(Filter(rows, PeriodWindow(timePeriod, now)))
    ensures forall e :: e in r <==> e in rows && InWindow(PeriodWindow(timePeriod, now), e.date)
    ensures forall i, j :: 0 <= i < j < |r| ==> r[i].date >= r[j].date
  {
    var r := Sort(Filter(rows, PeriodWindow(timePeriod, now)), LaterOrSame);
    assert forall e :: e in r <==> e in multiset(r);
    r
  }

  /** What `view_expenses` reports: no rows, or the table and its total. */
  datatype Listing = NoExpenses | Table(rows: seq<Expense>, total: real)

  /**
    `view_expenses`: "No expenses found." exactly when no row lies in the
    window, and otherwise the listed rows and the sum of their amounts,
    which is the sum over the matching rows in any order.
  */
  function ViewExpenses(rows: seq<Expense>, timePeriod: string, now: Timestamp): (l: Listing)
    ensures l.NoExpenses? <==> forall e :: e in rows ==> !InWindow(PeriodWindow(timePeriod, now), e.date)
    ensures l.Table? ==> l.rows == View(rows, timePeriod, now)
    ensures l.Table? ==> l.total == Total(Filter(rows, PeriodWindow(timePeriod, now)))
  {
    var listed := View(rows, timePeriod, now);
    if listed == [] then
      assert forall e :: e in rows ==> !InWindow(PeriodWindow(timePeriod, now), e.date) by {
        forall e | e in rows ensures !InWindow(PeriodWindow(timePeriod, now), e.date) {
          assert e !in listed;
        }
      }
      NoExpenses
    else
      SumByPermutation(listed, Filter(rows, PeriodWindow(timePeriod, now)), Amount);
      Table(listed, Total(listed))
  }

  /** A wider window keeps every row a narrower one keeps. */
  lemma FilterMonotone(rows: seq<Expense>, narrow: Option<Window>, wide: Option<Window>)
    requires forall d :: InWindow(narrow, d) ==> InWindow(wide, d)
    ensures multiset(Filter(rows, narrow)) <= multiset(Filter(rows, wide))
  {
  }

  /** For one `now`, today lies within the last week, which lies within the last month. */
  lemma WindowsNested(now: Timestamp)
    ensures forall d :: InWindow(PeriodWindow("day", now), d) ==> InWindow(PeriodWindow("week", now), d)
    ensures forall d :: InWindow(PeriodWindow("week", now), d) ==> InWindow(PeriodWindow("month", now), d)
  {
    assert StartOfDay(now) > now - SecondsPerDay;
  }

  /** "all", like every unrecognised period, lists the whole table. */
  lemma ViewAll(rows: seq<Expense>, timePeriod: string, now: Timestamp)
    requires timePeriod != "day" && timePeriod != "week" && timePeriod != "month"
    ensures multiset(View(rows, timePeriod, now)) == multiset(rows)
  {
    assert multiset(Filter(rows, None)) == multiset(rows);
  }

  /** day ⊆ week ⊆ month ⊆ all, for any `now`; "all" is the whole table. */
  lemma ViewNested(rows: seq<Expense>, now: Timestamp)
    ensures multiset(View(rows, "day", now)) <= multiset(View(rows, "week", now))
    ensures multiset(View(rows, "week", now)) <= multiset(View(rows, "month", now))
    ensures multiset(View(rows, "month", now)) <= multiset(View(rows, "all", now))
    ensures multiset(View(rows, "all", now)) == multiset(rows)
  {
    WindowsNested(now);
    FilterMonotone(rows, PeriodWindow("day", now), PeriodWindow("week", now));
    FilterMonotone(rows, PeriodWindow("week", now), PeriodWindow("month", now));
    FilterMonotone(rows, PeriodWindow("month", now), PeriodWindow("all", now));
    ViewAll(rows, "all", now);
  }

  // ---------------------------------------------------------------------------
  // Spending by category

  /** One result row of the `GROUP BY category` query. */
  datatype CategorySpending = CategorySpending(category: string, total: real)

  /** The rows of category `c`, in table order. */
  function InCategory(rows: seq<Expense>, c: string): seq<Expense> {
    if rows == [] then []
    else if rows[0].category == c then [rows[0]] + InCategory(rows[1..], c)
    else InCategory(rows[1..], c)
  }

  /** What category `c` was spent in total: the reference for each group's `SUM(amount)`. */
  function CategorySum(rows: seq<Expense>, c: string): real {
    Total(InCategory(rows, c))
  }

  /** The distinct values of the `category` column. */
  function CategoriesOf(rows: seq<Expense>): set<string> {
    if rows == [] then {} else {rows[0].category} + CategoriesOf(rows[1..])
  }

  /** The categories that head the groups of `g`. */
  function KeysOf(g: seq<CategorySpending>): set<string> {
    if g == [] then {} else {g[0].category} + KeysOf(g[1..])
  }

  /** A category is present exactly when some row carries it. */
  lemma {:induction false} CategoriesOfMembers(rows: seq<Expense>, c: string)
    ensures c in CategoriesOf(rows) <==> exists e :: e in rows && e.category == c
  {
    if rows != [] {
      CategoriesOfMembers(rows[1..], c);
      assert forall e :: e in rows <==> e == rows[0] || e in rows[1..] by {
        assert rows == [rows[0]] + rows[1..];
      }
    }
  }

  /** A category heads a group exactly when some group carries it. */
  lemma {:induction false} KeysOfMembers(g: seq<CategorySpending>, c: string)
    ensures c in KeysOf(g) <==> exists p :: p in g && p.category == c
  {
    if g != [] {
      KeysOfMembers(g[1..], c);
      assert forall p :: p in g <==> p == g[0] || p in g[1..] by {
        assert g == [g[0]] + g[1..];
      }
    }
  }

  /** No category heads two groups. */
  ghost predicate DistinctKeys(g: seq<CategorySpending>) {
    forall i, j :: 0 <= i < j < |g| ==> g[i].category != g[j].category
  }

  /** `g` holds one group per category of `rows`, each with that category's sum. */
  ghost predicate Summarizes(g: seq<CategorySpending>, rows: seq<Expense>) {
    && DistinctKeys(g)
    && KeysOf(g) == CategoriesOf(rows)
    && forall i :: 0 <= i < |g| ==> g[i].total == CategorySum(rows, g[i].category)
  }

  /** Adds one row to the running groups: to its category's group, or as a new group at the end. */
  function AddToGroups(g: seq<CategorySpending>, e: Expense): (r: seq<CategorySpending>)
    requires DistinctKeys(g)
    ensures |r| == if e.category in KeysOf(g) then |g| else |g| + 1
    ensures forall i :: 0 <= i < |g| ==> r[i].category == g[i].category
    ensures forall i :: 0 <= i < |g| ==>
      r[i].total == g[i].total + (if g[i].category == e.category then e.amount else 0.0)
    ensures e.category !in KeysOf(g) ==> r[|g|] == CategorySpending(e.category, e.amount)
  {
    if g == [] then [CategorySpending(e.category, e.amount)]
    else if g[0].category == e.category then
      var r := [CategorySpending(g[0].category, g[0].total + e.amount)] + g[1..];
      assert forall i :: 1 <= i < |g| ==> r[i] == g[i] && g[i].category != g[0].category;
      r
    else
      var rest := AddToGroups(g[1..], e);
      var r := [g[0]] + rest;
      assert forall i :: 1 <= i < |r| ==> r[i] == rest[i - 1];
      r
  }

  function TotalOf(p: CategorySpending): real {
    p.total
  }

  lemma {:induction false} AddToGroupsSum(g: seq<CategorySpending>, e: Expense)
    requires DistinctKeys(g)
    ensures SumBy(AddToGroups(g, e), TotalOf) == SumBy(g, TotalOf) + e.amount
  {
    if g != [] && g[0].category != e.category {
      AddToGroupsSum(g[1..], e);
      assert AddToGroups(g, e)[1..] == AddToGroups(g[1..], e);
    }
  }

  lemma {:induction false} NotInCategory(rows: seq<Expense>, c: string)
    requires c !in CategoriesOf(rows)
    ensures CategorySum(rows, c) == 0.0
  {
    if rows != [] {
      NotInCategory(rows[1..], c);
    }
  }

  lemma CategorySumFirst(rows: seq<Expense>, c: string)
    requires rows != []
    ensures CategorySum(rows, c) == (if rows[0].category == c then rows[0].amount else 0.0) + CategorySum(rows[1..], c)
  {
    if rows[0].category == c {
      var rest := InCategory(rows[1..], c);
      assert ([rows[0]] + rest)[1..] == rest;
    }
  }

  lemma {:induction false} AddToGroupsKeys(g: seq<CategorySpending>, e: Expense)
    requires DistinctKeys(g)
    ensures KeysOf(AddToGroups(g, e)) == KeysOf(g) + {e.category}
  {
    if g != [] && g[0].category != e.category {
      AddToGroupsKeys(g[1..], e);
      assert AddToGroups(g, e)[1..] == AddToGroups(g[1..], e);
    } else if g != [] {
      assert AddToGroups(g, e)[1..] == g[1..];
    }
  }

  /** One more row keeps the groups a summary of the rows. */
  lemma GroupsStep(g: seq<CategorySpending>, rows: seq<Expense>)
    requires rows != []
    requires Summarizes(g, rows[1..])
    ensures Summarizes(AddToGroups(g, rows[0]), rows)
  {
    var e := rows[0];
    var r := AddToGroups(g, e);
    AddToGroupsKeys(g, e);
    forall i | 0 <= i < |r| ensures r[i].total == CategorySum(rows, r[i].category) {
      CategorySumFirst(rows, r[i].category);
      if i == |g| {
        NotInCategory(rows[1..], e.category);
      }
    }
    forall i, j | 0 <= i < j < |r| ensures r[i].category != r[j].category {
      if j == |g| {
        KeysOfMembers(g, e.category);
        assert g[i] in g;
      }
    }
  }

  /** `GROUP BY category` with `SUM(amount)`, groups in the order the scan forms them. */
  function Groups(rows: seq<Expense>): (g: seq<CategorySpending>)
    ensures Summarizes(g, rows)
    ensures SumBy(g, TotalOf) == Total(rows)
  {
    if rows == [] then []
    else
      var g := AddToGroups(Groups(rows[1..]), rows[0]);
      GroupsStep(Groups(rows[1..]), rows);
      AddToGroupsSum(Groups(rows[1..]), rows[0]);
      g
  }

  /** Reordering the groups keeps them a summary of the rows. */
  lemma SummarizesPermutation(g: seq<CategorySpending>, s: seq<CategorySpending>, rows: seq<Expense>)
    requires multiset(g) == multiset(s)
    requires Summarizes(g, rows)
    ensures Summarizes(s, rows)
  {
    assert forall p :: p in s <==> p in g by {
      forall p ensures p in s <==> p in g {
        assert p in s <==> p in multiset(s);
        assert p in g <==> p in multiset(g);
      }
    }
    forall i | 0 <= i < |s| ensures s[i].total == CategorySum(rows, s[i].category) {
      assert s[i] in g;
    }
    assert Distinct(g) by {
      forall i, j | 0 <= i < j < |g| ensures g[i] != g[j] {
        assert g[i].category != g[j].category;
      }
    }
    DistinctPermutation(g, s);
    forall c ensures c in KeysOf(s) <==> c in KeysOf(g) {
      KeysOfMembers(g, c);
      KeysOfMembers(s, c);
    }
  }

  function HigherOrSame(a: CategorySpending, b: CategorySpending): bool {
    a.total >= b.total
  }

  /**
    `get_spending_by_category`: `None` when there are no expenses; otherwise
    one pair per category that occurs, each with the sum of that category's
    amounts, largest total first, the totals adding up to all the amounts.
  */
  function SpendingByCategory(rows: seq<Expense>): (r: Option<seq<CategorySpending>>)
    ensures r.None? <==> rows == []
    ensures r.Some? ==> Summarizes(r.value, rows)
    ensures r.Some? ==> forall i, j :: 0 <= i < j < |r.value| ==> r.value[i].total >= r.value[j].total
    ensures r.Some? ==> SumBy(r.value, TotalOf) == Total(rows)
  {
    if rows == [] then None
    else
      var g := Groups(rows);
      var s := Sort(g, HigherOrSame);
      SummarizesPermutation(g, s, rows);
      SumByPermutation(g, s, TotalOf);
      Some(s)
  }

  /**
    Two expenses in different categories: one group each, the larger total
    first.
  */
  lemma TwoCategoriesScenario(lunchTime: Timestamp, rideTime: Timestamp)
    ensures SpendingByCategory([Expense(1, 12.5, "Food", "lunch", lunchTime), Expense(2, 30.0, "Transportation", "", rideTime)])
         == Some([CategorySpending("Transportation", 30.0), CategorySpending("Food", 12.5)])
  {
    var food := Expense(1, 12.5, "Food", "lunch", lunchTime);
    var ride := Expense(2, 30.0, "Transportation", "", rideTime);
    var transport, meals := CategorySpending("Transportation", 30.0), CategorySpending("Food", 12.5);
    assert [food, ride][1..] == [ride] && [ride][1..] == [];
    assert Groups([ride]) == [transport];
    assert "Food"[0] != "Transportation"[0];
    assert AddToGroups([transport], food) == [transport] + AddToGroups([], food);
    assert Groups([food, ride]) == [transport, meals];
    assert [transport, meals][1..] == [meals];
    assert Sort([transport, meals], HigherOrSame) == Insert(transport, [meals], HigherOrSame);
  }
}
