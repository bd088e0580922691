/**
  The decisions `main_menu` takes on what the user typed: which category an
  answer selects, which period a view choice means, and the add-expense and
  add-category flows that act on those decisions.
*/
module Menu {
  import opened Optional
  import opened Text
  import opened Tables
  import opened Queries
  import opened Tracker

  /** What the answer to "Select category by number or enter new category" means. */
  datatype CategoryChoice = Existing(name: string) | NewCategory(name: string)

  /**
    A number n with 1 <= n <= |listed| picks the n-th category as the menu
    numbered them; every other answer, numbers out of range included, is a
    new category name once stripped.
  */
  function ChooseCategory(answer: string, listed: seq<string>): (c: CategoryChoice)
    ensures c.Existing? <==> ParseInt(answer).Some? && 1 <= ParseInt(answer).value <= |listed|
    ensures c.Existing? ==> c.name == listed[ParseInt(answer).value - 1] && c.name in listed
    ensures c.NewCategory? ==> c.name == Strip(answer)
  {
    match ParseInt(answer)
    case Some(n) => if 1 <= n <= |listed| then Existing(listed[n - 1]) else NewCategory(Strip(answer))
    case None => NewCategory(Strip(answer))
  }

  /** Typing the number printed in front of a category selects that category. */
  lemma ChooseByShownNumber(listed: seq<string>, n: int)
    requires 1 <= n <= |listed|
    ensures ChooseCategory(Show(n), listed)
         == if |Digits(n)| <= MaxStrDigits then Existing(listed[n - 1]) else NewCategory(Show(n))
  {
    ParseShow(n);
    TrimShow(n, IsSpace);
  }

  /** A number outside the list, 0 and negatives included, becomes a category of that name. */
  lemma ChooseOutOfRange(listed: seq<string>, n: int)
    requires n < 1 || n > |listed|
    ensures ChooseCategory(Show(n), listed) == NewCategory(Show(n))
  {
    ParseShow(n);
    TrimShow(n, IsSpace);
  }

  /** An answer without a digit is always a new name, however many categories exist. */
  lemma ChooseByText(listed: seq<string>, answer: string)
    requires forall k :: 0 <= k < |answer| ==> !IsDigit(answer[k])
    ensures ChooseCategory(answer, listed) == NewCategory(Strip(answer))
  {
  }

  /**
    A numeral behind an ASCII separator (U+001C) is no number to `int()`,
    so even an in-range one becomes a new category, named by the numeral
    once `strip()` has removed the separator.
  */
  lemma ChooseBehindSeparator(listed: seq<string>)
    requires |listed| >= 1
    ensures ChooseCategory("\U{1C}1", listed) == NewCategory("1")
  {
    SeparatorIsNotIntSpace();
  }

  /** `periods.get(choice, "all")`. */
  function PeriodForChoice(choice: string): (period: string)
    ensures period == "day" || period == "week" || period == "month" || period == "all"
    ensures period == "all" <==> choice != "1" && choice != "2" && choice != "3"
  {
    if choice == "1" then "day"
    else if choice == "2" then "week"
    else if choice == "3" then "month"
    else "all"
  }

  /**
    Choices "1" to "3" filter by a window ending now; "4" and every
    unrecognised answer list the whole table.
  */
  lemma PeriodChoices(choice: string, rows: seq<Expense>, now: Timestamp)
    ensures PeriodWindow(PeriodForChoice(choice), now).Some? <==> choice == "1" || choice == "2" || choice == "3"
    ensures choice == "1" ==> PeriodWindow(PeriodForChoice(choice), now) == Some(Between(StartOfDay(now), now))
    ensures choice == "2" ==> PeriodWindow(PeriodForChoice(choice), now) == Some(Between(now - 7 * SecondsPerDay, now))
    ensures choice == "3" ==> PeriodWindow(PeriodForChoice(choice), now) == Some(Between(now - 30 * SecondsPerDay, now))
    ensures choice != "1" && choice != "2" && choice != "3" ==>
      multiset(View(rows, PeriodForChoice(choice), now)) == multiset(rows)
  {
    if choice != "1" && choice != "2" && choice != "3" {
      ViewAll(rows, PeriodForChoice(choice), now);
    }
  }

  /**
    Menu choice "1" once the amount has been read: the categories are listed
    sorted, the answer selects one or names a new one, a new one is
    registered with `add_category` (a known name only draws the warning), and
    the expense is added under the chosen name. The category is registered
    afterwards unless the store failed while registering it.
  */
  method AddExpenseFlow(tracker: ExpenseTracker, amount: real, answer: string, description: string,
                        now: Timestamp, categoryFault: bool, expenseFault: bool)
    returns (choice: CategoryChoice, outcome: InsertOutcome)
    requires tracker.Valid()
    modifies tracker
    ensures tracker.Valid()
    ensures choice == ChooseCategory(answer, GetCategories(old(tracker.categories)))
    ensures choice.Existing? || choice.name in Names(old(tracker.categories)) || categoryFault ==>
      tracker.categories == old(tracker.categories) && tracker.lastCategoryId == old(tracker.lastCategoryId)
    ensures choice.NewCategory? && choice.name !in Names(old(tracker.categories)) && !categoryFault ==>
      && tracker.categories == old(tracker.categories) + [Category(old(tracker.lastCategoryId) + 1, choice.name)]
      && tracker.lastCategoryId == old(tracker.lastCategoryId) + 1
    ensures !categoryFault ==> choice.name in Names(tracker.categories)
    ensures outcome == if expenseFault then StoreError else Inserted
    ensures outcome == Inserted ==>
      && tracker.expenses == old(tracker.expenses) + [Expense(old(tracker.lastExpenseId) + 1, amount, choice.name, description, now)]
      && tracker.lastExpenseId == old(tracker.lastExpenseId) + 1
    ensures outcome == StoreError ==> tracker.expenses == old(tracker.expenses) && tracker.lastExpenseId == old(tracker.lastExpenseId)
  {
    var listed := GetCategories(tracker.categories);
    choice := ChooseCategory(answer, listed);
    RegisterChoice(tracker, choice, categoryFault);
    outcome := tracker.AddExpense(amount, choice.name, description, now, expenseFault);
  }

  /**
    The category step of the flow: a new name goes to `add_category`, which
    registers it unless it is known already or the store fails; an existing
    category needs nothing. `expenses` is not touched.
  */
  method RegisterChoice(tracker: ExpenseTracker, choice: CategoryChoice, fault: bool)
    requires tracker.Valid()
    modifies tracker
    ensures tracker.Valid()
    ensures tracker.expenses == old(tracker.expenses) && tracker.lastExpenseId == old(tracker.lastExpenseId)
    ensures choice.Existing? || choice.name in Names(old(tracker.categories)) || fault ==>
      tracker.categories == old(tracker.categories) && tracker.lastCategoryId == old(tracker.lastCategoryId)
    ensures choice.NewCategory? && choice.name !in Names(old(tracker.categories)) && !fault ==>
      && tracker.categories == old(tracker.categories) + [Category(old(tracker.lastCategoryId) + 1, choice.name)]
      && tracker.lastCategoryId == old(tracker.lastCategoryId) + 1
      && choice.name in Names(tracker.categories)
  {
    if choice.NewCategory? {
      var registered := tracker.AddCategory(choice.name, fault);
      if registered == Inserted {
        assert Names(tracker.categories) == Names(old(tracker.categories)) + [choice.name];
      }
    }
  }

  /** Menu choice "4": the typed name, stripped, goes to `add_category`. */
  method AddCategoryFlow(tracker: ExpenseTracker, answer: string, fault: bool) returns (outcome: InsertOutcome)
    requires tracker.Valid()
    modifies tracker
    ensures tracker.Valid()
    ensures tracker.expenses == old(tracker.expenses) && tracker.lastExpenseId == old(tracker.lastExpenseId)
    ensures outcome == if Strip(answer) in Names(old(tracker.categories)) then AlreadyExists
                       else if fault then StoreError
                       else Inserted
    ensures outcome == Inserted ==>
      && tracker.categories == old(tracker.categories) + [Category(old(tracker.lastCategoryId) + 1, Strip(answer))]
      && tracker.lastCategoryId == old(tracker.lastCategoryId) + 1
    ensures outcome != Inserted ==> tracker.categories == old(tracker.categories) && tracker.lastCategoryId == old(tracker.lastCategoryId)
  {
    outcome := tracker.AddCategory(Strip(answer), fault);
  }
}
