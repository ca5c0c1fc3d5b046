/** The budget and expense ledger of the expenses page: guarded add and delete
    handlers over two lists, the per-category spend of the picked month, and the
    capped percentage shown for each budget. Amounts are in cents. */
module Expenses {
  import opened Basics
  import opened Dates
  import Text
  import Seqs

  datatype Budget = Budget(id: string, category: string, amount: int)

  datatype Expense = Expense(id: string, title: string, amount: int, date: Date, category: string, note: Option<string>)

  /** The category an expense without one is filed and counted under. */
  const Uncategorized: string := "Uncategorized"

  /** The budget `addBudget` appends, or `None` when one of the two raw fields is empty.
      The guard tests the untrimmed category; the stored category is trimmed. */
  function NewBudget(categoryInput: string, amountInput: NumberInput, id: string): (r: Option<Budget>)
    ensures r.None? <==> categoryInput == [] || amountInput.Blank?
    ensures r.Some? ==> r.value.id == id && r.value.amount == amountInput.cents
    ensures r.Some? ==> r.value.category == Text.Trim(categoryInput)
    ensures r.Some? ==> r.value.category == [] || (!Text.IsSpace(r.value.category[0]) && !Text.IsSpace(r.value.category[|r.value.category| - 1]))
  {
    if categoryInput == [] || amountInput.Blank? then None
    else Some(Budget(id, Text.Trim(categoryInput), amountInput.cents))
  }

  /** A category made of spaces only passes the emptiness guard and is stored as the empty string. */
  lemma BlankCategoryStoredEmpty(categoryInput: string, cents: int, id: string)
    requires categoryInput != []
    requires forall i :: 0 <= i < |categoryInput| ==> Text.IsSpace(categoryInput[i])
    ensures NewBudget(categoryInput, Entered(cents), id) == Some(Budget(id, "", cents))
  {
    Text.TrimEmptyIff(categoryInput);
  }

  /** The expense `addExpense` appends, or `None` when the title or the amount is empty, or when
      the date field is empty (then `new Date("").toISOString()` throws before anything is stored).
      An empty category becomes "Uncategorized" and an empty note becomes absent. */
  function NewExpense(title: string, amountInput: NumberInput, dateInput: Option<Date>,
                      category: string, note: string, id: string): (r: Option<Expense>)
    ensures r.None? <==> title == [] || amountInput.Blank? || dateInput.None?
    ensures r.Some? ==> r.value.id == id && r.value.title == title && r.value.amount == amountInput.cents
    ensures r.Some? ==> r.value.date == dateInput.value
    ensures r.Some? ==> r.value.category != []
    ensures r.Some? ==> (r.value.category == Uncategorized <==> category == [] || category == Uncategorized)
    ensures r.Some? && category != [] ==> r.value.category == category
    ensures r.Some? ==> (r.value.note == None <==> note == [])
    ensures r.Some? && r.value.note.Some? ==> r.value.note.value == note
  {
    if title == [] || amountInput.Blank? || dateInput.None? then None
    else
      Some(Expense(id, title, amountInput.cents, dateInput.value,
                   if category == [] then Uncategorized else category,
                   if note == [] then None else Some(note)))
  }

  /** `budgets.filter(b => b.id !== id)`. */
  function WithoutBudget(budgets: seq<Budget>, id: string): (r: seq<Budget>)
    ensures forall i :: 0 <= i < |r| ==> r[i].id != id && r[i] in budgets
    ensures forall i :: 0 <= i < |budgets| && budgets[i].id != id ==> budgets[i] in r
    ensures (forall i :: 0 <= i < |budgets| ==> budgets[i].id != id) ==> r == budgets
  {
    Seqs.Filter(budgets, (b: Budget) => b.id != id)
  }

  /** `expenses.filter(e => e.id !== id)`. */
  function WithoutExpense(expenses: seq<Expense>, id: string): (r: seq<Expense>)
    ensures forall i :: 0 <= i < |r| ==> r[i].id != id && r[i] in expenses
    ensures forall i :: 0 <= i < |expenses| && expenses[i].id != id ==> expenses[i] in r
    ensures (forall i :: 0 <= i < |expenses| ==> expenses[i].id != id) ==> r == expenses
  {
    Seqs.Filter(expenses, (e: Expense) => e.id != id)
  }

  /** Deleting distributes over a split of the list, so the survivors keep their order. */
  lemma WithoutExpenseKeepsOrder(a: seq<Expense>, b: seq<Expense>, id: string)
    ensures WithoutExpense(a + b, id) == WithoutExpense(a, id) + WithoutExpense(b, id)
  {
    Seqs.FilterAppend(a, b, (e: Expense) => e.id != id);
  }

  /** Deleting distributes over a split of the list, so the survivors keep their order. */
  lemma WithoutBudgetKeepsOrder(a: seq<Budget>, b: seq<Budget>, id: string)
    ensures WithoutBudget(a + b, id) == WithoutBudget(a, id) + WithoutBudget(b, id)
  {
    Seqs.FilterAppend(a, b, (x: Budget) => x.id != id);
  }

  /** `exp.category || 'Uncategorized'`: the key an expense is summed under. */
  function CategoryOf(e: Expense): (c: string)
    ensures c != []
    ensures e.category != [] ==> c == e.category
    ensures e.category == [] ==> c == Uncategorized
  {
    if e.category == [] then Uncategorized else e.category
  }

  /** Whether an expense falls in `[first of month, first of next month)`. A cleared month
      picker (`None`) yields invalid dates, against which every comparison is false. */
  predicate Counts(e: Expense, month: Option<YearMonth>)
    ensures ValidDate(e.date) ==>
              (Counts(e, month) <==> month.Some? && ValidMonth(month.value)
                                     && e.date.year == ConstructorYear(month.value.year)
                                     && e.date.month == month.value.month)
  {
    if month.Some? && ValidMonth(month.value) && ValidDate(e.date) then
      InMonthIff(e.date, month.value);
      InMonth(e.date, month.value)
    else
      month.Some? && ValidMonth(month.value) && InMonth(e.date, month.value)
  }

  /** `sums[cat] = sums[cat] || { spent: 0 }; sums[cat].spent += amount`. */
  function Credit(sums: map<string, int>, cat: string, amount: int): (r: map<string, int>)
    ensures r.Keys == sums.Keys + {cat}
    ensures r[cat] == (if cat in sums then sums[cat] else 0) + amount
    ensures forall k :: k in sums && k != cat ==> r[k] == sums[k]
  {
    sums[cat := (if cat in sums then sums[cat] else 0) + amount]
  }

  /** The summary the `forEach` builds, one expense at a time from the front of the list. */
  function Summary(expenses: seq<Expense>, month: Option<YearMonth>): (r: map<string, int>)
    ensures forall k :: k in r ==> k != []
    decreases |expenses|
  {
    if expenses == [] then map[]
    else
      var sums := Summary(expenses[..|expenses| - 1], month);
      var e := expenses[|expenses| - 1];
      if Counts(e, month) then Credit(sums, CategoryOf(e), e.amount) else sums
  }

  /** Reference definition: the total of the expenses of `month` filed under `cat`. */
  function SpentIn(expenses: seq<Expense>, month: Option<YearMonth>, cat: string): int {
    if expenses == [] then 0
    else
      (if Counts(expenses[0], month) && CategoryOf(expenses[0]) == cat then expenses[0].amount else 0)
      + SpentIn(expenses[1..], month, cat)
  }

  /** Some expense of `month` is filed under `cat`. */
  predicate HasCharge(expenses: seq<Expense>, month: Option<YearMonth>, cat: string) {
    exists i :: 0 <= i < |expenses| && Counts(expenses[i], month) && CategoryOf(expenses[i]) == cat
  }

  lemma {:induction false} SpentInAppend(a: seq<Expense>, b: seq<Expense>, month: Option<YearMonth>, cat: string)
    ensures SpentIn(a + b, month, cat) == SpentIn(a, month, cat) + SpentIn(b, month, cat)
  {
    if a == [] {
      assert a + b == b;
    } else {
      assert (a + b)[1..] == a[1..] + b;
      SpentInAppend(a[1..], b, month, cat);
    }
  }

  lemma {:induction false} NoChargeNothingSpent(expenses: seq<Expense>, month: Option<YearMonth>, cat: string)
    requires !HasCharge(expenses, month, cat)
    ensures SpentIn(expenses, month, cat) == 0
  {
    if expenses != [] {
      assert !Counts(expenses[0], month) || CategoryOf(expenses[0]) != cat;
      assert !HasCharge(expenses[1..], month, cat) by {
        forall i | 0 <= i < |expenses[1..]| ensures !(Counts(expenses[1..][i], month) && CategoryOf(expenses[1..][i]) == cat) {
          assert expenses[1..][i] == expenses[i + 1];
        }
      }
      NoChargeNothingSpent(expenses[1..], month, cat);
    }
  }

  /** An expense added at the end charges `cat` exactly when it or an earlier one does. */
  lemma HasChargeSnoc(p: seq<Expense>, e: Expense, month: Option<YearMonth>, cat: string)
    ensures HasCharge(p + [e], month, cat) <==> HasCharge(p, month, cat) || (Counts(e, month) && CategoryOf(e) == cat)
  {
    var s := p + [e];
    if HasCharge(s, month, cat) {
      var i :| 0 <= i < |s| && Counts(s[i], month) && CategoryOf(s[i]) == cat;
      if i < |p| { assert p[i] == s[i]; } else { assert s[i] == e; }
    }
    if HasCharge(p, month, cat) {
      var i :| 0 <= i < |p| && Counts(p[i], month) && CategoryOf(p[i]) == cat;
      assert s[i] == p[i];
    }
    if Counts(e, month) && CategoryOf(e) == cat {
      assert s[|p|] == e;
    }
  }

  /** The summary has an entry exactly for the categories with an expense in the month, and
      that entry is the total of those expenses; expenses outside the month add nothing. */
  lemma {:induction false} SummaryMeaning(expenses: seq<Expense>, month: Option<YearMonth>, cat: string)
    ensures cat in Summary(expenses, month) <==> HasCharge(expenses, month, cat)
    ensures cat in Summary(expenses, month) ==> Summary(expenses, month)[cat] == SpentIn(expenses, month, cat)
    decreases |expenses|
  {
    if expenses != [] {
      var n := |expenses| - 1;
      var p, e := expenses[..n], expenses[n];
      assert expenses == p + [e];
      SummaryMeaning(p, month, cat);
      SpentInAppend(p, [e], month, cat);
      assert SpentIn([e], month, cat) == (if Counts(e, month) && CategoryOf(e) == cat then e.amount else 0) + SpentIn([], month, cat);
      HasChargeSnoc(p, e, month, cat);
      if !HasCharge(p, month, cat) {
        NoChargeNothingSpent(p, month, cat);
      }
    }
  }

  /** `summaryCache[category]?.spent || 0`: a category without an entry reads as 0. */
  function SpentFor(sums: map<string, int>, category: string): (spent: int)
    ensures category !in sums ==> spent == 0
    ensures category in sums ==> spent == sums[category]
  {
    if category in sums then sums[category] else 0
  }

  /** What a budget shows as spent is the total of the month's expenses filed under its category. */
  lemma SpentForIsMonthTotal(expenses: seq<Expense>, month: Option<YearMonth>, cat: string)
    ensures SpentFor(Summary(expenses, month), cat) == SpentIn(expenses, month, cat)
  {
    SummaryMeaning(expenses, month, cat);
    if cat !in Summary(expenses, month) {
      NoChargeNothingSpent(expenses, month, cat);
    }
  }

  /** An expense dated outside the picked month leaves the summary as it was. */
  lemma OutOfMonthIgnored(expenses: seq<Expense>, e: Expense, month: Option<YearMonth>)
    requires !Counts(e, month)
    ensures Summary(expenses + [e], month) == Summary(expenses, month)
  {
    assert (expenses + [e])[..|expenses|] == expenses;
  }

  /** One more expense at the end credits its category, when it counts. */
  lemma SummarySnoc(expenses: seq<Expense>, month: Option<YearMonth>)
    requires expenses != []
    ensures var p, e := expenses[..|expenses| - 1], expenses[|expenses| - 1];
            Summary(expenses, month) == if Counts(e, month) then Credit(Summary(p, month), CategoryOf(e), e.amount)
                                        else Summary(p, month)
  {
  }

  /** The `forEach` loop of the summary effect: builds the per-category totals of the month. */
  method ComputeSummary(expenses: seq<Expense>, month: Option<YearMonth>) returns (sums: map<string, int>)
    ensures sums == Summary(expenses, month)
  {
    sums := map[];
    var i := 0;
    while i < |expenses|
      invariant 0 <= i <= |expenses|
      invariant sums == Summary(expenses[..i], month)
    {
      var e := expenses[i];
      assert expenses[..i + 1][..i] == expenses[..i] && expenses[..i + 1][i] == e;
      SummarySnoc(expenses[..i + 1], month);
      if Counts(e, month) {
        var cat := CategoryOf(e);
        var spent := if cat in sums then sums[cat] else 0;
        sums := sums[cat := spent + e.amount];
      }
      i := i + 1;
    }
    assert expenses[..|expenses|] == expenses;
  }

  /** `Math.round(spent / amount * 100)` for a positive amount: the nearest integer, halves rounded up. */
  function RoundedShare(spent: int, amount: int): (q: int)
    requires amount > 0
    ensures 2 * amount * q - amount <= 200 * spent < 2 * amount * q + amount
  {
    var q := (200 * spent + amount) / (2 * amount);
    var r := (200 * spent + amount) % (2 * amount);
    assert 200 * spent + amount == 2 * amount * q + r && 0 <= r < 2 * amount;
    q
  }

  /** The rounded share is at least 100 once the budget is used up, and not negative for a non-negative spend. */
  lemma RoundedShareBounds(spent: int, amount: int)
    requires amount > 0
    ensures spent >= amount ==> RoundedShare(spent, amount) >= 100
    ensures spent >= 0 ==> RoundedShare(spent, amount) >= 0
  {
    var q := RoundedShare(spent, amount);
    if spent >= amount && q < 100 {
      ProductNonNegative(2 * amount, 99 - q);
      assert false;
    }
    if spent >= 0 && q < 0 {
      ProductNonNegative(2 * amount, -1 - q);
      assert false;
    }
  }

  lemma ProductNonNegative(a: int, b: int)
    requires a >= 0 && b >= 0
    ensures a * b >= 0
  {
  }

  /** The budget's percentage: 0 for a budget amount of 0 or less, otherwise the rounded share
      capped at 100, with no lower cap. */
  function Percentage(spent: int, amount: int): (p: int)
    ensures p <= 100
    ensures amount <= 0 ==> p == 0
    ensures amount > 0 && spent >= amount ==> p == 100
    ensures amount > 0 && spent >= 0 ==> 0 <= p
    ensures amount > 0 && p < 100 ==> 2 * amount * p - amount <= 200 * spent < 2 * amount * p + amount
    ensures amount > 0 ==> p == (if RoundedShare(spent, amount) < 100 then RoundedShare(spent, amount) else 100)
  {
    if amount > 0 then
      RoundedShareBounds(spent, amount);
      var q := RoundedShare(spent, amount);
      if q < 100 then q else 100
    else 0
  }

  /** A refund recorded as a negative expense shows a negative percentage. */
  lemma NegativeSpendNegativePercentage()
    ensures Percentage(-50, 200) == -25
  {
    assert RoundedShare(-50, 200) == -25;
  }

  /** One line of the budget summary. */
  datatype BudgetLine = BudgetLine(category: string, spent: int, percent: int, amount: int)

  /** Two Food expenses of June 2024 and one Transport expense against a Food budget of 200:
      the Food line shows 80 spent and 40 percent. */
  lemma FoodBudgetScenario()
    ensures var june := Some(YearMonth(2024, 6));
            var es := [Expense("1", "Groceries", 50, Date(2024, 6, 3), "Food", None),
                       Expense("2", "Bakery", 30, Date(2024, 6, 10), "Food", None),
                       Expense("3", "Bus", 10, Date(2024, 6, 11), "Transport", None),
                       Expense("4", "Fruit", 40, Date(2024, 7, 1), "Food", None)];
            SpentFor(Summary(es, june), "Food") == 80
            && Percentage(SpentFor(Summary(es, june), "Food"), 200) == 40
            && SpentFor(Summary(es, june), "Transport") == 10
  {
    var june := Some(YearMonth(2024, 6));
    var es := [Expense("1", "Groceries", 50, Date(2024, 6, 3), "Food", None),
               Expense("2", "Bakery", 30, Date(2024, 6, 10), "Food", None),
               Expense("3", "Bus", 10, Date(2024, 6, 11), "Transport", None),
               Expense("4", "Fruit", 40, Date(2024, 7, 1), "Food", None)];
    assert es[..1][..0] == [];
    assert es[..2][..1] == es[..1];
    assert es[..3][..2] == es[..2];
    assert es[..4][..3] == es[..3];
    assert es[..4] == es;
    assert Summary(es[..1], june) == map["Food" := 50];
    assert Summary(es[..2], june) == map["Food" := 80];
    assert Summary(es[..3], june) == map["Food" := 80, "Transport" := 10];
    assert !Counts(es[3], june);
    assert Summary(es, june) == map["Food" := 80, "Transport" := 10];
    assert RoundedShare(80, 200) == 40;
  }

  /** The ledger state of the expenses page: the two lists, the picked month and the summary
      the effect derives from them. */
  class Ledger {
    var budgets: seq<Budget>
    var expenses: seq<Expense>
    var selectedMonth: Option<YearMonth>
    var summaryCache: map<string, int>

    /** The summary effect has run for the current expenses and month. */
    ghost predicate Valid()
      reads this
    {
      summaryCache == Summary(expenses, selectedMonth)
    }

    constructor (month: Option<YearMonth>)
      ensures Valid()
      ensures budgets == [] && expenses == [] && selectedMonth == month
    {
      budgets, expenses, selectedMonth := [], [], month;
      summaryCache := map[];
    }

    /** The line the summary panel shows for budget `b`. */
    function Line(b: Budget): (line: BudgetLine)
      reads this
      requires Valid()
      ensures line.category == b.category && line.amount == b.amount
      ensures line.spent == SpentIn(expenses, selectedMonth, b.category)
      ensures line.percent == Percentage(line.spent, b.amount)
    {
      SpentForIsMonthTotal(expenses, selectedMonth, b.category);
      var spent := SpentFor(summaryCache, b.category);
      BudgetLine(b.category, spent, Percentage(spent, b.amount), b.amount)
    }

    method AddBudget(categoryInput: string, amountInput: NumberInput, id: string)
      requires Valid()
      modifies this
      ensures Valid()
      ensures budgets == match NewBudget(categoryInput, amountInput, id)
                         case None => old(budgets)
                         case Some(b) => old(budgets) + [b]
      ensures expenses == old(expenses) && selectedMonth == old(selectedMonth)
    {
      var b := NewBudget(categoryInput, amountInput, id);
      if b.Some? {
        budgets := budgets + [b.value];
      }
    }

    method DeleteBudget(id: string)
      requires Valid()
      modifies this
      ensures Valid()
      ensures budgets == WithoutBudget(old(budgets), id)
      ensures expenses == old(expenses) && selectedMonth == old(selectedMonth)
    {
      budgets := WithoutBudget(budgets, id);
    }

    method AddExpense(title: string, amountInput: NumberInput, dateInput: Option<Date>,
                      category: string, note: string, id: string)
      requires Valid()
      modifies this
      ensures Valid()
      ensures expenses == match NewExpense(title, amountInput, dateInput, category, note, id)
                          case None => old(expenses)
                          case Some(e) => old(expenses) + [e]
      ensures budgets == old(budgets) && selectedMonth == old(selectedMonth)
    {
      var e := NewExpense(title, amountInput, dateInput, category, note, id);
      if e.Some? {
        expenses := expenses + [e.value];
        summaryCache := ComputeSummary(expenses, selectedMonth);
      }
    }

    method DeleteExpense(id: string)
      requires Valid()
      modifies this
      ensures Valid()
      ensures expenses == WithoutExpense(old(expenses), id)
      ensures budgets == old(budgets) && selectedMonth == old(selectedMonth)
    {
      expenses := WithoutExpense(expenses, id);
      summaryCache := ComputeSummary(expenses, selectedMonth);
    }

    /** Picking another month in the month input re-runs the summary effect. */
    method SelectMonth(month: Option<YearMonth>)
      requires Valid()
      modifies this
      ensures Valid()
      ensures selectedMonth == month
      ensures budgets == old(budgets) && expenses == old(expenses)
    {
      selectedMonth := month;
      summaryCache := ComputeSummary(expenses, selectedMonth);
    }
  }
}
