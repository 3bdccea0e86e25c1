/**
 * The computations of a user's ledger (user.py) that read the transaction
 * list without changing it: the sign rule of `add_transaction`, the filters
 * and the newest-first order of `get_transactions`, and the sums behind
 * `get_balance_summary` and `get_category_summary`.
 */
module Ledger {
  import opened Wrappers
  import opened Text
  import opened Transactions

  function Abs(x: int): nat {
    if x < 0 then -x else x
  }

  // ---------------------------------------------------------------- sign rule

  /**
   * The amount `add_transaction` stores: a positive amount typed "expense"
   * (any case) is negated, a negative amount typed "income" is made positive,
   * anything else (zero, or an unknown type) is kept.
   */
  function CoercedAmount(amount: int, transactionType: string): (r: int)
    ensures Lower(transactionType) == "expense" ==> r <= 0 && Abs(r) == Abs(amount)
    ensures Lower(transactionType) == "income" ==> r >= 0 && Abs(r) == Abs(amount)
    ensures Lower(transactionType) != "expense" && Lower(transactionType) != "income" ==> r == amount
  {
    if Lower(transactionType) == "expense" && amount > 0 then -amount
    else if Lower(transactionType) == "income" && amount < 0 then Abs(amount)
    else amount
  }

  // ---------------------------------------------------------------- filters

  /** The optional arguments of `get_transactions`. */
  datatype Filter = Filter(startDate: Option<string>, endDate: Option<string>, transactionType: Option<string>)

  const NoFilter := Filter(None, None, None)

  /** Python's truth test on an optional string: `None` and `""` both skip the filter. */
  predicate Given(o: Option<string>) {
    o.Some? && o.value != ""
  }

  /** Reference: the entries `get_transactions` keeps. */
  predicate Matches(t: Transaction, f: Filter) {
    && (Given(f.startDate) ==> LexLe(f.startDate.value, t.date))
    && (Given(f.endDate) ==> LexLe(t.date, f.endDate.value))
    && (Given(f.transactionType) ==> Lower(t.transactionType) == Lower(f.transactionType.value))
  }

  /** Reference: the entries matching `f`, in their original order. */
  function Selection(ts: seq<Transaction>, f: Filter): seq<Transaction> {
    if ts == [] then []
    else (if Matches(ts[0], f) then [ts[0]] else []) + Selection(ts[1..], f)
  }

  /** One condition of one list comprehension in `get_transactions`. */
  datatype Criterion = OnOrAfter(start: string) | OnOrBefore(end: string) | OfType(wanted: string)

  predicate Meets(t: Transaction, c: Criterion) {
    match c
    case OnOrAfter(start) => LexLe(start, t.date)
    case OnOrBefore(end) => LexLe(t.date, end)
    case OfType(wanted) => Lower(t.transactionType) == Lower(wanted)
  }

  /** `[t for t in ts if <c>]`. */
  function Keep(ts: seq<Transaction>, c: Criterion): seq<Transaction> {
    if ts == [] then []
    else (if Meets(ts[0], c) then [ts[0]] else []) + Keep(ts[1..], c)
  }

  /** The three comprehensions as `get_transactions` chains them, each only when its argument is given. */
  function Filtered(ts: seq<Transaction>, f: Filter): seq<Transaction> {
    var byStart := if Given(f.startDate) then Keep(ts, OnOrAfter(f.startDate.value)) else ts;
    var byEnd := if Given(f.endDate) then Keep(byStart, OnOrBefore(f.endDate.value)) else byStart;
    if Given(f.transactionType) then Keep(byEnd, OfType(f.transactionType.value)) else byEnd
  }

  predicate MeetsAll(t: Transaction, cs: seq<Criterion>) {
    forall i :: 0 <= i < |cs| ==> Meets(t, cs[i])
  }

  function KeepAll(ts: seq<Transaction>, cs: seq<Criterion>): seq<Transaction> {
    if ts == [] then []
    else (if MeetsAll(ts[0], cs) then [ts[0]] else []) + KeepAll(ts[1..], cs)
  }

  function Criteria(f: Filter): seq<Criterion> {
    (if Given(f.startDate) then [OnOrAfter(f.startDate.value)] else [])
    + (if Given(f.endDate) then [OnOrBefore(f.endDate.value)] else [])
    + (if Given(f.transactionType) then [OfType(f.transactionType.value)] else [])
  }

  lemma {:induction false} KeepAllNothing(ts: seq<Transaction>)
    ensures KeepAll(ts, []) == ts
  {
    if ts != [] {
      KeepAllNothing(ts[1..]);
      assert ts == [ts[0]] + ts[1..];
    }
  }

  lemma {:induction false} KeepAfterKeepAll(ts: seq<Transaction>, cs: seq<Criterion>, c: Criterion)
    ensures Keep(KeepAll(ts, cs), c) == KeepAll(ts, cs + [c])
  {
    if ts != [] {
      KeepAfterKeepAll(ts[1..], cs, c);
      var t := ts[0];
      assert MeetsAll(t, cs + [c]) == (MeetsAll(t, cs) && Meets(t, c)) by {
        assert forall i :: 0 <= i < |cs| ==> (cs + [c])[i] == cs[i];
        assert (cs + [c])[|cs|] == c;
      }
      var rest := KeepAll(ts[1..], cs);
      if MeetsAll(t, cs) {
        assert KeepAll(ts, cs) == [t] + rest;
        assert ([t] + rest)[1..] == rest;
      } else {
        assert KeepAll(ts, cs) == rest;
      }
    }
  }

  lemma {:induction false} KeepAllIsSelection(ts: seq<Transaction>, f: Filter)
    ensures KeepAll(ts, Criteria(f)) == Selection(ts, f)
  {
    if ts != [] {
      KeepAllIsSelection(ts[1..], f);
      var cs := Criteria(f);
      var t := ts[0];
      assert MeetsAll(t, cs) == Matches(t, f) by {
        var k := 0;
        if Given(f.startDate) { assert cs[k] == OnOrAfter(f.startDate.value); k := k + 1; }
        if Given(f.endDate) { assert cs[k] == OnOrBefore(f.endDate.value); k := k + 1; }
        if Given(f.transactionType) { assert cs[k] == OfType(f.transactionType.value); }
      }
    }
  }

  /** The chained comprehensions keep exactly the matching entries, in their original order. */
  lemma FilteredIsSelection(ts: seq<Transaction>, f: Filter)
    ensures Filtered(ts, f) == Selection(ts, f)
  {
    var s1 := if Given(f.startDate) then [OnOrAfter(f.startDate.value)] else [];
    var s2 := if Given(f.endDate) then [OnOrBefore(f.endDate.value)] else [];
    var s3 := if Given(f.transactionType) then [OfType(f.transactionType.value)] else [];
    KeepAllNothing(ts);
    if Given(f.startDate) { KeepAfterKeepAll(ts, [], s1[0]); assert [] + s1 == s1; }
    if Given(f.endDate) { KeepAfterKeepAll(ts, s1, s2[0]); } else { assert s1 + s2 == s1; }
    if Given(f.transactionType) { KeepAfterKeepAll(ts, s1 + s2, s3[0]); } else { assert s1 + s2 + s3 == s1 + s2; }
    KeepAllIsSelection(ts, f);
  }

  /** The selection holds each matching entry as often as the ledger does, and nothing else. */
  lemma {:induction false} SelectionCounts(ts: seq<Transaction>, f: Filter)
    ensures forall t :: multiset(Selection(ts, f))[t] == if Matches(t, f) then multiset(ts)[t] else 0
  {
    if ts != [] {
      SelectionCounts(ts[1..], f);
      assert ts == [ts[0]] + ts[1..];
    }
  }

  // ---------------------------------------------------------------- newest first

  /** Non-increasing by date: every later entry's date is `<=` every earlier one's. */
  predicate NewestFirst(ts: seq<Transaction>) {
    forall i, j :: 0 <= i < j < |ts| ==> LexLe(ts[j].date, ts[i].date)
  }

  /** The entries of `ts` dated exactly `d`, in their order in `ts`. */
  function OnDate(ts: seq<Transaction>, d: string): seq<Transaction> {
    if ts == [] then []
    else (if ts[0].date == d then [ts[0]] else []) + OnDate(ts[1..], d)
  }

  /** Places `t` before the first entry not newer than it: ahead of every entry of its own date. */
  function InsertNewestFirst(t: Transaction, ts: seq<Transaction>): seq<Transaction> {
    if ts == [] || LexLe(ts[0].date, t.date) then [t] + ts
    else [ts[0]] + InsertNewestFirst(t, ts[1..])
  }

  /** `sorted(ts, key=lambda x: x.date, reverse=True)`: Python's sort is stable, also in reverse. */
  function SortNewestFirst(ts: seq<Transaction>): seq<Transaction> {
    if ts == [] then [] else InsertNewestFirst(ts[0], SortNewestFirst(ts[1..]))
  }

  /** An ordered list stays ordered without its first entry. */
  lemma NewestFirstTail(ts: seq<Transaction>)
    requires ts != [] && NewestFirst(ts)
    ensures NewestFirst(ts[1..])
  {
    var rest := ts[1..];
    forall i, j | 0 <= i < j < |rest| ensures LexLe(rest[j].date, rest[i].date) {
      assert rest[i] == ts[i + 1] && rest[j] == ts[j + 1];
    }
  }

  /** An entry no older than every entry of an ordered list may head it. */
  lemma NewestFirstCons(x: Transaction, ts: seq<Transaction>)
    requires NewestFirst(ts)
    requires forall k :: 0 <= k < |ts| ==> LexLe(ts[k].date, x.date)
    ensures NewestFirst([x] + ts)
  {
    var r := [x] + ts;
    forall i, j | 0 <= i < j < |r| ensures LexLe(r[j].date, r[i].date) {
      assert r[j] == ts[j - 1];
      if i > 0 { assert r[i] == ts[i - 1]; }
    }
  }

  /** Inserting an entry no later than `d` into entries no later than `d` keeps them all no later than `d`. */
  lemma {:induction false} InsertBounded(t: Transaction, ts: seq<Transaction>, d: string)
    requires LexLe(t.date, d)
    requires forall k :: 0 <= k < |ts| ==> LexLe(ts[k].date, d)
    ensures forall k :: 0 <= k < |InsertNewestFirst(t, ts)| ==> LexLe(InsertNewestFirst(t, ts)[k].date, d)
  {
    if ts != [] && !LexLe(ts[0].date, t.date) {
      var rest := ts[1..];
      assert forall k :: 0 <= k < |rest| ==> rest[k] == ts[k + 1];
      InsertBounded(t, rest, d);
      var r := InsertNewestFirst(t, ts);
      assert r == [ts[0]] + InsertNewestFirst(t, rest);
      assert forall k :: 1 <= k < |r| ==> r[k] == InsertNewestFirst(t, rest)[k - 1];
    }
  }

  lemma {:induction false} InsertCounts(t: Transaction, ts: seq<Transaction>)
    ensures multiset(InsertNewestFirst(t, ts)) == multiset(ts) + multiset{t}
  {
    if ts != [] && !LexLe(ts[0].date, t.date) {
      InsertCounts(t, ts[1..]);
      assert ts == [ts[0]] + ts[1..];
    }
  }

  lemma {:induction false} InsertKeepsOrder(t: Transaction, ts: seq<Transaction>)
    requires NewestFirst(ts)
    ensures NewestFirst(InsertNewestFirst(t, ts))
    ensures multiset(InsertNewestFirst(t, ts)) == multiset(ts) + multiset{t}
  {
    InsertCounts(t, ts);
    if ts == [] {
    } else if LexLe(ts[0].date, t.date) {
      forall j | 0 <= j < |ts| ensures LexLe(ts[j].date, t.date) {
        if j > 0 { LexLeTransitive(ts[j].date, ts[0].date, t.date); }
      }
      NewestFirstCons(t, ts);
    } else {
      LexLeTotal(ts[0].date, t.date);
      var rest := ts[1..];
      NewestFirstTail(ts);
      InsertKeepsOrder(t, rest);
      assert forall k :: 0 <= k < |rest| ==> rest[k] == ts[k + 1];
      InsertBounded(t, rest, ts[0].date);
      NewestFirstCons(ts[0], InsertNewestFirst(t, rest));
    }
  }

  lemma {:induction false} SortIsOrdered(ts: seq<Transaction>)
    ensures NewestFirst(SortNewestFirst(ts))
    ensures multiset(SortNewestFirst(ts)) == multiset(ts)
  {
    if ts != [] {
      SortIsOrdered(ts[1..]);
      InsertKeepsOrder(ts[0], SortNewestFirst(ts[1..]));
      assert ts == [ts[0]] + ts[1..];
    }
  }

  lemma {:induction false} OnDateCons(t: Transaction, ts: seq<Transaction>, d: string)
    ensures OnDate([t] + ts, d) == (if t.date == d then [t] else []) + OnDate(ts, d)
  {
    assert ([t] + ts)[0] == t;
    assert ([t] + ts)[1..] == ts;
  }

  lemma {:induction false} InsertIsStable(t: Transaction, ts: seq<Transaction>, d: string)
    requires NewestFirst(ts)
    ensures OnDate(InsertNewestFirst(t, ts), d) == OnDate([t] + ts, d)
  {
    if ts != [] && !LexLe(ts[0].date, t.date) {
      var rest := ts[1..];
      NewestFirstTail(ts);
      InsertIsStable(t, rest, d);
      LexLeReflexive(t.date);
      var here := if ts[0].date == d then [ts[0]] else [];
      var mine := if t.date == d then [t] else [];
      assert here == [] || mine == [];
      OnDateCons(ts[0], InsertNewestFirst(t, rest), d);
      OnDateCons(t, rest, d);
      assert OnDate(InsertNewestFirst(t, ts), d) == here + (mine + OnDate(rest, d));
      assert ts == [ts[0]] + rest;
      OnDateCons(ts[0], rest, d);
      OnDateCons(t, ts, d);
      assert OnDate([t] + ts, d) == mine + (here + OnDate(rest, d));
    }
  }

  /** Sorting keeps the entries of each date in their original relative order. */
  lemma {:induction false} SortIsStable(ts: seq<Transaction>, d: string)
    ensures OnDate(SortNewestFirst(ts), d) == OnDate(ts, d)
  {
    if ts != [] {
      SortIsStable(ts[1..], d);
      SortIsOrdered(ts[1..]);
      InsertIsStable(ts[0], SortNewestFirst(ts[1..]), d);
      OnDateCons(ts[0], SortNewestFirst(ts[1..]), d);
      assert ts == [ts[0]] + ts[1..];
      OnDateCons(ts[0], ts[1..], d);
    }
  }

  /**
   * `get_transactions`: the entries matching the filter, newest first, holding
   * each matching entry as often as the ledger does, with entries of one date
   * in insertion order.
   */
  function Query(ts: seq<Transaction>, f: Filter): (r: seq<Transaction>)
    ensures NewestFirst(r)
    ensures forall t :: multiset(r)[t] == if Matches(t, f) then multiset(ts)[t] else 0
    ensures forall d :: OnDate(r, d) == OnDate(Selection(ts, f), d)
  {
    FilteredIsSelection(ts, f);
    SelectionCounts(ts, f);
    SortIsOrdered(Selection(ts, f));
    forall d ensures OnDate(SortNewestFirst(Selection(ts, f)), d) == OnDate(Selection(ts, f), d) {
      SortIsStable(Selection(ts, f), d);
    }
    SortNewestFirst(Filtered(ts, f))
  }

  /** A start bound excludes every earlier date, an end bound every later one. */
  lemma QueryRespectsBounds(ts: seq<Transaction>, f: Filter, t: Transaction)
    requires t in Query(ts, f)
    ensures Given(f.startDate) ==> LexLe(f.startDate.value, t.date)
    ensures Given(f.endDate) ==> LexLe(t.date, f.endDate.value)
    ensures t in ts
  {
    assert multiset(Query(ts, f))[t] > 0;
  }

  // ---------------------------------------------------------------- sums

  function IncomePart(t: Transaction): int {
    if t.amount > 0 then t.amount else 0
  }

  function ExpensePart(t: Transaction): int {
    if t.amount < 0 then t.amount else 0
  }

  function AmountOf(t: Transaction): int {
    t.amount
  }

  /** `sum(part(t) for t in ts)`. */
  function SumOf(ts: seq<Transaction>, part: Transaction -> int): int {
    if ts == [] then 0 else part(ts[0]) + SumOf(ts[1..], part)
  }

  lemma {:induction false} SumOfAppend(a: seq<Transaction>, b: seq<Transaction>, part: Transaction -> int)
    ensures SumOf(a + b, part) == SumOf(a, part) + SumOf(b, part)
  {
    if a != [] {
      assert (a + b)[1..] == a[1..] + b;
      SumOfAppend(a[1..], b, part);
    } else {
      assert a + b == b;
    }
  }

  lemma {:induction false} SumOfIncomeIsNonNegative(ts: seq<Transaction>)
    ensures SumOf(ts, IncomePart) >= 0
  {
    if ts != [] { SumOfIncomeIsNonNegative(ts[1..]); }
  }

  lemma {:induction false} SumOfExpensesIsNonPositive(ts: seq<Transaction>)
    ensures SumOf(ts, ExpensePart) <= 0
  {
    if ts != [] { SumOfExpensesIsNonPositive(ts[1..]); }
  }

  /** Every amount is either income or expense or zero, so the parts add up to the whole. */
  lemma {:induction false} SumOfSplits(ts: seq<Transaction>)
    ensures SumOf(ts, AmountOf) == SumOf(ts, IncomePart) + SumOf(ts, ExpensePart)
  {
    if ts != [] { SumOfSplits(ts[1..]); }
  }

  lemma {:induction false} SumOfInsert(t: Transaction, ts: seq<Transaction>, part: Transaction -> int)
    ensures SumOf(InsertNewestFirst(t, ts), part) == part(t) + SumOf(ts, part)
  {
    if ts != [] && !LexLe(ts[0].date, t.date) {
      SumOfInsert(t, ts[1..], part);
    }
  }

  /** Reordering does not change a sum. */
  lemma {:induction false} SumOfSorted(ts: seq<Transaction>, part: Transaction -> int)
    ensures SumOf(SortNewestFirst(ts), part) == SumOf(ts, part)
  {
    if ts != [] {
      SumOfSorted(ts[1..], part);
      SumOfInsert(ts[0], SortNewestFirst(ts[1..]), part);
    }
  }

  function TotalIncome(ts: seq<Transaction>): (r: int)
    ensures r >= 0
  {
    SumOfIncomeIsNonNegative(ts);
    SumOf(ts, IncomePart)
  }

  /** `abs(sum(t.amount for t in ts if t.amount < 0))`. */
  function TotalExpenses(ts: seq<Transaction>): (r: int)
    ensures r == -SumOf(ts, ExpensePart)
  {
    SumOfExpensesIsNonPositive(ts);
    Abs(SumOf(ts, ExpensePart))
  }

  /**
   * Sorting does not change what a query adds up to: any per-entry sum and the
   * entry count of `get_transactions` are those of the plain selection.
   */
  lemma QuerySums(ts: seq<Transaction>, f: Filter, part: Transaction -> int)
    ensures SumOf(Query(ts, f), part) == SumOf(Selection(ts, f), part)
    ensures |Query(ts, f)| == |Selection(ts, f)|
  {
    FilteredIsSelection(ts, f);
    SumOfSorted(Selection(ts, f), part);
    SortIsOrdered(Selection(ts, f));
    assert |multiset(Query(ts, f))| == |multiset(Selection(ts, f))|;
  }

  // ---------------------------------------------------------------- balance summary

  datatype BalanceSummary = BalanceSummary(
    totalIncome: int,
    totalExpenses: int,
    currentBalance: int,
    transactionCount: nat)

  /**
   * `get_balance_summary`: income and expenses are both non-negative, the
   * balance is their difference and equals the plain sum of every amount,
   * and the count is the number of entries, zero amounts included.
   */
  function BalanceOf(ts: seq<Transaction>): (b: BalanceSummary)
    ensures b.totalIncome >= 0 && b.totalExpenses >= 0
    ensures b.currentBalance == b.totalIncome - b.totalExpenses
    ensures b.currentBalance == SumOf(ts, AmountOf)
    ensures b.transactionCount == |ts|
  {
    SumOfSplits(ts);
    var income := TotalIncome(ts);
    var expenses := TotalExpenses(ts);
    BalanceSummary(income, expenses, income - expenses, |ts|)
  }

  /** The scenario of an expense of 50.00 on "Food" followed by an income of 2000.00. */
  lemma GroceriesAndSalary()
    ensures var groceries := NewTransaction("2024-01-15", "Groceries", CoercedAmount(5000, "Expense"), "Expense", "Food");
      var salary := NewTransaction("2024-01-20", "Salary", CoercedAmount(200000, "Income"), "Income", "General");
      BalanceOf([groceries, salary]) == BalanceSummary(200000, 5000, 195000, 2)
  {
    var groceries := NewTransaction("2024-01-15", "Groceries", CoercedAmount(5000, "Expense"), "Expense", "Food");
    var salary := NewTransaction("2024-01-20", "Salary", CoercedAmount(200000, "Income"), "Income", "General");
    assert Lower("Expense") == "expense";
    assert Lower("Income") == "income";
    assert [groceries, salary][1..] == [salary];
  }

  // ---------------------------------------------------------------- category summary

  /** The `{'income', 'expenses', 'count'}` record of one category. */
  datatype CategoryTotals = CategoryTotals(income: int, expenses: int, count: nat)

  const NoTotals := CategoryTotals(0, 0, 0)

  function Plus(a: CategoryTotals, b: CategoryTotals): CategoryTotals {
    CategoryTotals(a.income + b.income, a.expenses + b.expenses, a.count + b.count)
  }

  /** Reference: the totals of a list taken as one group. */
  function TotalsOf(ts: seq<Transaction>): CategoryTotals {
    CategoryTotals(TotalIncome(ts), TotalExpenses(ts), |ts|)
  }

  /** The entries of category `c`, in order. */
  function InCategory(ts: seq<Transaction>, c: string): seq<Transaction> {
    if ts == [] then []
    else (if ts[0].category == c then [ts[0]] else []) + InCategory(ts[1..], c)
  }

  function CategoriesOf(ts: seq<Transaction>): set<string> {
    set t | t in ts :: t.category
  }

  /** Reference for `get_category_summary`: each category that occurs, with the totals of its entries. */
  function CategorySummaryOf(ts: seq<Transaction>): map<string, CategoryTotals> {
    map c | c in CategoriesOf(ts) :: TotalsOf(InCategory(ts, c))
  }

  /** The loop body of `get_category_summary` for one entry: a positive amount is income, anything else adds its absolute value to expenses. */
  function Tally(totals: CategoryTotals, t: Transaction): CategoryTotals {
    if t.amount > 0 then totals.(income := totals.income + t.amount, count := totals.count + 1)
    else totals.(expenses := totals.expenses + Abs(t.amount), count := totals.count + 1)
  }

  /** An entry of amount zero is counted, but adds to neither income nor expenses. */
  lemma ZeroAmountCountsOnly(totals: CategoryTotals, t: Transaction)
    requires t.amount == 0
    ensures Tally(totals, t) == totals.(count := totals.count + 1)
  {
  }

  lemma {:induction false} InCategoryAppend(a: seq<Transaction>, b: seq<Transaction>, c: string)
    ensures InCategory(a + b, c) == InCategory(a, c) + InCategory(b, c)
  {
    if a != [] {
      assert (a + b)[1..] == a[1..] + b;
      InCategoryAppend(a[1..], b, c);
    } else {
      assert a + b == b;
    }
  }

  lemma TotalsOfAppendOne(ts: seq<Transaction>, t: Transaction)
    ensures TotalsOf(ts + [t]) == Tally(TotalsOf(ts), t)
  {
    SumOfAppend(ts, [t], IncomePart);
    SumOfAppend(ts, [t], ExpensePart);
  }

  /** Adding one entry to the ledger changes the reference summary as one pass of the loop body does. */
  lemma CategorySummaryStep(ts: seq<Transaction>, t: Transaction)
    ensures var m := CategorySummaryOf(ts);
      CategorySummaryOf(ts + [t]) == m[t.category := Tally(if t.category in m then m[t.category] else NoTotals, t)]
  {
    var m := CategorySummaryOf(ts);
    var c := t.category;
    var m' := CategorySummaryOf(ts + [t]);
    var expected := m[c := Tally(if c in m then m[c] else NoTotals, t)];
    assert CategoriesOf(ts + [t]) == CategoriesOf(ts) + {c} by {
      forall x ensures x in CategoriesOf(ts + [t]) <==> x in CategoriesOf(ts) + {c} {
        if x in CategoriesOf(ts + [t]) {
          var u :| u in ts + [t] && u.category == x;
          if u != t { assert u in ts; }
        }
        if x in CategoriesOf(ts) {
          var u :| u in ts && u.category == x;
          assert u in ts + [t];
        }
        assert t in ts + [t];
      }
    }
    forall k | k in m'.Keys ensures m'[k] == expected[k] {
      InCategoryAppend(ts, [t], k);
      assert [t][1..] == [];
      if k == c {
        assert InCategory([t], k) == [t];
        TotalsOfAppendOne(InCategory(ts, k), t);
        if c !in m {
          InCategoryEmpty(ts, c);
          assert TotalsOf([]) == NoTotals;
          assert [] + [t] == [t];
        }
      } else {
        assert InCategory([t], k) == [];
        assert InCategory(ts, k) + [] == InCategory(ts, k);
        assert k in CategoriesOf(ts);
      }
    }
    assert m'.Keys == expected.Keys;
  }

  lemma {:induction false} InCategoryEmpty(ts: seq<Transaction>, c: string)
    requires c !in CategoriesOf(ts)
    ensures InCategory(ts, c) == []
  {
    if ts != [] {
      assert ts[0] in ts;
      assert CategoriesOf(ts[1..]) <= CategoriesOf(ts) by {
        forall x | x in CategoriesOf(ts[1..]) ensures x in CategoriesOf(ts) {
          var u :| u in ts[1..] && u.category == x;
          assert u in ts;
        }
      }
      InCategoryEmpty(ts[1..], c);
    }
  }

  // ---------------------------------------------------------------- categories add up

  /** The distinct categories in the order they first occur: the key order of the summary dict. */
  function CategoryOrder(ts: seq<Transaction>): seq<string>
    decreases |ts|
  {
    if ts == [] then []
    else
      var earlier := CategoryOrder(ts[..|ts| - 1]);
      if ts[|ts| - 1].category in earlier then earlier else earlier + [ts[|ts| - 1].category]
  }

  /** Every key of `keys` has an entry in `m`. */
  predicate Covers(m: map<string, CategoryTotals>, keys: seq<string>) {
    forall i :: 0 <= i < |keys| ==> keys[i] in m
  }

  /** The totals of `m` on the keys `keys`, added up. */
  function SumOver(m: map<string, CategoryTotals>, keys: seq<string>): CategoryTotals
    requires Covers(m, keys)
  {
    if keys == [] then NoTotals else Plus(m[keys[0]], SumOver(m, keys[1..]))
  }

  predicate Distinct(keys: seq<string>) {
    forall i, j :: 0 <= i < j < |keys| ==> keys[i] != keys[j]
  }

  lemma {:induction false} CategoryOrderIsKeys(ts: seq<Transaction>)
    ensures forall c :: c in CategoryOrder(ts) <==> c in CategoriesOf(ts)
    ensures Distinct(CategoryOrder(ts))
    decreases |ts|
  {
    if ts != [] {
      var init, t := ts[..|ts| - 1], ts[|ts| - 1];
      CategoryOrderIsKeys(init);
      assert ts == init + [t];
      forall c ensures c in CategoryOrder(ts) <==> c in CategoriesOf(ts) {
        if c in CategoriesOf(ts) {
          var u :| u in ts && u.category == c;
          if u != t { assert u in init; }
        }
        if c in CategoriesOf(init) {
          var u :| u in init && u.category == c;
          assert u in ts;
        }
      }
    }
  }

  lemma {:induction false} SumOverAppendOne(m: map<string, CategoryTotals>, keys: seq<string>, c: string)
    requires Covers(m, keys) && c in m
    ensures Covers(m, keys + [c])
    ensures SumOver(m, keys + [c]) == Plus(SumOver(m, keys), m[c])
  {
    var all := keys + [c];
    assert forall i :: 0 <= i < |keys| ==> all[i] == keys[i];
    if keys != [] {
      assert all[1..] == keys[1..] + [c];
      assert all[0] == keys[0];
      SumOverAppendOne(m, keys[1..], c);
    } else {
      assert all == [c];
      assert all[1..] == [];
    }
  }

  lemma {:induction false} SumOverUnchanged(m: map<string, CategoryTotals>, m': map<string, CategoryTotals>, keys: seq<string>)
    requires Covers(m, keys) && Covers(m', keys)
    requires forall i :: 0 <= i < |keys| ==> m[keys[i]] == m'[keys[i]]
    ensures SumOver(m, keys) == SumOver(m', keys)
  {
    if keys != [] { SumOverUnchanged(m, m', keys[1..]); }
  }

  /** Changing a key that appears once in `keys` changes the sum by the same amount. */
  lemma {:induction false} SumOverUpdate(m: map<string, CategoryTotals>, keys: seq<string>, c: string, x: CategoryTotals)
    requires Covers(m, keys) && Distinct(keys) && c in keys
    ensures Covers(m[c := Plus(m[c], x)], keys)
    ensures SumOver(m[c := Plus(m[c], x)], keys) == Plus(SumOver(m, keys), x)
  {
    var m' := m[c := Plus(m[c], x)];
    var rest := keys[1..];
    assert forall i :: 0 <= i < |rest| ==> rest[i] == keys[i + 1];
    if keys[0] == c {
      assert forall i :: 0 <= i < |rest| ==> rest[i] != c;
      SumOverUnchanged(m, m', rest);
    } else {
      assert c in rest;
      SumOverUpdate(m, rest, c, x);
    }
  }

  /** One more entry of an already seen category: the sum grows by that entry. */
  lemma CategoriesAddUpSeen(m: map<string, CategoryTotals>, order: seq<string>, c: string, single: CategoryTotals)
    requires Covers(m, order) && Distinct(order) && c in order
    ensures Covers(m[c := Plus(m[c], single)], order)
    ensures SumOver(m[c := Plus(m[c], single)], order) == Plus(SumOver(m, order), single)
  {
    SumOverUpdate(m, order, c, single);
  }

  /** An entry of a new category: the category joins the end of the order. */
  lemma CategoriesAddUpNew(m: map<string, CategoryTotals>, order: seq<string>, c: string, single: CategoryTotals)
    requires Covers(m, order) && c !in m
    ensures Covers(m[c := single], order + [c])
    ensures SumOver(m[c := single], order + [c]) == Plus(SumOver(m, order), single)
  {
    var m' := m[c := single];
    SumOverUnchanged(m, m', order);
    SumOverAppendOne(m', order, c);
  }

  /** What one entry contributes to a category's totals. */
  function Single(t: Transaction): CategoryTotals {
    CategoryTotals(IncomePart(t), -ExpensePart(t), 1)
  }

  /** One pass of the loop body keeps "the summary adds up to the totals so far". */
  lemma AddUpStep(m: map<string, CategoryTotals>, order: seq<string>, total: CategoryTotals, t: Transaction)
    requires Covers(m, order) && Distinct(order) && SumOver(m, order) == total
    requires forall c :: c in order <==> c in m
    ensures var c := t.category;
      var m' := m[c := Tally(if c in m then m[c] else NoTotals, t)];
      var order' := if c in order then order else order + [c];
      Covers(m', order') && SumOver(m', order') == Plus(total, Single(t))
  {
    var c := t.category;
    if c in order {
      assert Tally(m[c], t) == Plus(m[c], Single(t));
      CategoriesAddUpSeen(m, order, c, Single(t));
    } else {
      assert Tally(NoTotals, t) == Single(t);
      CategoriesAddUpNew(m, order, c, Single(t));
    }
  }

  /** Equal maps and key lists cover and add up alike. */
  lemma SumOverTransfer(m: map<string, CategoryTotals>, keys: seq<string>,
                        m': map<string, CategoryTotals>, keys': seq<string>)
    requires Covers(m, keys) && m == m' && keys == keys'
    ensures Covers(m', keys') && SumOver(m', keys') == SumOver(m, keys)
  {
  }

  /** A non-empty list is its entries but the last, then the last. */
  lemma LastSplit(ts: seq<Transaction>)
    requires ts != []
    ensures ts == ts[..|ts| - 1] + [ts[|ts| - 1]]
  {
  }

  /** If all entries but the last add up, so do all of them. */
  lemma CategoriesAddUpStep(ts: seq<Transaction>)
    requires ts != []
    requires Covers(CategorySummaryOf(ts[..|ts| - 1]), CategoryOrder(ts[..|ts| - 1]))
    requires SumOver(CategorySummaryOf(ts[..|ts| - 1]), CategoryOrder(ts[..|ts| - 1])) == TotalsOf(ts[..|ts| - 1])
    ensures Covers(CategorySummaryOf(ts), CategoryOrder(ts))
    ensures SumOver(CategorySummaryOf(ts), CategoryOrder(ts)) == TotalsOf(ts)
  {
    var init, t := ts[..|ts| - 1], ts[|ts| - 1];
    LastSplit(ts);
    assert TotalsOf(ts) == Plus(TotalsOf(init), Single(t)) by {
      TotalsOfAppendOne(init, t);
    }
    var m, order := CategorySummaryOf(init), CategoryOrder(init);
    var c := t.category;
    var m' := m[c := Tally(if c in m then m[c] else NoTotals, t)];
    var order' := if c in order then order else order + [c];
    assert Covers(m', order') && SumOver(m', order') == Plus(TotalsOf(init), Single(t)) by {
      CategoryOrderIsKeys(init);
      AddUpStep(m, order, TotalsOf(init), t);
    }
    assert CategorySummaryOf(ts) == m' by {
      CategorySummaryStep(init, t);
    }
    SumOverTransfer(m', order', CategorySummaryOf(ts), CategoryOrder(ts));
  }

  /**
   * The categories add up to the whole ledger: per-category income sums to
   * the total income, expenses to the total expenses, counts to the number
   * of entries.
   */
  lemma {:induction false} CategoriesAddUp(ts: seq<Transaction>)
    ensures Covers(CategorySummaryOf(ts), CategoryOrder(ts))
    ensures SumOver(CategorySummaryOf(ts), CategoryOrder(ts)) == TotalsOf(ts)
    decreases |ts|
  {
    if ts != [] {
      CategoriesAddUp(ts[..|ts| - 1]);
      CategoriesAddUpStep(ts);
    }
  }

  /** The summary's categories give back the balance summary's totals. */
  lemma CategoriesMatchBalance(ts: seq<Transaction>)
    ensures Covers(CategorySummaryOf(ts), CategoryOrder(ts))
    ensures var whole := SumOver(CategorySummaryOf(ts), CategoryOrder(ts));
      && whole.income == BalanceOf(ts).totalIncome
      && whole.expenses == BalanceOf(ts).totalExpenses
      && whole.count == BalanceOf(ts).transactionCount
  {
    CategoriesAddUp(ts);
  }
}
