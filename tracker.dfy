/**
 * `MoneyTracker` (money_tracker.py): the registry of users, the current
 * selection, and the decisions the menu actions take once their input has
 * been read. Console input arrives already parsed, as parameters.
 */
module Tracker {
  import opened Wrappers
  import opened Text
  import opened Transactions
  import opened Ledger
  import opened Persistence
  import opened Users

  /** The users every tracker starts with, in menu order. */
  const DefaultUserNames: seq<string> := ["Father", "Self"]

  /** The expense categories offered, numbered from 1 in the menu. */
  const ExpenseCategories: seq<string> := [
    "Food", "Rent", "Utilities", "Transportation", "Entertainment",
    "Healthcare", "Shopping", "Education", "Travel", "General"
  ]

  // ---------------------------------------------------------------- month window

  /** `f"{year:04d}-{month:02d}-{day}"`: a date of the given month. */
  function DayOf(year: int, month: int, day: string): string {
    Padded(year, 4) + ("-" + (Padded(month, 2) + ("-" + day)))
  }

  /** `f"{year:04d}-{month:02d}-01"`. */
  function MonthStart(year: int, month: int): string {
    DayOf(year, month, "01")
  }

  /** The first day of the following month, December rolling over to January. */
  function MonthEnd(year: int, month: int): string {
    if month == 12 then Padded(year + 1, 4) + "-01-01"
    else DayOf(year, month + 1, "01")
  }

  /** The filter `monthly_report` passes to `get_transactions`: both date bounds, no type. */
  function MonthFilter(year: int, month: int): (f: Filter)
    ensures forall t :: Matches(t, f) <==>
      LexLe(MonthStart(year, month), t.date) && LexLe(t.date, MonthEnd(year, month))
  {
    Filter(Some(MonthStart(year, month)), Some(MonthEnd(year, month)), None)
  }

  /** For a four-digit year and a real month, the start is `YYYY-MM-01` written digit for digit. */
  lemma MonthStartShape(year: int, month: int)
    requires 0 <= year <= 9999 && 1 <= month <= 12
    ensures MonthStart(year, month) == FixedDigits(year, 4) + ("-" + (FixedDigits(month, 2) + "-01"))
    ensures |MonthStart(year, month)| == 10
  {
    PaddedIsFixedDigits(year, 4);
    PaddedIsFixedDigits(month, 2);
  }

  /** A day from "01" on sorts no earlier than the first of its month. */
  lemma MonthDayAfterStart(year: int, month: int, day: string)
    requires LexLe("01", day)
    ensures LexLe(MonthStart(year, month), DayOf(year, month, day))
  {
    var y, m := Padded(year, 4), Padded(month, 2);
    LexLeCommonPrefix("-", "01", day);
    LexLeCommonPrefix(m, "-" + "01", "-" + day);
    LexLeCommonPrefix("-", m + ("-" + "01"), m + ("-" + day));
    LexLeCommonPrefix(y, "-" + (m + ("-" + "01")), "-" + (m + ("-" + day)));
  }

  /** Any day of a month sorts strictly before the first of the next month. */
  lemma MonthDayBeforeEnd(year: int, month: int, day: string)
    requires 0 <= year <= 9999 && 1 <= month <= 12 && (year < 9999 || month < 12)
    ensures LexLe(DayOf(year, month, day), MonthEnd(year, month))
    ensures DayOf(year, month, day) != MonthEnd(year, month)
  {
    PaddedIsFixedDigits(year, 4);
    PaddedIsFixedDigits(month, 2);
    var y, m := FixedDigits(year, 4), FixedDigits(month, 2);
    if month == 12 {
      PaddedIsFixedDigits(year + 1, 4);
      FixedDigitsMonotone(year, year + 1, 4);
      LexLtExtend(y, FixedDigits(year + 1, 4), "-" + (m + ("-" + day)), "-01-01");
    } else {
      PaddedIsFixedDigits(month + 1, 2);
      var m' := FixedDigits(month + 1, 2);
      FixedDigitsMonotone(month, month + 1, 2);
      LexLtExtend(m, m', "-" + day, "-" + "01");
      var a, b := m + ("-" + day), m' + ("-" + "01");
      LexLeCommonPrefix("-", a, b);
      PrefixCancel("-", a, b);
      LexLeCommonPrefix(y, "-" + a, "-" + b);
      PrefixCancel(y, "-" + a, "-" + b);
    }
  }

  /**
   * Every date `YYYY-MM-dd` with a day from "01" on falls in the window of
   * its month, and sorts strictly before the end bound; the end bound itself,
   * the first of the next month, passes the filter too. The one year written
   * with four digits whose December does not work is 9999.
   */
  lemma MonthWindowSpan(year: int, month: int, day: string)
    requires 0 <= year <= 9999 && 1 <= month <= 12 && (year < 9999 || month < 12)
    requires LexLe("01", day)
    ensures var start, end, date := MonthStart(year, month), MonthEnd(year, month), DayOf(year, month, day);
      && LexLe(start, date) && LexLe(date, end) && date != end
      && LexLe(start, end) && LexLe(end, end)
  {
    MonthDayAfterStart(year, month, day);
    MonthDayBeforeEnd(year, month, day);
    MonthDayBeforeEnd(year, month, "01");
    LexLeReflexive(MonthEnd(year, month));
  }

  /**
   * A transaction dated the first of the next month is counted in the report
   * of this month: the end bound is inclusive.
   */
  lemma NextMonthFirstIsCounted(year: int, month: int, t: Transaction)
    requires 0 <= year <= 9999 && 1 <= month <= 12 && (year < 9999 || month < 12)
    requires t.date == MonthEnd(year, month)
    ensures Matches(t, MonthFilter(year, month))
  {
    LexLeReflexive("01");
    MonthWindowSpan(year, month, "01");
  }

  /**
   * December of a negative year from -999 to -2 has an empty window too:
   * the end's year "-00k" sorts before the start's "-00(k+1)", so no date
   * passes both bounds.
   */
  lemma NegativeDecemberIsEmpty(year: int, date: string)
    requires -999 <= year <= -2
    ensures !(LexLe(MonthStart(year, 12), date) && LexLe(date, MonthEnd(year, 12)))
  {
    var start, end := MonthStart(year, 12), MonthEnd(year, 12);
    NegativeDecemberBounds(year);
    if LexLe(start, date) && LexLe(date, end) {
      LexLeTransitive(start, date, end);
      LexLeAntisymmetric(start, end);
    }
  }

  /** The two bounds of such a December, in the order they sort. */
  lemma NegativeDecemberBounds(year: int)
    requires -999 <= year <= -2
    ensures LexLe(MonthEnd(year, 12), MonthStart(year, 12)) && MonthEnd(year, 12) != MonthStart(year, 12)
  {
    var a, b := FixedDigits(-year, 3), FixedDigits(-year - 1, 3);
    var rest := "-" + (Padded(12, 2) + ("-" + "01"));
    NegativeDecemberStart(year);
    NegativeDecemberEnd(year);
    FixedDigitsMonotone(-year - 1, -year, 3);
    LexLtExtend(b, a, "-01-01", rest);
    LexLeCommonPrefix("-", b + "-01-01", a + rest);
    PrefixCancel("-", b + "-01-01", a + rest);
  }

  lemma NegativeDecemberStart(year: int)
    requires -999 <= year <= -1
    ensures MonthStart(year, 12) == "-" + (FixedDigits(-year, 3) + ("-" + (Padded(12, 2) + ("-" + "01"))))
  {
    NegativeYear(year);
  }

  lemma NegativeDecemberEnd(year: int)
    requires -999 <= year <= -2
    ensures MonthEnd(year, 12) == "-" + (FixedDigits(-year - 1, 3) + "-01-01")
  {
    NegativeYear(year + 1);
  }

  /** A year from -999 to -1 is written as "-" and three digits. */
  lemma NegativeYear(year: int)
    requires -999 <= year <= -1
    ensures Padded(year, 4) == "-" + FixedDigits(-year, 3)
  {
    PaddedIsFixedDigits(-year, 3);
  }

  /**
   * December of year 9999 has an empty window: its end bound "10000-01-01"
   * sorts before its start "9999-12-01", so no date passes both.
   */
  lemma LastDecemberIsEmpty(date: string)
    ensures MonthEnd(9999, 12) == "10000-01-01"
    ensures !(LexLe(MonthStart(9999, 12), date) && LexLe(date, MonthEnd(9999, 12)))
  {
    assert Decimal(1) == "1";
    assert Decimal(10) == "10";
    assert Decimal(100) == "100";
    assert Decimal(1000) == "1000";
    assert Decimal(10000) == "10000";
    var start, end := MonthStart(9999, 12), MonthEnd(9999, 12);
    assert end == "10000" + "-01-01";
    assert Decimal(9) == "9";
    assert Decimal(99) == "99";
    assert Decimal(999) == "999";
    assert Decimal(9999) == "9999";
    assert start[0] == '9' && end[0] == '1';
    if LexLe(start, date) && LexLe(date, end) {
      LexLeTransitive(start, date, end);
      assert false;
    }
  }

  // ---------------------------------------------------------------- monthly sums

  datatype MonthlySummary = MonthlySummary(income: int, expenses: int, net: int, count: nat)

  /** The figures `monthly_report` shows for a list of transactions. */
  function MonthlySums(ts: seq<Transaction>): (s: MonthlySummary)
    ensures s.income >= 0 && s.expenses >= 0
    ensures s.net == s.income - s.expenses
    ensures s.net == SumOf(ts, AmountOf)
    ensures s.count == |ts|
  {
    SumOfSplits(ts);
    var income := TotalIncome(ts);
    var expenses := TotalExpenses(ts);
    MonthlySummary(income, expenses, income - expenses, |ts|)
  }

  /** A month's figures agree with the balance summary of the same transactions. */
  lemma MonthlySumsMatchBalance(ts: seq<Transaction>)
    ensures var s, b := MonthlySums(ts), BalanceOf(ts);
      s.income == b.totalIncome && s.expenses == b.totalExpenses
      && s.net == b.currentBalance && s.count == b.transactionCount
  {
  }

  /** Sorting the selection changes none of the monthly figures. */
  lemma QueryMonthlySums(ts: seq<Transaction>, f: Filter)
    ensures MonthlySums(Query(ts, f)) == MonthlySums(Selection(ts, f))
  {
    QuerySums(ts, f, IncomePart);
    QuerySums(ts, f, ExpensePart);
  }

  // ---------------------------------------------------------------- outcomes

  datatype NewUserOutcome = UserAdded(name: string) | UserExists(name: string) | InvalidName

  datatype SelectOutcome = UserSelected(name: string) | NewUser(result: NewUserOutcome) | InvalidSelection

  datatype AddOutcome =
    | NoUserSelected
    | DescriptionRequired
    | AmountNotPositive
    | InvalidType
    | TransactionAdded

  datatype ReportOutcome =
    | ReportNeedsUser
    | NoTransactionsInMonth
    | MonthlyReport(summary: MonthlySummary)

  /** `"Income"` for choice 1, `"Expense"` for choice 2. */
  function TypeName(typeChoice: int): (r: string)
    requires typeChoice == 1 || typeChoice == 2
    ensures Lower(r) == (if typeChoice == 1 then "income" else "expense")
  {
    if typeChoice == 1 then "Income" else "Expense"
  }

  /** An expense takes the chosen category when the choice is in range; everything else is "General". */
  function ChosenCategory(typeChoice: int, categoryChoice: Option<int>): (c: string)
    ensures c in ExpenseCategories
    ensures typeChoice != 2 || categoryChoice.None? ==> c == DefaultCategory
    ensures typeChoice == 2 && categoryChoice.Some? && 1 <= categoryChoice.value <= |ExpenseCategories| ==>
      c == ExpenseCategories[categoryChoice.value - 1]
    ensures typeChoice == 2 && categoryChoice.Some? && !(1 <= categoryChoice.value <= |ExpenseCategories|) ==>
      c == DefaultCategory
  {
    if typeChoice == 2 && categoryChoice.Some? && 1 <= categoryChoice.value <= |ExpenseCategories|
    then ExpenseCategories[categoryChoice.value - 1]
    else DefaultCategory
  }

  /**
   * The registry after `add_new_user` read `input`: a stripped, non-empty,
   * new name is appended with every existing user kept; otherwise nothing
   * changes and the outcome says why.
   */
  ghost predicate RegistryAfterAdd(users0: map<string, User>, order0: seq<string>,
                                   users1: map<string, User>, order1: seq<string>,
                                   input: string, outcome: NewUserOutcome) {
    var name := Strip(input);
    if name != "" && name !in users0 then
      && outcome == UserAdded(name)
      && order1 == order0 + [name]
      && users1.Keys == users0.Keys + {name}
      && (forall n :: n in users0 ==> users1[n] == users0[n])
    else
      && outcome == (if name in users0 then UserExists(name) else InvalidName)
      && users1 == users0 && order1 == order0
  }

  class MoneyTracker {
    const disk: Disk
    var users: map<string, User>
    /** The keys of `users` in insertion order, the order the selection menu lists them in. */
    var userOrder: seq<string>
    var currentUser: User?

    ghost predicate Valid()
      reads this
    {
      && Distinct(userOrder)
      && (forall n :: n in users <==> n in userOrder)
      && (forall n :: n in users ==> users[n].name == n && users[n].dataFile == DataFile(n) && users[n].disk == disk)
      && (currentUser != null ==> currentUser in users.Values)
    }

    /** The registry starts with "Father" and "Self", each loaded from its file, and no user selected. */
    constructor (disk: Disk)
      ensures Valid() && this.disk == disk
      ensures userOrder == DefaultUserNames && users.Keys == {"Father", "Self"}
      ensures currentUser == null
      ensures forall n :: n in users ==> fresh(users[n]) && users[n].transactions == Load(disk.files, DataFile(n))
    {
      this.disk := disk;
      var father := new User("Father", disk);
      var self := new User("Self", disk);
      users := map["Father" := father, "Self" := self];
      userOrder := DefaultUserNames;
      currentUser := null;
    }

    /** `add_new_user` with the line the user typed. */
    method AddNewUser(input: string) returns (outcome: NewUserOutcome)
      requires Valid()
      modifies this
      ensures Valid() && currentUser == old(currentUser)
      ensures RegistryAfterAdd(old(users), old(userOrder), users, userOrder, input, outcome)
      ensures outcome.UserAdded? ==>
        fresh(users[outcome.name]) && users[outcome.name].transactions == Load(disk.files, DataFile(outcome.name))
    {
      var name := Strip(input);
      if name != "" && name !in users {
        var user := new User(name, disk);
        users := users[name := user];
        userOrder := userOrder + [name];
        outcome := UserAdded(name);
        if currentUser != null {
          ghost var k :| k in old(users) && old(users)[k] == currentUser;
          assert users[k] == currentUser;
        }
      } else if name in users {
        outcome := UserExists(name);
      } else {
        outcome := InvalidName;
      }
    }

    /**
     * `select_user` with the number typed: 1 to the number of users selects
     * that user in menu order, the next number adds a user, anything else is
     * refused and changes nothing.
     */
    method SelectUser(choice: int, newUserInput: string) returns (outcome: SelectOutcome)
      requires Valid()
      modifies this
      ensures Valid()
      ensures 1 <= choice <= |old(userOrder)| ==>
        && outcome == UserSelected(old(userOrder)[choice - 1])
        && currentUser == old(users)[old(userOrder)[choice - 1]]
        && currentUser.name == outcome.name
        && users == old(users) && userOrder == old(userOrder)
      ensures choice == |old(userOrder)| + 1 ==>
        && outcome.NewUser? && currentUser == old(currentUser)
        && RegistryAfterAdd(old(users), old(userOrder), users, userOrder, newUserInput, outcome.result)
        && (outcome.result.UserAdded? ==>
              fresh(users[outcome.result.name])
              && users[outcome.result.name].transactions == Load(disk.files, DataFile(outcome.result.name)))
      ensures !(1 <= choice <= |old(userOrder)| + 1) ==>
        && outcome == InvalidSelection
        && currentUser == old(currentUser) && users == old(users) && userOrder == old(userOrder)
    {
      if 1 <= choice <= |userOrder| {
        var selected := userOrder[choice - 1];
        currentUser := users[selected];
        outcome := UserSelected(selected);
      } else if choice == |userOrder| + 1 {
        var added := AddNewUser(newUserInput);
        outcome := NewUser(added);
      } else {
        outcome := InvalidSelection;
      }
    }

    /**
     * `add_transaction` once its prompts are answered. The gates run in the
     * source's order: a selected user, a non-blank description, a positive
     * amount, a type choice of 1 or 2. Only then is one entry appended to the
     * current user's ledger and saved; an expense is stored as a negative
     * amount.
     */
    method AddTransaction(date: string, descriptionInput: string, amount: int,
                          typeChoice: int, categoryChoice: Option<int>) returns (outcome: AddOutcome)
      requires Valid()
      modifies currentUser, disk
      ensures currentUser == null ==> outcome == NoUserSelected
      ensures currentUser != null && Strip(descriptionInput) == "" ==> outcome == DescriptionRequired
      ensures currentUser != null && Strip(descriptionInput) != "" && amount <= 0 ==> outcome == AmountNotPositive
      ensures currentUser != null && Strip(descriptionInput) != "" && amount > 0 && typeChoice != 1 && typeChoice != 2 ==>
        outcome == InvalidType
      ensures outcome == TransactionAdded <==>
        currentUser != null && Strip(descriptionInput) != "" && amount > 0 && (typeChoice == 1 || typeChoice == 2)
      ensures outcome == TransactionAdded ==>
        && currentUser.transactions == old(currentUser.transactions) + [Transaction(
             date, Strip(descriptionInput), if typeChoice == 2 then -amount else amount,
             TypeName(typeChoice), ChosenCategory(typeChoice, categoryChoice))]
        && disk.files == old(disk.files)[currentUser.dataFile := SavedRecord(currentUser.name, currentUser.transactions)]
      ensures outcome != TransactionAdded ==>
        disk.files == old(disk.files) && (currentUser != null ==> currentUser.transactions == old(currentUser.transactions))
    {
      if currentUser == null {
        return NoUserSelected;
      }
      var description := Strip(descriptionInput);
      if description == "" {
        return DescriptionRequired;
      }
      if amount <= 0 {
        return AmountNotPositive;
      }
      if typeChoice != 1 && typeChoice != 2 {
        return InvalidType;
      }
      ghost var k :| k in users && users[k] == currentUser;
      assert currentUser.disk == disk;
      var transactionType := TypeName(typeChoice);
      var category := ChosenCategory(typeChoice, categoryChoice);
      currentUser.AddTransaction(date, description, amount, transactionType, category);
      outcome := TransactionAdded;
    }

    /**
     * `monthly_report` for a given year and month: the figures of the current
     * user's transactions inside the month window, or the reason there are none.
     * The figures are those of the plain selection; the newest-first order the
     * source sums over changes none of them.
     */
    method MonthlyReportFor(year: int, month: int) returns (outcome: ReportOutcome)
      ensures currentUser == null ==> outcome == ReportNeedsUser
      ensures currentUser != null ==>
        var inMonth := Selection(currentUser.transactions, MonthFilter(year, month));
        outcome == if inMonth == [] then NoTransactionsInMonth else MonthlyReport(MonthlySums(inMonth))
    {
      if currentUser == null {
        return ReportNeedsUser;
      }
      var f := MonthFilter(year, month);
      var transactions := Query(currentUser.transactions, f);
      QueryMonthlySums(currentUser.transactions, f);
      if transactions == [] {
        return NoTransactionsInMonth;
      }
      outcome := MonthlyReport(MonthlySums(transactions));
    }
  }
}
