/**
 * `User` (user.py): one person's ledger, kept in memory as a list of
 * transactions and mirrored into that person's data file on every change.
 */
module Users {
  import opened Text
  import opened Transactions
  import opened Ledger
  import opened Persistence

  class User {
    const name: string
    /** The file this ledger is saved to and loaded from. */
    const dataFile: string
    const disk: Disk
    var transactions: seq<Transaction>

    /**
     * A new user starts empty, derives its file name from its name and then
     * loads that file, so a user whose file exists starts with its contents.
     */
    constructor (name: string, disk: Disk)
      modifies {}
      ensures this.name == name && this.disk == disk
      ensures dataFile == DataFile(name)
      ensures transactions == Load(disk.files, DataFile(name))
      ensures disk.files == old(disk.files)
    {
      this.name := name;
      this.disk := disk;
      this.dataFile := DataFile(name);
      transactions := [];
      new;
      LoadTransactions();
    }

    /**
     * `add_transaction`: appends one entry whose amount has been coerced to
     * the sign its type calls for, then saves the whole ledger.
     */
    method AddTransaction(date: string, description: string, amount: int, transactionType: string,
                          category: string := DefaultCategory)
      modifies this, disk
      ensures transactions == old(transactions) +
        [NewTransaction(date, description, CoercedAmount(amount, transactionType), transactionType, category)]
      ensures disk.files == old(disk.files)[dataFile := SavedRecord(name, transactions)]
      ensures Load(disk.files, dataFile) == transactions
    {
      var stored := amount;
      if Lower(transactionType) == "expense" && amount > 0 {
        stored := -amount;
      } else if Lower(transactionType) == "income" && amount < 0 {
        stored := Abs(amount);
      }
      var t := NewTransaction(date, description, stored, transactionType, category);
      transactions := transactions + [t];
      SaveTransactions();
    }

    /**
     * `get_category_summary`: one entry per category that occurs, holding the
     * income, expenses and count of that category's transactions; the entries,
     * taken in first-occurrence order, add up to the whole ledger.
     */
    method GetCategorySummary() returns (categories: map<string, CategoryTotals>)
      ensures categories == CategorySummaryOf(transactions)
      ensures Covers(categories, CategoryOrder(transactions))
      ensures SumOver(categories, CategoryOrder(transactions)) == TotalsOf(transactions)
    {
      categories := map[];
      assert transactions[..0] == [];
      var i := 0;
      while i < |transactions|
        invariant 0 <= i <= |transactions|
        invariant categories == CategorySummaryOf(transactions[..i])
      {
        var t := transactions[i];
        ghost var before := categories;
        var category := t.category;
        if category !in categories {
          categories := categories[category := NoTotals];
        }
        var entry := categories[category];
        if t.amount > 0 {
          entry := entry.(income := entry.income + t.amount);
        } else {
          entry := entry.(expenses := entry.expenses + Abs(t.amount));
        }
        entry := entry.(count := entry.count + 1);
        assert entry == Tally(if category in before then before[category] else NoTotals, t);
        categories := categories[category := entry];
        assert categories == CategorySummaryOf(transactions[..i + 1]) by {
          assert categories == before[category := entry];
          CategorySummaryStep(transactions[..i], t);
          assert transactions[..i + 1] == transactions[..i] + [t];
        }
        i := i + 1;
      }
      assert transactions[..i] == transactions;
      CategoriesAddUp(transactions);
    }

    /** `save_transactions`: the data file now holds this ledger, every other file is untouched. */
    method SaveTransactions()
      modifies disk
      ensures disk.files == old(disk.files)[dataFile := SavedRecord(name, transactions)]
      ensures Load(disk.files, dataFile) == transactions
    {
      disk.files := disk.files[dataFile := SavedRecord(name, transactions)];
      SaveLoadRoundTrip(old(disk.files), dataFile, name, transactions);
    }

    /**
     * `load_transactions`: a missing file leaves the ledger as it was; an
     * existing one replaces it with its decoded contents, or with the empty
     * list when it cannot be read.
     */
    method LoadTransactions()
      modifies this
      ensures transactions == (if dataFile in disk.files then Decoded(disk.files[dataFile]) else old(transactions))
    {
      if dataFile in disk.files {
        transactions := Decoded(disk.files[dataFile]);
      }
    }
  }
}
