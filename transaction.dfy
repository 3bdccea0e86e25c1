/**
 * One financial event (transaction.py): a five-field record that is built
 * once and never changed, its dictionary form for persistence, and its
 * one-line rendering.
 */
module Transactions {
  import opened Wrappers
  import opened Text

  const DefaultCategory: string := "General"

  /**
   * `amount` is a whole number of cents. `transactionType` is free text: the
   * record itself never checks it against the sign of `amount`.
   */
  datatype Transaction = Transaction(
    date: string,
    description: string,
    amount: int,
    transactionType: string,
    category: string)

  /** `Transaction(date, description, amount, transaction_type, category="General")`. */
  function NewTransaction(date: string, description: string, amount: int, transactionType: string,
                          category: string := DefaultCategory): (t: Transaction)
    ensures t.date == date && t.description == description && t.amount == amount
    ensures t.transactionType == transactionType && t.category == category
  {
    Transaction(date, description, amount, transactionType, category)
  }

  /** The constructor's only default: a transaction built without a category is "General". */
  lemma NewTransactionDefaultsCategory(date: string, description: string, amount: int, transactionType: string)
    ensures NewTransaction(date, description, amount, transactionType).category == "General"
  {
  }

  // ---------------------------------------------------------------- dictionary form

  /** The primitive JSON values a transaction's dictionary holds. */
  datatype JsonValue = JString(str: string) | JNumber(num: int)

  type Dict = map<string, JsonValue>

  const TransactionKeys: set<string> := {"date", "description", "amount", "type", "category"}

  /** Why `from_dict` fails: a key that is missing, or a value of the wrong kind. */
  datatype DecodeError = MissingKey(key: string) | WrongKind(key: string)

  /** `to_dict`: the five fields under their storage keys; the type goes under "type". */
  function ToDict(t: Transaction): (d: Dict)
    ensures d.Keys == TransactionKeys
  {
    map[
      "date" := JString(t.date),
      "description" := JString(t.description),
      "amount" := JNumber(t.amount),
      "type" := JString(t.transactionType),
      "category" := JString(t.category)]
  }

  /** `data[key]` for a text field. */
  function TextField(d: Dict, key: string): Result<string, DecodeError> {
    if key !in d then Failure(MissingKey(key))
    else if !d[key].JString? then Failure(WrongKind(key))
    else Success(d[key].str)
  }

  predicate HasText(d: Dict, key: string) {
    key in d && d[key].JString?
  }

  /**
   * `from_dict`: the four required keys are read in the order date,
   * description, amount, type, and the first one missing is the error;
   * a missing category becomes "General".
   */
  function FromDict(d: Dict): (r: Result<Transaction, DecodeError>)
    ensures r.Success? <==>
      HasText(d, "date") && HasText(d, "description") && "amount" in d && d["amount"].JNumber?
      && HasText(d, "type") && ("category" in d ==> d["category"].JString?)
    ensures r.Success? ==>
      && r.value.date == d["date"].str
      && r.value.description == d["description"].str
      && r.value.amount == d["amount"].num
      && r.value.transactionType == d["type"].str
      && r.value.category == (if "category" in d then d["category"].str else DefaultCategory)
    ensures r.Failure? && r.error.MissingKey? ==> r.error.key !in d
  {
    match TextField(d, "date")
    case Failure(e) => Failure(e)
    case Success(date) =>
      match TextField(d, "description")
      case Failure(e) => Failure(e)
      case Success(description) =>
        if "amount" !in d then Failure(MissingKey("amount"))
        else if !d["amount"].JNumber? then Failure(WrongKind("amount"))
        else
          match TextField(d, "type")
          case Failure(e) => Failure(e)
          case Success(transactionType) =>
            var category :=
              if "category" !in d then Success(DefaultCategory) else TextField(d, "category");
            match category
            case Failure(e) => Failure(e)
            case Success(c) =>
              Success(NewTransaction(date, description, d["amount"].num, transactionType, c))
  }

  /** Decoding what `to_dict` wrote gives back the same transaction, field for field. */
  lemma FromDictToDict(t: Transaction)
    ensures FromDict(ToDict(t)) == Success(t)
  {
  }

  /**
   * The other direction: a dictionary that decodes is, on the five keys,
   * what `to_dict` writes for the result (with "General" where the category
   * was absent).
   */
  lemma ToDictFromDict(d: Dict)
    requires FromDict(d).Success?
    ensures var e := ToDict(FromDict(d).value);
      forall k :: k in TransactionKeys && k in d ==> e[k] == d[k]
    ensures "category" !in d ==> ToDict(FromDict(d).value)["category"] == JString(DefaultCategory)
  {
  }

  // ---------------------------------------------------------------- rendering

  const Separator: string := " | "

  /** `__str__`: date, description, `$` and the amount to two decimals, type, category, joined by " | ". */
  function Render(t: Transaction): string {
    t.date + Separator + t.description + Separator + "$" + FormatCents(t.amount)
    + Separator + t.transactionType + Separator + t.category
  }

  /**
   * The rendering opens with the date and the description and closes with the
   * type and the category, and the amount text between them reads back as the
   * amount itself.
   */
  lemma RenderLayout(t: Transaction)
    ensures var head := t.date + Separator + t.description + Separator + "$";
      var tail := Separator + t.transactionType + Separator + t.category;
      var amountText := FormatCents(t.amount);
      && Render(t) == head + amountText + tail
      && ParseCents(amountText) == t.amount
  {
    CentsRoundTrip(t.amount);
  }
}
