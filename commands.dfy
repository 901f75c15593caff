/**
 * The command handlers `add`, `delete`, `update` and `summary` as functions
 * from the loaded collection and the parsed options to an outcome and the
 * collection that is saved afterwards (the loaded one, unchanged, whenever
 * the handler returns before `saveExpenses`).
 */
module Commands {
  import opened Options
  import opened Dates
  import opened JsText
  import opened Expenses

  /** The error messages the handlers print. */
  datatype Failure =
    | EmptyDescription  // "Description cannot be empty."
    | InvalidAmount     // "Amount must be a positive number."
    | InvalidId         // "ID must be a number."
    | NotFound(id: int) // "Expense with ID <id> not found."
    | InvalidMonth      // "Month must be between 1 and 12."

  datatype Result<T> = Ok(value: T) | Err(failure: Failure)

  /**
   * An optional numeric flag as the handler sees it: not given, given as the
   * empty string (falsy, so skipped), or given as text whose parse result is
   * `parsed` (None standing for NaN).
   */
  datatype Arg<T> = Absent | Empty | Given(parsed: Option<T>)

  /** What a handler reports, with the collection as it is persisted afterwards. */
  datatype Transition<T> = Transition(outcome: Result<T>, expenses: seq<Expense>)

  /** The two success messages of `summary`. */
  datatype Summary = Overall(total: real) | ForMonth(month: int, total: real)

  /** `!(isNaN(amount) || amount <= 0)`. */
  predicate IsValidAmount(amount: Option<real>) {
    amount.Some? && amount.value > 0.0
  }

  /** `if (options.description)`: given and not the empty string. */
  predicate Supplied(text: Option<string>) {
    text.Some? && text.value != []
  }

  /** The `add` handler; `today` is the clock reading that dates the record. */
  function AddCommand(expenses: seq<Expense>, description: string, amount: Option<real>, today: CalendarDate)
    : (t: Transition<int>)
    requires ValidDate(today)
    ensures t.outcome == Err(EmptyDescription) <==> IsBlank(description)
    ensures t.outcome == Err(InvalidAmount) <==> !IsBlank(description) && !IsValidAmount(amount)
    ensures t.outcome.Ok? <==> !IsBlank(description) && IsValidAmount(amount)
    ensures t.outcome.Err? ==> t.expenses == expenses
    ensures t.outcome.Ok? ==>
      && IsValidAmount(amount)
      && t.outcome.value == NewId(expenses)
      && !HasId(expenses, t.outcome.value)
      && t.expenses == expenses + [Expense(t.outcome.value, FormatDate(today), description, amount.value)]
    ensures WellFormed(expenses) ==> WellFormed(t.expenses)
  {
    TrimEmptyIffBlank(description);
    if Trim(description) == [] then Transition(Err(EmptyDescription), expenses)
    else if amount.None? || amount.value <= 0.0 then Transition(Err(InvalidAmount), expenses)
    else
      var id := NewId(expenses);
      var record := Expense(id, FormatDate(today), description, amount.value);
      NewIdIsFresh(expenses);
      AppendNewRecordKeepsWellFormed(expenses, today, description, amount.value);
      Transition(Ok(id), expenses + [record])
  }

  /** The `delete` handler. */
  function DeleteCommand(expenses: seq<Expense>, id: Option<int>): (t: Transition<()>)
    ensures t.outcome == Err(InvalidId) <==> id.None?
    ensures id.Some? ==> (t.outcome == Err(NotFound(id.value)) <==> !HasId(expenses, id.value))
    ensures t.outcome.Ok? <==> id.Some? && HasId(expenses, id.value)
    ensures t.outcome.Err? ==> t.expenses == expenses
    ensures t.outcome.Ok? ==>
      exists i :: IsFirstWithId(expenses, id.value, i) && t.expenses == RemoveAt(expenses, i)
    ensures WellFormed(expenses) && t.outcome.Ok? ==> WellFormed(t.expenses) && !HasId(t.expenses, id.value)
  {
    if id.None? then Transition(Err(InvalidId), expenses)
    else
      var index := FindIndex(expenses, id.value);
      if index == -1 then Transition(Err(NotFound(id.value)), expenses)
      else
        RemoveAtKeepsWellFormed(expenses, index);
        Transition(Ok(()), RemoveAt(expenses, index))
  }

  /**
   * The `update` handler. The source edits the record in the loaded copy,
   * the description before the amount is checked; whichever check fails, the
   * copy is not saved, so the outcome is the same as editing once at the end.
   * Its outcomes are stated in full by UpdateRejects and UpdateEditsFirstMatch.
   */
  function UpdateCommand(expenses: seq<Expense>, id: Option<int>, description: Option<string>, amount: Arg<real>)
    : (t: Transition<int>)
    ensures |t.expenses| == |expenses|
    ensures t.outcome.Err? ==> t.expenses == expenses
    ensures t.outcome.Ok? ==> id.Some? && t.outcome.value == id.value
  {
    if id.None? then Transition(Err(InvalidId), expenses)
    else
      var index := FindIndex(expenses, id.value);
      if index == -1 then Transition(Err(NotFound(id.value)), expenses)
      else if Supplied(description) && Trim(description.value) == [] then Transition(Err(EmptyDescription), expenses)
      else if amount.Given? && (amount.parsed.None? || amount.parsed.value <= 0.0) then
        Transition(Err(InvalidAmount), expenses)
      else
        Transition(Ok(id.value), expenses[index := Edited(expenses[index], description, amount)])
  }

  /** The record with a supplied description and a given amount written over its own. */
  function Edited(record: Expense, description: Option<string>, amount: Arg<real>): (e: Expense)
    requires amount.Given? ==> amount.parsed.Some?
    ensures e.id == record.id && e.date == record.date
    ensures e.description == if Supplied(description) then description.value else record.description
    ensures e.amount == if amount.Given? then amount.parsed.value else record.amount
  {
    var described := if Supplied(description) then record.(description := description.value) else record;
    if amount.Given? then described.(amount := amount.parsed.value) else described
  }

  /**
   * The four errors of `update`, in the order the handler checks them; on
   * each of them nothing is saved.
   */
  lemma UpdateRejects(expenses: seq<Expense>, id: Option<int>, description: Option<string>, amount: Arg<real>)
    ensures var t := UpdateCommand(expenses, id, description, amount);
      && (t.outcome == Err(InvalidId) <==> id.None?)
      && (id.Some? ==> (t.outcome == Err(NotFound(id.value)) <==> !HasId(expenses, id.value)))
      && (t.outcome == Err(EmptyDescription) <==>
            id.Some? && HasId(expenses, id.value) && Supplied(description) && IsBlank(description.value))
      && (t.outcome == Err(InvalidAmount) <==>
            && id.Some? && HasId(expenses, id.value)
            && !(Supplied(description) && IsBlank(description.value))
            && amount.Given? && !IsValidAmount(amount.parsed))
      && (t.outcome.Ok? <==>
            && id.Some? && HasId(expenses, id.value)
            && !(Supplied(description) && IsBlank(description.value))
            && !(amount.Given? && !IsValidAmount(amount.parsed)))
      && (t.outcome.Err? ==> t.expenses == expenses)
  {
    if Supplied(description) {
      TrimEmptyIffBlank(description.value);
    }
  }

  /**
   * A successful `update` reports the id and edits exactly the first record
   * carrying it, keeping that record's id and date.
   */
  lemma UpdateEditsFirstMatch(expenses: seq<Expense>, id: Option<int>, description: Option<string>, amount: Arg<real>)
    requires UpdateCommand(expenses, id, description, amount).outcome.Ok?
    ensures id.Some? && UpdateCommand(expenses, id, description, amount).outcome.value == id.value
    ensures exists i :: IsFirstWithId(expenses, id.value, i)
                     && UpdatedAt(expenses, UpdateCommand(expenses, id, description, amount).expenses, i, description, amount)
  {
    var index := FindIndex(expenses, id.value);
    assert IsFirstWithId(expenses, id.value, index);
  }

  /**
   * `after` is `before` with only the record at i edited: its id and date kept,
   * its description replaced when one was supplied, its amount replaced when
   * one was given.
   */
  predicate UpdatedAt(before: seq<Expense>, after: seq<Expense>, i: int, description: Option<string>, amount: Arg<real>)
    requires 0 <= i < |before|
  {
    && |after| == |before|
    && (forall k :: 0 <= k < |before| && k != i ==> after[k] == before[k])
    && after[i].id == before[i].id
    && after[i].date == before[i].date
    && after[i].description == (if Supplied(description) then description.value else before[i].description)
    && after[i].amount == (if amount.Given? && amount.parsed.Some? then amount.parsed.value else before[i].amount)
  }

  /** The `summary` handler: the overall total, or the total of one month of any year. */
  function SummaryCommand(expenses: seq<Expense>, month: Arg<int>): (r: Result<Summary>)
    ensures r.Err? <==> month.Given? && !(month.parsed.Some? && 1 <= month.parsed.value <= 12)
    ensures r.Err? ==> r.failure == InvalidMonth
    ensures r.Ok? && r.value.Overall? <==> !month.Given?
    ensures r.Ok? && r.value.ForMonth? ==> r.value.month == month.parsed.value
    ensures r.Ok? && r.value.Overall? ==> r.value.total == Total(expenses)
    ensures r.Ok? && r.value.ForMonth? ==> r.value.total == Total(InMonth(expenses, r.value.month))
  {
    if month.Given? then
      if month.parsed.None? || month.parsed.value < 1 || month.parsed.value > 12 then Err(InvalidMonth)
      else Ok(ForMonth(month.parsed.value, Total(InMonth(expenses, month.parsed.value))))
    else Ok(Overall(Total(expenses)))
  }
}
