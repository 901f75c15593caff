/**
 * The persisted collection (`data.json`) and the three handlers that change
 * it. Each handler loads the whole collection into a working copy, edits the
 * copy, and writes it back only on its success path; every early return
 * leaves what is stored as it was.
 */
module ExpenseStore {
  import opened Options
  import opened Dates
  import opened JsText
  import opened Expenses
  import opened Commands
  import opened CommandProperties

  class Store {
    /** The collection as it is stored between two commands. */
    var expenses: seq<Expense>

    /** A store holding `persisted`, as loadExpenses finds it (empty when data.json is new). */
    constructor (persisted: seq<Expense>)
      ensures expenses == persisted
    {
      expenses := persisted;
    }

    /** `add --description <description> --amount <amount>`, dated `today`. */
    method Add(description: string, amount: Option<real>, today: CalendarDate) returns (r: Result<int>)
      requires ValidDate(today)
      modifies this
      ensures Transition(r, expenses) == AddCommand(old(expenses), description, amount, today)
      ensures WellFormed(old(expenses)) ==> WellFormed(expenses)
    {
      if Trim(description) == [] {
        return Err(EmptyDescription);
      }
      if amount.None? || amount.value <= 0.0 {
        return Err(InvalidAmount);
      }
      var working := expenses;
      var id := NewId(working);
      working := working + [Expense(id, FormatDate(today), description, amount.value)];
      expenses := working;
      r := Ok(id);
    }

    /** `delete --id <id>`. */
    method Delete(id: Option<int>) returns (r: Result<()>)
      modifies this
      ensures Transition(r, expenses) == DeleteCommand(old(expenses), id)
      ensures WellFormed(old(expenses)) ==> WellFormed(expenses)
    {
      var working := expenses;
      if id.None? {
        return Err(InvalidId);
      }
      var index := FindIndex(working, id.value);
      if index == -1 {
        return Err(NotFound(id.value));
      }
      working := working[..index] + working[index + 1..];
      expenses := working;
      r := Ok(());
    }

    /**
     * `update --id <id> [--description <description>] [--amount <amount>]`.
     * The description is written into the working copy before the amount is
     * checked; a bad amount then returns without saving that copy.
     */
    method Update(id: Option<int>, description: Option<string>, amount: Arg<real>) returns (r: Result<int>)
      modifies this
      ensures Transition(r, expenses) == UpdateCommand(old(expenses), id, description, amount)
      ensures WellFormed(old(expenses)) ==> WellFormed(expenses)
    {
      var working := expenses;
      ghost var loaded := working;
      ghost var spec := UpdateCommand(loaded, id, description, amount);
      if WellFormed(loaded) {
        UpdateKeepsWellFormed(loaded, id, description, amount);
      }
      if id.None? {
        return Err(InvalidId);
      }
      var index := FindIndex(working, id.value);
      if index == -1 {
        return Err(NotFound(id.value));
      }
      var expense := working[index];
      if Supplied(description) {
        if Trim(description.value) == [] {
          return Err(EmptyDescription);
        }
        expense := expense.(description := description.value);
        working := working[index := expense];
      }
      assert working == loaded[index := expense];
      if amount.Given? {
        if amount.parsed.None? || amount.parsed.value <= 0.0 {
          return Err(InvalidAmount);
        }
        var edited := expense.(amount := amount.parsed.value);
        OverwriteAt(loaded, index, expense, edited);
        expense := edited;
        working := working[index := expense];
      }
      assert expense == Edited(loaded[index], description, amount);
      assert spec == Transition(Ok(id.value), loaded[index := expense]);
      expenses := working;
      r := Ok(id.value);
    }
  }
}
