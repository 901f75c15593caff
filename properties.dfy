/**
 * Properties that relate several command runs: what a successful add,
 * delete or update does to the totals `summary` reports, how delete undoes
 * add, and that getNewId hands out an id again once the record holding the
 * largest id is deleted.
 */
module CommandProperties {
  import opened Options
  import opened Dates
  import opened Expenses
  import opened Commands

  /** Deleting the record an add just created gives back the collection the add started from. */
  lemma AddThenDeleteRestores(s: seq<Expense>, description: string, amount: Option<real>, today: CalendarDate)
    requires ValidDate(today)
    requires AddCommand(s, description, amount, today).outcome.Ok?
    ensures DeleteCommand(AddCommand(s, description, amount, today).expenses,
                          Some(AddCommand(s, description, amount, today).outcome.value))
         == Transition(Ok(()), s)
  {
    var added := AddCommand(s, description, amount, today);
    var id := added.outcome.value;
    var t := DeleteCommand(added.expenses, Some(id));
    assert added.expenses[|s|].id == id;
    var i :| IsFirstWithId(added.expenses, id, i) && t.expenses == RemoveAt(added.expenses, i);
    assert t.expenses == s;
  }

  /**
   * Ids are not reserved: after an add and the deletion of the record it
   * created, the next add hands out the same id again.
   */
  lemma DeletedIdIsHandedOutAgain(
    s: seq<Expense>, description: string, amount: Option<real>, today: CalendarDate,
    description': string, amount': Option<real>, today': CalendarDate)
    requires ValidDate(today) && ValidDate(today')
    requires AddCommand(s, description, amount, today).outcome.Ok?
    requires AddCommand(s, description', amount', today').outcome.Ok?
    ensures var id := AddCommand(s, description, amount, today).outcome.value;
            var afterDelete := DeleteCommand(AddCommand(s, description, amount, today).expenses, Some(id)).expenses;
            AddCommand(afterDelete, description', amount', today').outcome == Ok(id)
  {
    AddThenDeleteRestores(s, description, amount, today);
  }

  /** A successful add raises the overall total by the amount added. */
  lemma AddRaisesTotal(s: seq<Expense>, description: string, amount: Option<real>, today: CalendarDate)
    requires ValidDate(today)
    requires AddCommand(s, description, amount, today).outcome.Ok?
    ensures Total(AddCommand(s, description, amount, today).expenses) == Total(s) + amount.value
  {
    var t := AddCommand(s, description, amount, today);
    assert t.expenses[..|s|] == s;
  }

  /** A successful add raises the total of the current month, of any year, and of no other month. */
  lemma AddRaisesMonthTotal(s: seq<Expense>, description: string, amount: Option<real>, today: CalendarDate, month: int)
    requires ValidDate(today)
    requires AddCommand(s, description, amount, today).outcome.Ok?
    ensures Total(InMonth(AddCommand(s, description, amount, today).expenses, month))
         == Total(InMonth(s, month)) + (if month == today.month then amount.value else 0.0)
  {
    var t := AddCommand(s, description, amount, today);
    MonthOfFormatDate(today);
    MonthTotalSnoc(s, t.expenses[|s|], month);
  }

  /** A successful delete lowers the overall total by the amount of the record removed. */
  lemma DeleteLowersTotal(s: seq<Expense>, id: int)
    requires DeleteCommand(s, Some(id)).outcome.Ok?
    ensures HasId(s, id)
    ensures Total(DeleteCommand(s, Some(id)).expenses) == Total(s) - s[FindIndex(s, id)].amount
  {
    var t := DeleteCommand(s, Some(id));
    var i :| IsFirstWithId(s, id, i) && t.expenses == RemoveAt(s, i);
    TotalRemoveAt(s, i);
  }

  /** A successful update changes the overall total by the difference of the one record's amounts. */
  lemma UpdateShiftsTotal(s: seq<Expense>, id: int, description: Option<string>, amount: Arg<real>)
    requires UpdateCommand(s, Some(id), description, amount).outcome.Ok?
    ensures HasId(s, id)
    ensures var i := FindIndex(s, id);
            var t := UpdateCommand(s, Some(id), description, amount).expenses;
            Total(t) == Total(s) - s[i].amount + t[i].amount
  {
    UpdateEditsFirstMatch(s, Some(id), description, amount);
    var t := UpdateCommand(s, Some(id), description, amount).expenses;
    var i :| IsFirstWithId(s, id, i) && UpdatedAt(s, t, i, description, amount);
    assert t == s[i := t[i]];
    TotalReplaceAt(s, i, t[i]);
  }

  /**
   * An update keeps every id and every date, and writes only a description
   * that is not blank and a positive amount, so it keeps the collection's invariant.
   */
  lemma UpdateKeepsWellFormed(s: seq<Expense>, id: Option<int>, description: Option<string>, amount: Arg<real>)
    requires WellFormed(s)
    ensures WellFormed(UpdateCommand(s, id, description, amount).expenses)
  {
    var t := UpdateCommand(s, id, description, amount);
    if t.outcome.Ok? {
      UpdateEditsFirstMatch(s, id, description, amount);
      UpdateRejects(s, id, description, amount);
      var i :| IsFirstWithId(s, id.value, i) && UpdatedAt(s, t.expenses, i, description, amount);
      assert ValidEntry(t.expenses[i]);
      SameIdsAndDatesKeepWellFormed(s, t.expenses);
    }
  }

  /** When every stored date is readable, the twelve monthly summaries add up to the overall summary. */
  lemma MonthlySummariesAddUp(s: seq<Expense>)
    requires DatedRecords(s)
    ensures SummaryCommand(s, Absent) == Ok(Overall(MonthsTotal(s, 12)))
    ensures forall m :: 1 <= m <= 12 ==> SummaryCommand(s, Given(Some(m))) == Ok(ForMonth(m, Total(InMonth(s, m))))
  {
    MonthsPartitionTotal(s);
  }
}
