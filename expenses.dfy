/**
 * The expense record and the collection operations the command handlers use:
 * id allocation (`getNewId`), lookup by id (`findIndex`), removal (`splice`)
 * and the totals of the summary (`filter` and `reduce`).
 */
module Expenses {
  import opened Options
  import opened Dates
  import opened JsText

  /** One stored expense; `date` is the stored `YYYY-MM-DD` text. */
  datatype Expense = Expense(id: int, date: string, description: string, amount: real)

  predicate HasId(s: seq<Expense>, id: int) {
    exists i :: 0 <= i < |s| && s[i].id == id
  }

  /** No two records share an id. */
  predicate DistinctIds(s: seq<Expense>) {
    forall i, j :: 0 <= i < j < |s| ==> s[i].id != s[j].id
  }

  predicate PositiveIds(s: seq<Expense>) {
    forall i :: 0 <= i < |s| ==> s[i].id >= 1
  }

  predicate DatedRecords(s: seq<Expense>) {
    forall i :: 0 <= i < |s| ==> MonthOf(s[i].date).Some?
  }

  /** Every amount is at least 0, as every amount `add` and `update` accept is. */
  predicate NonNegativeAmounts(s: seq<Expense>) {
    forall i :: 0 <= i < |s| ==> s[i].amount >= 0.0
  }

  /** A record `add` or `update` could have written: a positive amount and a description that is not blank. */
  predicate ValidEntry(e: Expense) {
    e.amount > 0.0 && !IsBlank(e.description)
  }

  predicate ValidEntries(s: seq<Expense>) {
    forall i :: 0 <= i < |s| ==> ValidEntry(s[i])
  }

  /**
   * The invariant of a collection the tool itself built: unique positive ids,
   * readable dates, positive amounts and non-blank descriptions.
   */
  predicate WellFormed(s: seq<Expense>) {
    DistinctIds(s) && PositiveIds(s) && DatedRecords(s) && ValidEntries(s)
  }

  /** The amounts of a well-formed collection are never negative, so its totals are not either. */
  lemma WellFormedTotals(s: seq<Expense>, month: int)
    requires WellFormed(s)
    ensures NonNegativeAmounts(s)
    ensures 0.0 <= Total(InMonth(s, month)) <= Total(s)
  {
    MonthTotalAtMostTotal(s, month);
  }

  /** `Math.max(...expenses.map(e => e.id))`. */
  function MaxId(s: seq<Expense>): (m: int)
    requires |s| > 0
    ensures forall i :: 0 <= i < |s| ==> s[i].id <= m
    ensures HasId(s, m)
  {
    if |s| == 1 then s[0].id
    else
      var rest := MaxId(s[1..]);
      if s[0].id >= rest then s[0].id else rest
  }

  /** `getNewId`: 1 for an empty collection, otherwise one more than the largest id. */
  function NewId(s: seq<Expense>): (id: int)
    ensures |s| == 0 ==> id == 1
    ensures |s| > 0 ==> HasId(s, id - 1)
    ensures forall i :: 0 <= i < |s| ==> s[i].id < id
  {
    if |s| == 0 then 1 else MaxId(s) + 1
  }

  /** The id getNewId hands out belongs to no record, and is positive when every stored id is. */
  lemma NewIdIsFresh(s: seq<Expense>)
    ensures !HasId(s, NewId(s))
    ensures PositiveIds(s) ==> NewId(s) >= 1
  {
    if |s| > 0 {
      var k :| 0 <= k < |s| && s[k].id == NewId(s) - 1;
    }
  }

  /** Appending a valid record with a fresh positive id and a readable date keeps the invariant. */
  lemma AppendKeepsWellFormed(s: seq<Expense>, e: Expense)
    requires !HasId(s, e.id) && e.id >= 1 && MonthOf(e.date).Some? && ValidEntry(e)
    ensures WellFormed(s) ==> WellFormed(s + [e])
  {
    if WellFormed(s) {
      var r := s + [e];
      forall i, j | 0 <= i < j < |r|
        ensures r[i].id != r[j].id
      {
        if j == |s| { assert r[i] == s[i]; }
      }
    }
  }

  /**
   * The record `add` appends keeps the invariant: its id is getNewId's, its
   * date is written by the clock, and its description and amount passed the checks.
   */
  lemma AppendNewRecordKeepsWellFormed(s: seq<Expense>, today: CalendarDate, description: string, amount: real)
    requires ValidDate(today) && amount > 0.0 && !IsBlank(description)
    ensures WellFormed(s) ==> WellFormed(s + [Expense(NewId(s), FormatDate(today), description, amount)])
  {
    if WellFormed(s) {
      NewIdIsFresh(s);
      MonthOfFormatDate(today);
      AppendKeepsWellFormed(s, Expense(NewId(s), FormatDate(today), description, amount));
    }
  }

  /** i is the position of the first record carrying id. */
  predicate IsFirstWithId(s: seq<Expense>, id: int, i: int) {
    0 <= i < |s| && s[i].id == id && forall j :: 0 <= j < i ==> s[j].id != id
  }

  /** `expenses.findIndex(e => e.id === id)`: the first position with that id, or -1. */
  function FindIndex(s: seq<Expense>, id: int): (r: int)
    ensures r == -1 <==> !HasId(s, id)
    ensures r != -1 ==> IsFirstWithId(s, id, r)
  {
    if |s| == 0 then -1
    else if s[0].id == id then 0
    else
      var k := FindIndex(s[1..], id);
      if k == -1 then -1 else k + 1
  }

  /** With distinct ids the first record with an id is the only one. */
  lemma FirstIsOnly(s: seq<Expense>, id: int, i: int)
    requires DistinctIds(s) && IsFirstWithId(s, id, i)
    ensures forall j :: 0 <= j < |s| && j != i ==> s[j].id != id
  {
  }

  /** Writing position i twice leaves only the second write. */
  lemma OverwriteAt(s: seq<Expense>, i: int, first: Expense, second: Expense)
    requires 0 <= i < |s|
    ensures s[i := first][i := second] == s[i := second]
  {
    var twice, once := s[i := first][i := second], s[i := second];
    assert forall k :: 0 <= k < |s| ==> twice[k] == once[k];
  }

  /** `splice(i, 1)`: the record at i removed, the others kept in order. */
  function RemoveAt(s: seq<Expense>, i: int): (r: seq<Expense>)
    requires 0 <= i < |s|
    ensures |r| == |s| - 1
    ensures forall k :: 0 <= k < i ==> r[k] == s[k]
    ensures forall k :: i <= k < |r| ==> r[k] == s[k + 1]
  {
    s[..i] + s[i + 1..]
  }

  /** Removing a record keeps the invariant, and with distinct ids its id is gone. */
  lemma RemoveAtKeepsWellFormed(s: seq<Expense>, i: int)
    requires 0 <= i < |s|
    ensures WellFormed(s) ==> WellFormed(RemoveAt(s, i)) && !HasId(RemoveAt(s, i), s[i].id)
    ensures forall id :: id != s[i].id ==> (HasId(RemoveAt(s, i), id) <==> HasId(s, id))
  {
    var r := RemoveAt(s, i);
    forall id | id != s[i].id
      ensures HasId(r, id) <==> HasId(s, id)
    {
      if HasId(s, id) {
        var k :| 0 <= k < |s| && s[k].id == id;
        if k < i { assert r[k].id == id; } else { assert r[k - 1].id == id; }
      }
      if HasId(r, id) {
        var k :| 0 <= k < |r| && r[k].id == id;
        if k < i { assert s[k].id == id; } else { assert s[k + 1].id == id; }
      }
    }
    if WellFormed(s) {
      forall a, b | 0 <= a < b < |r|
        ensures r[a].id != r[b].id
      {
        var a', b' := if a < i then a else a + 1, if b < i then b else b + 1;
        assert r[a] == s[a'] && r[b] == s[b'];
      }
    }
  }

  /**
   * `reduce((sum, e) => sum + e.amount, 0)`: the amounts added from the left.
   * The sum is exact; the tool adds IEEE doubles.
   */
  function Total(s: seq<Expense>): (r: real) {
    if s == [] then 0.0 else Total(s[..|s| - 1]) + s[|s| - 1].amount
  }

  /** A list whose amounts are all at least 0 sums to at least 0. */
  lemma {:induction false} TotalNonNegative(s: seq<Expense>)
    requires NonNegativeAmounts(s)
    ensures Total(s) >= 0.0
  {
    if s != [] {
      TotalNonNegative(s[..|s| - 1]);
    }
  }

  /**
   * `filter(e => <month of e.date> === month)`: every record of that month,
   * each as often as it occurs, in collection order.
   */
  function InMonth(s: seq<Expense>, month: int): (r: seq<Expense>)
    ensures |r| <= |s|
    ensures forall e :: e in r <==> e in s && MonthOf(e.date) == Some(month)
  {
    if s == [] then []
    else
      var last := s[|s| - 1];
      InMonth(s[..|s| - 1], month) + (if MonthOf(last.date) == Some(month) then [last] else [])
  }

  /** The filter keeps each record of the month as often as it occurs, and no other record. */
  lemma {:induction false} InMonthCounts(s: seq<Expense>, month: int)
    ensures forall e :: multiset(InMonth(s, month))[e] == if MonthOf(e.date) == Some(month) then multiset(s)[e] else 0
  {
    if s != [] {
      var init, last := s[..|s| - 1], s[|s| - 1];
      assert s == init + [last];
      InMonthCounts(init, month);
    }
  }

  /** The total of two collections placed one after the other is the sum of their totals. */
  lemma {:induction false} TotalAppend(a: seq<Expense>, b: seq<Expense>)
    ensures Total(a + b) == Total(a) + Total(b)
  {
    if b == [] {
      assert a + b == a;
    } else {
      var b', last := b[..|b| - 1], b[|b| - 1];
      assert a + b == (a + b') + [last];
      calc {
        Total(a + b);
        Total((a + b') + [last]);
        { assert ((a + b') + [last])[..|a + b'|] == a + b'; }
        Total(a + b') + last.amount;
        { TotalAppend(a, b'); }
        Total(a) + Total(b') + last.amount;
        Total(a) + Total(b);
      }
    }
  }

  /** Appending one record raises the total by its amount. */
  lemma TotalSnoc(s: seq<Expense>, e: Expense)
    ensures Total(s + [e]) == Total(s) + e.amount
  {
    assert (s + [e])[..|s|] == s;
  }

  /** Removing one record lowers the total by its amount. */
  lemma TotalRemoveAt(s: seq<Expense>, i: int)
    requires 0 <= i < |s|
    ensures Total(RemoveAt(s, i)) == Total(s) - s[i].amount
  {
    var front, back := s[..i], s[i + 1..];
    assert Total(RemoveAt(s, i)) == Total(front) + Total(back) by {
      assert RemoveAt(s, i) == front + back;
      TotalAppend(front, back);
    }
    TotalSplit(s, i);
  }

  /** Replacing one record shifts the total by the difference of the two amounts. */
  lemma TotalReplaceAt(s: seq<Expense>, i: int, e: Expense)
    requires 0 <= i < |s|
    ensures Total(s[i := e]) == Total(s) - s[i].amount + e.amount
  {
    var t := s[i := e];
    assert t[..i] == s[..i] && t[i + 1..] == s[i + 1..];
    TotalSplit(s, i);
    TotalSplit(t, i);
  }

  /** The total is the total before position i, plus the amount at i, plus the total after it. */
  lemma TotalSplit(s: seq<Expense>, i: int)
    requires 0 <= i < |s|
    ensures Total(s) == Total(s[..i]) + s[i].amount + Total(s[i + 1..])
  {
    var front, back := s[..i], s[i + 1..];
    assert s == (front + [s[i]]) + back;
    TotalAppend(front + [s[i]], back);
    TotalSnoc(front, s[i]);
  }

  /**
   * A collection with the same ids and dates, position by position, whose
   * changed records are valid entries, keeps the invariant.
   */
  lemma SameIdsAndDatesKeepWellFormed(s: seq<Expense>, t: seq<Expense>)
    requires |s| == |t|
    requires forall k :: 0 <= k < |s| ==> t[k].id == s[k].id && t[k].date == s[k].date
    requires forall k :: 0 <= k < |s| && t[k] != s[k] ==> ValidEntry(t[k])
    ensures WellFormed(s) ==> WellFormed(t)
  {
  }

  /** Filtering by month commutes with placing two collections one after the other. */
  lemma {:induction false} InMonthAppend(a: seq<Expense>, b: seq<Expense>, month: int)
    ensures InMonth(a + b, month) == InMonth(a, month) + InMonth(b, month)
  {
    if b == [] {
      assert a + b == a;
    } else {
      var b', last := b[..|b| - 1], b[|b| - 1];
      assert a + b == (a + b') + [last];
      assert ((a + b') + [last])[..|a + b'|] == a + b';
      InMonthAppend(a, b', month);
    }
  }

  /** A month no record falls in totals 0. */
  lemma MonthTotalWithoutMatches(s: seq<Expense>, month: int)
    requires forall e :: e in s ==> MonthOf(e.date) != Some(month)
    ensures Total(InMonth(s, month)) == 0.0
  {
  }

  /** With no negative amount, a month's total never exceeds the overall total. */
  lemma {:induction false} MonthTotalAtMostTotal(s: seq<Expense>, month: int)
    requires NonNegativeAmounts(s)
    ensures 0.0 <= Total(InMonth(s, month)) <= Total(s)
  {
    if s != [] {
      var init, last := s[..|s| - 1], s[|s| - 1];
      MonthTotalAtMostTotal(init, month);
      var tail := if MonthOf(last.date) == Some(month) then [last] else [];
      TotalAppend(InMonth(init, month), tail);
    }
  }

  /** The totals of months 1..k added together. */
  function MonthsTotal(s: seq<Expense>, k: nat): (r: real) {
    if k == 0 then 0.0 else MonthsTotal(s, k - 1) + Total(InMonth(s, k))
  }

  /** What the last record adds to one month's total. */
  lemma MonthTotalSnoc(s: seq<Expense>, e: Expense, month: int)
    ensures Total(InMonth(s + [e], month))
         == Total(InMonth(s, month)) + (if MonthOf(e.date) == Some(month) then e.amount else 0.0)
  {
    var tail := if MonthOf(e.date) == Some(month) then [e] else [];
    assert (s + [e])[..|s + [e]| - 1] == s;
    assert InMonth(s + [e], month) == InMonth(s, month) + tail;
    TotalAppend(InMonth(s, month), tail);
    assert tail != [] ==> tail[..0] == [];
  }

  /** What the last record adds to the totals of months 1..k. */
  lemma {:induction false} MonthsTotalSnoc(s: seq<Expense>, e: Expense, k: nat)
    ensures MonthsTotal(s + [e], k)
         == MonthsTotal(s, k) + (if MonthOf(e.date).Some? && MonthOf(e.date).value <= k then e.amount else 0.0)
  {
    if k > 0 {
      MonthsTotalSnoc(s, e, k - 1);
      MonthTotalSnoc(s, e, k);
    }
  }

  /** When every record has a readable date, the twelve monthly totals add up to the overall total. */
  lemma {:induction false} MonthsPartitionTotal(s: seq<Expense>)
    requires DatedRecords(s)
    ensures MonthsTotal(s, 12) == Total(s)
  {
    if s == [] {
      MonthsTotalOfEmpty(12);
    } else {
      var init, last := s[..|s| - 1], s[|s| - 1];
      assert s == init + [last];
      MonthsPartitionTotal(init);
      MonthsTotalSnoc(init, last, 12);
    }
  }

  lemma {:induction false} MonthsTotalOfEmpty(k: nat)
    ensures MonthsTotal([], k) == 0.0
  {
    if k > 0 { MonthsTotalOfEmpty(k - 1); }
  }
}
