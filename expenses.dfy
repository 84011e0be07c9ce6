/** The expense ledger (Pr_13.py): a table of (category, amount) rows filled
    through a validated "add expense" action that saves the table after every
    accepted row, and a report that groups the rows by category and sums the
    amounts (`groupby('Category').sum()`). */
module Expenses {

  import opened Wrappers
  import opened Numeric
  import StringOrder

  datatype Expense = Expense(category: string, amount: nat)

  /** One line of the grouped report: a category and the sum of its amounts. */
  datatype ReportRow = ReportRow(category: string, total: nat)

  // ---------------------------------------------------------------------------
  // The ledger's own totals

  /** The sum of the amounts of the rows in category c. */
  function CategoryTotal(rows: seq<Expense>, c: string): nat
  {
    if rows == [] then 0
    else (if rows[0].category == c then rows[0].amount else 0) + CategoryTotal(rows[1..], c)
  }

  /** The sum of all amounts in the table. */
  function GrandTotal(rows: seq<Expense>): nat
  {
    if rows == [] then 0 else rows[0].amount + GrandTotal(rows[1..])
  }

  /** The distinct categories present in the table. */
  function Categories(rows: seq<Expense>): set<string>
  {
    set i | 0 <= i < |rows| :: rows[i].category
  }

  /** Appending a row raises its own category's total by its amount and leaves
      every other category's total unchanged. */
  lemma {:induction false} CategoryTotalAppend(rows: seq<Expense>, e: Expense, c: string)
    ensures CategoryTotal(rows + [e], c) ==
            CategoryTotal(rows, c) + (if c == e.category then e.amount else 0)
  {
    if rows != [] {
      assert (rows + [e])[1..] == rows[1..] + [e];
      CategoryTotalAppend(rows[1..], e, c);
    }
  }

  // ---------------------------------------------------------------------------
  // The grouped report

  /** Keys strictly ascending: sorted and free of duplicates. */
  predicate Sorted(report: seq<ReportRow>)
  {
    forall i, j :: 0 <= i < j < |report| ==> StringOrder.Less(report[i].category, report[j].category)
  }

  function Keys(report: seq<ReportRow>): set<string>
  {
    set i | 0 <= i < |report| :: report[i].category
  }

  /** The total the report shows for category c (0 when c is absent); rows
      with the same key would add up. */
  function Total(report: seq<ReportRow>, c: string): nat
  {
    if report == [] then 0
    else (if report[0].category == c then report[0].total else 0) + Total(report[1..], c)
  }

  function SumTotals(report: seq<ReportRow>): nat
  {
    if report == [] then 0 else report[0].total + SumTotals(report[1..])
  }

  /** Every key of the report lies above h. */
  predicate Above(h: string, report: seq<ReportRow>)
  {
    forall j :: 0 <= j < |report| ==> StringOrder.Less(h, report[j].category)
  }

  lemma KeysCons(x: ReportRow, s: seq<ReportRow>)
    ensures Keys([x] + s) == {x.category} + Keys(s)
  {
    var t := [x] + s;
    assert t[0] == x;
    forall k | k in Keys(t) ensures k in {x.category} + Keys(s) {
      var i :| 0 <= i < |t| && t[i].category == k;
      if i > 0 { assert t[i] == s[i - 1]; }
    }
    forall k | k in Keys(s) ensures k in Keys(t) {
      var i :| 0 <= i < |s| && s[i].category == k;
      assert t[i + 1] == s[i];
    }
  }

  /** A report is sorted exactly when its first key lies below the rest and the rest is sorted. */
  lemma SortedCons(x: ReportRow, s: seq<ReportRow>)
    ensures Sorted([x] + s) <==> Above(x.category, s) && Sorted(s)
  {
    var t := [x] + s;
    if Above(x.category, s) && Sorted(s) {
      forall i, j | 0 <= i < j < |t| ensures StringOrder.Less(t[i].category, t[j].category) {
        assert t[j] == s[j - 1];
        if i > 0 { assert t[i] == s[i - 1]; }
      }
    }
    if Sorted(t) {
      forall j | 0 <= j < |s| ensures StringOrder.Less(x.category, s[j].category) {
        assert t[0] == x && t[j + 1] == s[j];
      }
      forall i, j | 0 <= i < j < |s| ensures StringOrder.Less(s[i].category, s[j].category) {
        assert t[i + 1] == s[i] && t[j + 1] == s[j];
      }
    }
  }

  /** Folds one row into a sorted report: adds to its category's line, or
      opens a new line at its place in key order. */
  function Insert(report: seq<ReportRow>, c: string, a: nat): (r: seq<ReportRow>)
    requires Sorted(report)
    ensures Sorted(r)
    ensures Keys(r) == Keys(report) + {c}
    ensures forall k :: Total(r, k) == Total(report, k) + (if k == c then a else 0)
    ensures SumTotals(r) == SumTotals(report) + a
  {
    if report == [] then
      assert Keys([ReportRow(c, a)]) == {c} by { KeysCons(ReportRow(c, a), []); }
      [ReportRow(c, a)]
    else
      var h, tail := report[0], report[1..];
      assert report == [h] + tail;
      SortedCons(h, tail);
      KeysCons(h, tail);
      if h.category == c then
        var r := [ReportRow(c, h.total + a)] + tail;
        SortedCons(ReportRow(c, h.total + a), tail);
        KeysCons(ReportRow(c, h.total + a), tail);
        assert r[1..] == tail;
        r
      else if StringOrder.Less(c, h.category) then
        var r := [ReportRow(c, a)] + report;
        LessThanAllKeys(report, c);
        SortedCons(ReportRow(c, a), report);
        KeysCons(ReportRow(c, a), report);
        assert r[1..] == report;
        r
      else
        StringOrder.LessTotal(c, h.category);
        var rest := Insert(tail, c, a);
        AboveAfterInsert(h.category, tail, rest, c);
        var r := [h] + rest;
        SortedCons(h, rest);
        KeysCons(h, rest);
        assert r[1..] == rest;
        r
  }

  /** A key below the first key of a sorted report is below all of them. */
  lemma LessThanAllKeys(report: seq<ReportRow>, c: string)
    requires Sorted(report) && report != []
    requires StringOrder.Less(c, report[0].category)
    ensures Above(c, report)
  {
    forall j | 0 < j < |report|
      ensures StringOrder.Less(c, report[j].category)
    {
      StringOrder.LessTransitive(c, report[0].category, report[j].category);
    }
  }

  /** A key below every key of tail and below c is below every key of tail with c folded in. */
  lemma AboveAfterInsert(h: string, tail: seq<ReportRow>, rest: seq<ReportRow>, c: string)
    requires Above(h, tail)
    requires Keys(rest) == Keys(tail) + {c}
    requires StringOrder.Less(h, c)
    ensures Above(h, rest)
  {
    forall j | 0 <= j < |rest|
      ensures StringOrder.Less(h, rest[j].category)
    {
      assert rest[j].category in Keys(rest);
      if rest[j].category != c {
        var m :| 0 <= m < |tail| && tail[m].category == rest[j].category;
      }
    }
  }

  /** `groupby('Category').sum()`: one line per distinct category, keys in
      ascending order, each line's total the sum of that category's amounts. */
  function GroupSum(rows: seq<Expense>): (report: seq<ReportRow>)
    ensures Sorted(report)
    ensures Keys(report) == Categories(rows)
    ensures forall k :: Total(report, k) == CategoryTotal(rows, k)
  {
    if rows == [] then []
    else
      var report := Insert(GroupSum(rows[1..]), rows[0].category, rows[0].amount);
      assert Categories(rows) == Categories(rows[1..]) + {rows[0].category} by {
        forall k | k in Categories(rows) ensures k in Categories(rows[1..]) + {rows[0].category} {
          var i :| 0 <= i < |rows| && rows[i].category == k;
          if i > 0 { assert rows[1..][i - 1] == rows[i]; }
        }
      }
      report
  }

  /** In a sorted report a line's total is everything the report shows for its key. */
  lemma {:induction false} SortedTotalAt(report: seq<ReportRow>, i: nat)
    requires Sorted(report) && i < |report|
    ensures Total(report, report[i].category) == report[i].total
  {
    var k := report[i].category;
    assert report == [report[0]] + report[1..];
    SortedCons(report[0], report[1..]);
    if i == 0 {
      AbsentTotal(report[1..], k);
    } else {
      StringOrder.LessAsymmetric(report[0].category, k);
      SortedTotalAt(report[1..], i - 1);
    }
  }

  /** A key below every key of the report has nothing in it. */
  lemma {:induction false} AbsentTotal(report: seq<ReportRow>, k: string)
    requires Above(k, report)
    ensures Total(report, k) == 0
  {
    if report != [] {
      StringOrder.LessIrreflexive(k);
      assert Above(k, report[1..]) by {
        forall j | 0 <= j < |report[1..]| ensures StringOrder.Less(k, report[1..][j].category) {
          assert report[1..][j] == report[j + 1];
        }
      }
      AbsentTotal(report[1..], k);
    }
  }

  /** Every line of the report carries exactly its category's total. */
  lemma ReportLineIsCategoryTotal(rows: seq<Expense>, i: nat)
    requires i < |GroupSum(rows)|
    ensures GroupSum(rows)[i].total == CategoryTotal(rows, GroupSum(rows)[i].category)
  {
    SortedTotalAt(GroupSum(rows), i);
  }

  /** The report has exactly one line per distinct category. */
  lemma OneLinePerCategory(rows: seq<Expense>)
    ensures |GroupSum(rows)| == |Categories(rows)|
    ensures forall i, j :: 0 <= i < j < |GroupSum(rows)| ==>
              GroupSum(rows)[i].category != GroupSum(rows)[j].category
  {
    var report := GroupSum(rows);
    forall i, j | 0 <= i < j < |report| ensures report[i].category != report[j].category {
      StringOrder.LessIrreflexive(report[i].category);
    }
    DistinctKeysCount(report);
  }

  lemma {:induction false} DistinctKeysCount(report: seq<ReportRow>)
    requires forall i, j :: 0 <= i < j < |report| ==> report[i].category != report[j].category
    ensures |Keys(report)| == |report|
  {
    if report != [] {
      var tail := report[1..];
      assert Keys(report) == {report[0].category} + Keys(tail) by {
        forall k | k in Keys(report) ensures k in {report[0].category} + Keys(tail) {
          var i :| 0 <= i < |report| && report[i].category == k;
          if i > 0 { assert tail[i - 1] == report[i]; }
        }
      }
      assert report[0].category !in Keys(tail);
      DistinctKeysCount(tail);
    }
  }

  /** The per-category totals add up to the sum of all amounts. */
  lemma {:induction false} TotalsSumToGrandTotal(rows: seq<Expense>)
    ensures SumTotals(GroupSum(rows)) == GrandTotal(rows)
  {
    if rows != [] {
      TotalsSumToGrandTotal(rows[1..]);
    }
  }

  /** After appending (c, a) to the table the report shows c's total raised by
      a and every other category's total as before. */
  lemma ReportAfterAppend(rows: seq<Expense>, e: Expense, k: string)
    ensures Total(GroupSum(rows + [e]), k) ==
            Total(GroupSum(rows), k) + (if k == e.category then e.amount else 0)
  {
    CategoryTotalAppend(rows, e, k);
  }

  // ---------------------------------------------------------------------------
  // The tracker

  class ExpenseTracker {

    var expenses: seq<Expense>

    /** The contents of expenses.csv; None while the file does not exist. */
    var saved: Option<seq<Expense>>

    /** Starts from an empty table and loads the saved file if there is one. */
    constructor (file: Option<seq<Expense>>)
      ensures saved == file
      ensures expenses == if file.Some? then file.value else []
    {
      expenses := [];
      saved := file;
      new;
      LoadExpenses();
    }

    /** Replaces the table with the saved file when it exists. */
    method LoadExpenses()
      modifies this`expenses
      ensures expenses == if saved.Some? then saved.value else old(expenses)
    {
      if saved.Some? {
        expenses := saved.value;
      }
    }

    /** Overwrites the saved file with the current table. */
    method SaveExpenses()
      modifies this`saved
      ensures saved == Some(expenses)
    {
      saved := Some(expenses);
    }

    /** Appends (category, amount) and saves when the category is non-empty and
        the amount is numeric; otherwise rejects and changes nothing. */
    method AddExpense(category: string, amount: string) returns (accepted: bool)
      modifies this
      ensures accepted <==> category != [] && IsNumeric(amount)
      ensures accepted ==> expenses == old(expenses) + [Expense(category, ParseNat(amount))]
      ensures accepted ==> saved == Some(expenses)
      ensures !accepted ==> expenses == old(expenses) && saved == old(saved)
    {
      if category != [] && IsNumeric(amount) {
        expenses := expenses + [Expense(category, ParseNat(amount))];
        SaveExpenses();
        accepted := true;
      } else {
        accepted := false;
      }
    }

    /** The grouped totals, or None (a warning) when the table is empty. */
    function ShowReport(): (report: Option<seq<ReportRow>>)
      reads this
      ensures report.None? <==> expenses == []
      ensures report.Some? ==> Sorted(report.value) && Keys(report.value) == Categories(expenses)
      ensures report.Some? ==> forall k :: Total(report.value, k) == CategoryTotal(expenses, k)
    {
      if expenses == [] then None else Some(GroupSum(expenses))
    }
  }
}
