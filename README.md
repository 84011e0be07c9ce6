# Marks book and expense ledger, modelled in Dafny

This project models the two small record-keeping applications of the
repository that carry logic of their own:

- **Student performance analyzer** (`Pr_12.py`). A teacher adds
  `(name, marks)` pairs. A pair is accepted only when the name is non-empty
  and the marks field is numeric. The report bands every mark into a letter
  grade with `pd.cut(bins=[0,50,60,70,80,90,100], labels=[F,D,C,B,A,A+],
  right=False)`. An empty list gives a warning instead of a report.
- **Expense tracker** (`Pr_13.py`). A user adds `(category, amount)` rows.
  A row is accepted only when the category is non-empty and the amount is
  numeric. Every accepted row is followed by a save of the whole table to
  `expenses.csv`, and the table is loaded from that file at start-up when it
  exists. The report is `groupby('Category').sum()`: one line per distinct
  category, in ascending key order, with the category's total. An empty table
  gives a warning instead of a report.

Files:

- `wrappers.dfy`: module `Wrappers`, the `Option` type. `None` stands for a
  pandas NaN and for a report that is not produced.
- `numeric.dfy`: module `Numeric`. `IsNumeric` is `str.isnumeric()` over
  ASCII digits. `ParseNat` is `int(...)` of such a string, and agrees with it up to
  4300 digits (CPython's default limit on `int()` of a string); `float(...)`
  is guaranteed to agree with it below 2^53; above that it rounds to the
  nearest double.
  `ShowNat` is decimal rendering, the partner used for the round trip.
- `performance.dfy`: module `Performance`. `Cut` is pandas' half-open binning
  over any strictly increasing edge list. `GradeOf` applies it to the source's
  edges and labels. The class `PerformanceAnalyzer` holds the `students` list.
- `string_order.dfy`: module `StringOrder`, Python's `<` on `str`. It orders
  the keys of a `groupby` result; it is proved a strict total order.
- `expenses.dfy`: module `Expenses`. `GroupSum` folds the rows one at a time
  into a sorted report (`Insert`). The class `ExpenseTracker` holds the table
  `expenses` and a field `saved` that stands for the contents of
  `expenses.csv` (`None` while the file does not exist).

The user's input (the two text fields) becomes the parameters of the add
methods. Each dialog becomes the method's accept/reject result, or a `None`
report.

## Model

| member | source | states |
|---|---|---|
| `Numeric.IsNumeric` | Pr_12.py:32 | the acceptance test of both add actions: non-empty and every character an ASCII digit, so an accepted string carries no sign and no blanks |
| `Numeric.ParseNat` | Pr_12.py:33 | `int()` of an n-digit string is a natural number below 10^n, so a stored mark can never be negative |
| `Numeric.ParseShowNat` | Pr_12.py:33 | parsing undoes decimal rendering: `int(str(n)) == n` for every natural n |
| `Numeric.ParseNatLeadingZero` | Pr_13.py:39 | a leading zero does not change the parsed value (`"007"` is accepted as 7) |
| `Performance.Cut` | Pr_12.py:47-48 | for strictly increasing edges, the result is the unique bin i with `bins[i] <= x < bins[i+1]`; it is missing exactly when x is below the first edge or at or above the last |
| `Performance.CutMonotone` | Pr_12.py:47-48 | a larger value never lands in an earlier bin |
| `Performance.GradeOf` | Pr_12.py:47-48 | a mark gets a grade exactly when it lies in 0..99; a mark of 100 or more gets none because `right=False` excludes the edge 100 |
| `Performance.GradeBands` | Pr_12.py:47-48 | 0-49 is F, 50-59 D, 60-69 C, 70-79 B, 80-89 A, 90-99 A+, each band lower-inclusive and upper-exclusive, in both directions |
| `Performance.GradeMonotone` | Pr_12.py:47-48 | for marks m1 <= m2 in 0..99, the grade of m1 is no better than the grade of m2 |
| `Performance.GradeRows` | Pr_12.py:45-48 | the graded frame has one row per student, in list order, with the student's name, marks and the grade of those marks |
| `Performance.PerformanceAnalyzer.constructor` | Pr_12.py:15 | the list starts empty, so the all-marks-non-negative invariant holds |
| `Performance.PerformanceAnalyzer.AddStudent` | Pr_12.py:29-38 | accepts exactly when the name is non-empty and the marks string is numeric; on acceptance appends `(name, int(marks))` as the last entry with earlier entries unchanged; on rejection the list is unchanged; every stored mark stays non-negative |
| `Performance.PerformanceAnalyzer.GenerateReport` | Pr_12.py:40-48 | no report exactly when the list is empty; otherwise one graded row per student, in list order, and a row lacks a grade exactly when its mark is 100 or more |
| `StringOrder.Less` | Pr_13.py:53 | the order of the grouped keys: code-point lexicographic order, a proper prefix first |
| `StringOrder.LessIrreflexive` | Pr_13.py:53 | no category sorts before itself |
| `StringOrder.LessTransitive` | Pr_13.py:53 | the key order is transitive |
| `StringOrder.LessTotal` | Pr_13.py:53 | of two distinct categories one sorts before the other |
| `StringOrder.LessAsymmetric` | Pr_13.py:53 | two categories never sort before each other both ways |
| `Expenses.CategoryTotalAppend` | Pr_13.py:40 | appending a row `(c, a)` raises category c's total by exactly a and leaves every other category's total unchanged |
| `Expenses.Insert` | Pr_13.py:53 | folding a row into a sorted report keeps it sorted, adds its category to the keys, raises that category's total by its amount, leaves the other totals alone, and raises the sum of totals by the amount |
| `Expenses.GroupSum` | Pr_13.py:53 | the grouped report is in strictly ascending key order, its keys are exactly the categories present, and the total it shows for each category is the sum of that category's amounts |
| `Expenses.ReportLineIsCategoryTotal` | Pr_13.py:53 | every line's total equals the sum of the amounts of its own category |
| `Expenses.OneLinePerCategory` | Pr_13.py:53 | the report has exactly one line per distinct category: no two lines share a key, and the number of lines is the number of distinct categories present |
| `Expenses.TotalsSumToGrandTotal` | Pr_13.py:53 | the per-category totals add up to the sum of all amounts in the table |
| `Expenses.ReportAfterAppend` | Pr_13.py:40 | after appending `(c, a)`, the report shows c's total raised by a and every other category's total as before |
| `Expenses.ExpenseTracker.constructor` | Pr_13.py:11-14 | the table starts empty and is replaced by the saved file's rows when the file exists; the file itself is not touched |
| `Expenses.ExpenseTracker.LoadExpenses` | Pr_13.py:28-30 | the table becomes the saved rows when the file exists, and is left as it was otherwise |
| `Expenses.ExpenseTracker.SaveExpenses` | Pr_13.py:32-33 | after saving, the saved copy equals the in-memory table |
| `Expenses.ExpenseTracker.AddExpense` | Pr_13.py:35-46 | accepts exactly when the category is non-empty and the amount string is numeric; on acceptance appends `(category, amount)` as the last row and the saved copy then equals the table; on rejection neither the table nor the saved copy changes |
| `Expenses.ExpenseTracker.ShowReport` | Pr_13.py:48-53 | no report exactly when the table is empty; otherwise a report sorted by key whose keys are the categories present and whose totals are the per-category sums |

## Left out

- The tkinter windows, labels, buttons, entry clearing and `messagebox` dialogs of both applications. They are UI; a dialog is modelled only as the accept/reject result or a missing report.
- The matplotlib bar charts (Pr_12.py:55-58, Pr_13.py:54-57). They are output-only library calls.
- The average line of the marks report (Pr_12.py:46, Pr_12.py:51). `mean()` is floating point.
- `float(amount)` (Pr_13.py:39) and the float sums of the report (Pr_13.py:53): amounts and totals are exact natural numbers here, while the program's values round above 2^53 (`float("9007199254740993")` is `9007199254740992.0`) and overflow to `inf` once an amount or a total passes the float range.
- Expenses.ExpenseTracker.AddExpense: every save is assumed to succeed; a failed `to_csv` (a locked file, a read-only directory) leaves the accepted row in memory but not in the file, and its exception escapes the callback.
- The CSV format of `to_csv`/`read_csv` and `os.path.exists` (Pr_13.py:28-33). The file is the field `saved`; whatever `read_csv` would infer about column types is not modelled.
- Unicode digits: `str.isnumeric()` also accepts characters such as `'½'` or other scripts' digits, on which `int()` may fail or differ. Only ASCII `0`-`9` are modelled.
- Expenses.ExpenseTracker.LoadExpenses: a saved file whose rows are malformed (a missing column, a non-numeric amount) is not modelled; the saved copy always holds well-formed rows.
- Expenses.ExpenseTracker.LoadExpenses: loading after a save is modelled as the identity, but `read_csv` does not give back every table the add action accepts. A category such as `NA`, `N/A`, `NULL`, `null`, `NaN` or `nan` is read back as a missing value, and `groupby` drops missing keys, so after a restart that category's rows vanish from the report and its totals no longer add up to the table's amounts. A Category column whose entries are all digit strings is read back as integers, so `"007"` becomes 7 and the keys sort numerically (5 before 10) instead of in `StringOrder.Less` order.
- Performance.PerformanceAnalyzer.AddStudent: a numeric marks string longer than 4300 digits makes `int()` raise `ValueError` before the append; the program then leaves the list unchanged with no dialog, while the model accepts it.
- Performance.PerformanceAnalyzer.GenerateReport: once the sum of the stored marks exceeds the largest float (about 1.8 × 10^308), `mean()` raises `OverflowError` and no report is shown; the model still returns the graded rows.
- Pr_10.py (image viewer) and Pr_11.py (sentiment polarity). They are library calls with no logic of their own.
- employee_management(Practical 1).py and inventory_management(Practical 2).py, the keyed record managers, are not part of this model.
