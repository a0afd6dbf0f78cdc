/**
 * `clean_csv_file` and `clean_all_csv_files`: each exported CSV table loses
 * its final (total) row, gets its `Finess` establishment codes zero-padded
 * to nine characters, and has its four stay/session count columns turned
 * into integers, the disclosure-suppression label "1 à 10" counting as 5.
 */
module Cleaning {
  import opened Wrappers
  import opened Tables

  const FinessColumn: string := "Finess"
  const FinessWidth: nat := 9

  /** The label ScanSante prints instead of a count between 1 and 10. */
  const Sentinel: string := "1 à 10"
  /** What the label is replaced with before the column is made numeric. */
  const SentinelReplacement: string := "5"

  const CountColumns: seq<string> := [
    "Nombre de séjours/séances total",
    "Nombre de séjours en hospit complète",
    "Nombre de séjours en hospit partielle",
    "Nombre de séances"
  ]

  /** The columns `clean_csv_file` reads without type hints. */
  const NoTextColumns: set<string> := {}

  /**
   * The integer a count cell becomes: 5 for the label, the value of an
   * integer literal, and 0 (`fillna(0)`) for anything `pd.to_numeric`
   * coerces to NaN, a missing value included.
   */
  function CountValue(cell: string): (n: int)
    ensures cell == Sentinel ==> n == 5
    ensures cell != Sentinel && ParseInt(cell).Some? ==> n == ParseInt(cell).value
    ensures cell != Sentinel && ParseInt(cell).None? ==> n == 0
  {
    ParseInt(if cell == Sentinel then SentinelReplacement else cell).GetOr(0)
  }

  // ---------------------------------------------------------------------
  // The cleaned table, cell by cell
  // ---------------------------------------------------------------------

  /** Rows with one cell per column. */
  predicate Fits(columns: seq<string>, rows: seq<seq<string>>) {
    forall i :: 0 <= i < |rows| ==> |rows[i]| == |columns|
  }

  /** `df.iloc[:-1]`: every row but the last; nothing for an empty table. */
  function DropLast(rows: seq<seq<string>>): (r: seq<seq<string>>)
    ensures |rows| > 0 ==> r == rows[..|rows| - 1]
    ensures |rows| == 0 ==> r == []
  {
    if |rows| == 0 then [] else rows[..|rows| - 1]
  }

  /** The cell after the `Finess` step: the (first) `Finess` column is zero-filled. */
  function PaddedCell(columns: seq<string>, j: nat, cell: string): string {
    if IndexOf(columns, FinessColumn) == Some(j) then ZFill(cell, FinessWidth) else cell
  }

  /** The cell once the count columns in `names` have been converted. */
  function CoercedCell(columns: seq<string>, names: seq<string>, j: nat, cell: string): string
    requires j < |columns|
  {
    if Converted(columns, names, j) then IntToString(CountValue(cell)) else cell
  }

  /** Column `j` is the first column named by one of `names`. */
  predicate Converted(columns: seq<string>, names: seq<string>, j: nat)
    requires j < |columns|
  {
    columns[j] in names && IndexOf(columns, columns[j]) == Some(j)
  }

  /** The cleaned cell in column `j`. */
  function CleanCell(columns: seq<string>, j: nat, cell: string): string
    requires j < |columns|
  {
    CoercedCell(columns, CountColumns, j, PaddedCell(columns, j, cell))
  }

  /** The table `clean_csv_file` writes for the table it read. */
  function CleanTable(t: Table): (r: Table)
    requires Rectangular(t)
    ensures Rectangular(r) && r.columns == t.columns && |r.rows| == |DropLast(t.rows)|
    ensures forall i, j :: 0 <= i < |r.rows| && 0 <= j < |t.columns| ==>
      r.rows[i][j] == CleanCell(t.columns, j, t.rows[i][j])
  {
    var kept := DropLast(t.rows);
    Table(t.columns, seq(|kept|, i requires 0 <= i < |kept| =>
      seq(|t.columns|, j requires 0 <= j < |t.columns| => CleanCell(t.columns, j, kept[i][j]))))
  }

  /** Number of "1 à 10" labels in the present count columns among `names`. */
  function SentinelsIn(columns: seq<string>, rows: seq<seq<string>>, names: seq<string>): nat
    requires Fits(columns, rows)
  {
    if names == [] then 0
    else
      SentinelsIn(columns, rows, names[..|names| - 1]) +
      match IndexOf(columns, names[|names| - 1])
      case Some(j) => multiset(Column(rows, j))[Sentinel]
      case None => 0
  }

  /** `replacements_made` for a table: the labels in the count columns of the kept rows. */
  function Replacements(t: Table): nat
    requires Rectangular(t)
  {
    SentinelsIn(t.columns, DropLast(t.rows), CountColumns)
  }

  // ---------------------------------------------------------------------
  // What cleaning guarantees
  // ---------------------------------------------------------------------

  /**
   * Cleaning removes exactly the final row and keeps the others in order:
   * row `i` of the result comes from row `i` of the input.
   */
  lemma CleanDropsTotalRow(t: Table)
    requires Rectangular(t)
    ensures |CleanTable(t).rows| == if |t.rows| == 0 then 0 else |t.rows| - 1
    ensures CleanTable(t).columns == t.columns
  {
  }

  /**
   * The `Finess` column is left-padded with zeros to nine characters
   * (after a sign), a value of nine characters or more is unchanged, and an
   * integer code keeps its value.
   */
  lemma CleanPadsFiness(t: Table, i: nat, j: nat)
    requires Rectangular(t) && i + 1 < |t.rows| && IndexOf(t.columns, FinessColumn) == Some(j)
    ensures var before, after := t.rows[i][j], CleanTable(t).rows[i][j];
      after == ZFill(before, FinessWidth) &&
      |after| == (if |before| >= FinessWidth then |before| else FinessWidth) &&
      (|before| >= FinessWidth ==> after == before) &&
      (ParseInt(before).Some? ==> ParseInt(after) == ParseInt(before))
  {
    assert FinessColumn !in CountColumns;
    if ParseInt(t.rows[i][j]).Some? {
      ZFillKeepsValue(t.rows[i][j], FinessWidth);
    }
  }

  /**
   * A present count column holds only integers once cleaned: the label
   * becomes 5, an integer literal keeps its value, anything else becomes 0.
   */
  lemma CleanCountsAreIntegers(t: Table, i: nat, j: nat)
    requires Rectangular(t) && i + 1 < |t.rows| && j < |t.columns|
    requires t.columns[j] in CountColumns && IndexOf(t.columns, t.columns[j]) == Some(j)
    ensures var before, after := t.rows[i][j], CleanTable(t).rows[i][j];
      ParseInt(after) == Some(CountValue(before)) &&
      (before == Sentinel ==> ParseInt(after) == Some(5)) &&
      (ParseInt(before).None? && before != Sentinel ==> ParseInt(after) == Some(0))
  {
    assert FinessColumn !in CountColumns;
    IntToStringRoundTrip(CountValue(t.rows[i][j]));
  }

  /** Every other column, and the column names and order, are left as they were. */
  lemma CleanKeepsOtherColumns(t: Table, i: nat, j: nat)
    requires Rectangular(t) && i + 1 < |t.rows| && j < |t.columns|
    requires IndexOf(t.columns, FinessColumn) != Some(j)
    requires t.columns[j] !in CountColumns || IndexOf(t.columns, t.columns[j]) != Some(j)
    ensures CleanTable(t).rows[i][j] == t.rows[i][j]
  {
  }

  // ---------------------------------------------------------------------
  // The column passes of clean_csv_file
  // ---------------------------------------------------------------------

  /** `df['Finess'] = df['Finess'].astype(str).str.zfill(9)`, one row at a time. */
  method PadColumn(rows: seq<seq<string>>, j: nat, width: nat) returns (padded: seq<seq<string>>)
    requires forall i :: 0 <= i < |rows| ==> j < |rows[i]|
    ensures |padded| == |rows|
    ensures forall i :: 0 <= i < |rows| ==> padded[i] == rows[i][j := ZFill(rows[i][j], width)]
  {
    padded := [];
    for i := 0 to |rows|
      invariant |padded| == i
      invariant forall k :: 0 <= k < i ==> padded[k] == rows[k][j := ZFill(rows[k][j], width)]
    {
      padded := padded + [rows[i][j := ZFill(rows[i][j], width)]];
    }
  }

  /**
   * `mask = df[col] == "1 à 10"`, `replacements_made += mask.sum()`,
   * `df.loc[mask, col] = "5"`: the labels of column `j` are counted and replaced.
   */
  method ReplaceSentinels(rows: seq<seq<string>>, j: nat) returns (replaced: seq<seq<string>>, count: nat)
    requires forall i :: 0 <= i < |rows| ==> j < |rows[i]|
    ensures count == multiset(Column(rows, j))[Sentinel]
    ensures |replaced| == |rows|
    ensures forall i :: 0 <= i < |rows| ==>
      replaced[i] == rows[i][j := if rows[i][j] == Sentinel then SentinelReplacement else rows[i][j]]
  {
    replaced, count := [], 0;
    for i := 0 to |rows|
      invariant |replaced| == i
      invariant count == multiset(Column(rows, j)[..i])[Sentinel]
      invariant forall k :: 0 <= k < i ==>
        replaced[k] == rows[k][j := if rows[k][j] == Sentinel then SentinelReplacement else rows[k][j]]
    {
      assert Column(rows, j)[..i + 1] == Column(rows, j)[..i] + [rows[i][j]];
      if rows[i][j] == Sentinel {
        count := count + 1;
        replaced := replaced + [rows[i][j := SentinelReplacement]];
      } else {
        replaced := replaced + [rows[i]];
      }
    }
    assert Column(rows, j)[..|rows|] == Column(rows, j);
  }

  /** `df[col] = pd.to_numeric(df[col], errors='coerce').fillna(0).astype(int)`. */
  method CoerceColumn(rows: seq<seq<string>>, j: nat) returns (coerced: seq<seq<string>>)
    requires forall i :: 0 <= i < |rows| ==> j < |rows[i]|
    ensures |coerced| == |rows|
    ensures forall i :: 0 <= i < |rows| ==>
      coerced[i] == rows[i][j := IntToString(ParseInt(rows[i][j]).GetOr(0))]
  {
    coerced := [];
    for i := 0 to |rows|
      invariant |coerced| == i
      invariant forall k :: 0 <= k < i ==> coerced[k] == rows[k][j := IntToString(ParseInt(rows[k][j]).GetOr(0))]
    {
      var value := ParseInt(rows[i][j]).GetOr(0);
      coerced := coerced + [rows[i][j := IntToString(value)]];
    }
  }

  /** Both passes over the count column `j`: its labels are counted, then every cell becomes its count. */
  method ConvertColumn(rows: seq<seq<string>>, j: nat) returns (converted: seq<seq<string>>, count: nat)
    requires forall i :: 0 <= i < |rows| ==> j < |rows[i]|
    ensures count == multiset(Column(rows, j))[Sentinel]
    ensures |converted| == |rows|
    ensures forall i :: 0 <= i < |rows| ==> converted[i] == rows[i][j := IntToString(CountValue(rows[i][j]))]
  {
    var replaced;
    replaced, count := ReplaceSentinels(rows, j);
    converted := CoerceColumn(replaced, j);
  }

  /** The count columns are four different names, none of them `Finess`. */
  lemma CountColumnsDistinct()
    ensures Distinct(CountColumns)
    ensures FinessColumn !in CountColumns
  {
  }

  /** Row `row` is `original` with the count columns among `names` converted. */
  predicate RowCoerced(columns: seq<string>, names: seq<string>, original: seq<string>, row: seq<string>) {
    && |original| == |columns| && |row| == |columns|
    && forall j :: 0 <= j < |columns| ==> row[j] == CoercedCell(columns, names, j, original[j])
  }

  /** Every row of `rows` is the same row of `original` with the count columns among `names` converted. */
  predicate RowsCoerced(columns: seq<string>, names: seq<string>, original: seq<seq<string>>, rows: seq<seq<string>>) {
    && |rows| == |original|
    && forall i :: 0 <= i < |rows| ==> RowCoerced(columns, names, original[i], rows[i])
  }

  /**
   * One pass of the count-column loop: converting the `k`-th count column
   * (at `jk`) of rows where the first `k` are already converted gives the
   * rows where the first `k + 1` are.
   */
  lemma CountColumnStep(columns: seq<string>, names: seq<string>, padded: seq<seq<string>>, rows: seq<seq<string>>,
                        k: nat, jk: nat, coerced: seq<seq<string>>)
    requires Distinct(names) && k < |names| && IndexOf(columns, names[k]) == Some(jk)
    requires RowsCoerced(columns, names[..k], padded, rows)
    requires |coerced| == |rows| && forall i :: 0 <= i < |rows| ==>
      coerced[i] == rows[i][jk := IntToString(CountValue(rows[i][jk]))]
    ensures RowsCoerced(columns, names[..k + 1], padded, coerced)
  {
    forall i | 0 <= i < |coerced|
      ensures RowCoerced(columns, names[..k + 1], padded[i], coerced[i])
    {
      RowStep(columns, names, k, jk, padded[i], rows[i], coerced[i]);
    }
  }

  /** `CountColumnStep` for one row `row`, whose original cells are `original`. */
  lemma RowStep(columns: seq<string>, names: seq<string>, k: nat, jk: nat,
                original: seq<string>, row: seq<string>, coerced: seq<string>)
    requires Distinct(names) && k < |names| && IndexOf(columns, names[k]) == Some(jk)
    requires RowCoerced(columns, names[..k], original, row)
    requires coerced == row[jk := IntToString(CountValue(row[jk]))]
    ensures RowCoerced(columns, names[..k + 1], original, coerced)
  {
    forall j | 0 <= j < |columns|
      ensures coerced[j] == CoercedCell(columns, names[..k + 1], j, original[j])
    {
      StepCell(columns, names, k, jk, j, original[j], row[j]);
    }
  }

  /** Before its own pass, a count column still holds its original cells. */
  lemma ColumnUntouched(columns: seq<string>, names: seq<string>, padded: seq<seq<string>>, rows: seq<seq<string>>,
                        k: nat, jk: nat)
    requires Distinct(names) && k < |names| && IndexOf(columns, names[k]) == Some(jk)
    requires RowsCoerced(columns, names[..k], padded, rows)
    ensures Fits(columns, rows) && Fits(columns, padded)
    ensures Column(rows, jk) == Column(padded, jk)
  {
    forall i | 0 <= i < |rows|
      ensures |rows[i]| == |columns| && |padded[i]| == |columns| && rows[i][jk] == padded[i][jk]
    {
      assert RowCoerced(columns, names[..k], padded[i], rows[i]);
      StepCell(columns, names, k, jk, jk, padded[i][jk], rows[i][jk]);
    }
  }

  /** The step of `CountColumnStep` for one cell `r`, whose original value is `p`. */
  lemma StepCell(columns: seq<string>, names: seq<string>, k: nat, jk: nat, j: nat, p: string, r: string)
    requires Distinct(names) && k < |names| && IndexOf(columns, names[k]) == Some(jk) && j < |columns|
    requires r == CoercedCell(columns, names[..k], j, p)
    ensures j == jk ==> r == p
    ensures CoercedCell(columns, names[..k + 1], j, p) == if j == jk then IntToString(CountValue(r)) else r
  {
    StepConverted(columns, names, k, jk, j);
  }

  /** Column `j` is converted after pass `k` exactly when it was before or it is the column of pass `k`. */
  lemma StepConverted(columns: seq<string>, names: seq<string>, k: nat, jk: nat, j: nat)
    requires Distinct(names) && k < |names| && IndexOf(columns, names[k]) == Some(jk) && j < |columns|
    ensures j == jk ==> !Converted(columns, names[..k], j) && Converted(columns, names[..k + 1], j)
    ensures j != jk ==> Converted(columns, names[..k + 1], j) == Converted(columns, names[..k], j)
  {
    NotInPrefix(names, k);
    if j == jk {
      assert names[..k + 1][k] == names[k];
    } else if IndexOf(columns, columns[j]) == Some(j) {
      assert columns[j] != names[k];
      InOneMore(names, k, columns[j]);
    }
  }

  /** In a list without repetition, no entry occurs before its own position. */
  lemma NotInPrefix(names: seq<string>, k: nat)
    requires Distinct(names) && k < |names|
    ensures names[k] !in names[..k]
  {
    forall a | 0 <= a < k
      ensures names[..k][a] != names[k]
    {
      assert names[..k][a] == names[a];
    }
  }

  /** A name other than entry `k` is among the first `k + 1` entries exactly when it is among the first `k`. */
  lemma InOneMore(names: seq<string>, k: nat, name: string)
    requires k < |names| && name != names[k]
    ensures (name in names[..k + 1]) == (name in names[..k])
  {
    assert names[..k + 1] == names[..k] + [names[k]];
  }

  /** Converting a column that is absent changes nothing. */
  lemma AbsentCountColumn(columns: seq<string>, names: seq<string>, k: nat, padded: seq<seq<string>>, rows: seq<seq<string>>)
    requires k < |names| && names[k] !in columns
    requires RowsCoerced(columns, names[..k], padded, rows)
    ensures RowsCoerced(columns, names[..k + 1], padded, rows)
  {
    assert names[..k + 1] == names[..k] + [names[k]];
    forall i, j | 0 <= i < |rows| && 0 <= j < |columns|
      ensures CoercedCell(columns, names[..k + 1], j, padded[i][j]) == CoercedCell(columns, names[..k], j, padded[i][j])
    {
      assert RowCoerced(columns, names[..k], padded[i], rows[i]);
    }
  }

  /**
   * The loop of `clean_csv_file` over the count columns `names`: each
   * present one has its labels counted and replaced, then is converted.
   */
  method ConvertCountColumns(columns: seq<string>, names: seq<string>, padded: seq<seq<string>>)
    returns (rows: seq<seq<string>>, replacements: nat)
    requires Distinct(names) && Fits(columns, padded)
    ensures RowsCoerced(columns, names, padded, rows)
    ensures replacements == SentinelsIn(columns, padded, names)
  {
    rows, replacements := padded, 0;
    forall i | 0 <= i < |rows|
      ensures RowCoerced(columns, names[..0], padded[i], rows[i])
    {
    }
    for k := 0 to |names|
      invariant RowsCoerced(columns, names[..k], padded, rows)
      invariant replacements == SentinelsIn(columns, padded, names[..k])
    {
      assert names[..k + 1][..k] == names[..k];
      match IndexOf(columns, names[k])
      case Some(jk) =>
        ColumnUntouched(columns, names, padded, rows, k, jk);
        var coerced, count := ConvertColumn(rows, jk);
        CountColumnStep(columns, names, padded, rows, k, jk, coerced);
        replacements := replacements + count;
        rows := coerced;
      case None =>
        AbsentCountColumn(columns, names, k, padded, rows);
    }
    assert names[..|names|] == names;
  }

  /** The rows the loops compute hold the cleaned cells. */
  lemma CleanedCells(t: Table, padded: seq<seq<string>>, rows: seq<seq<string>>)
    requires Rectangular(t) && Fits(t.columns, padded) && |padded| == |DropLast(t.rows)|
    requires forall i, j :: 0 <= i < |padded| && 0 <= j < |t.columns| ==>
      padded[i][j] == PaddedCell(t.columns, j, DropLast(t.rows)[i][j])
    requires RowsCoerced(t.columns, CountColumns, padded, rows)
    ensures Rectangular(Table(t.columns, rows)) && |rows| == |CleanTable(t).rows|
    ensures forall i, j :: 0 <= i < |rows| && 0 <= j < |t.columns| ==> rows[i][j] == CleanTable(t).rows[i][j]
  {
    forall i | 0 <= i < |rows|
      ensures |rows[i]| == |t.columns|
      ensures forall j :: 0 <= j < |t.columns| ==> rows[i][j] == CleanTable(t).rows[i][j]
    {
      assert RowCoerced(t.columns, CountColumns, padded[i], rows[i]);
    }
  }

  /** Two tables with the same columns, as many rows and the same cells are the same table. */
  lemma SameCells(a: Table, b: Table)
    requires Rectangular(a) && Rectangular(b) && a.columns == b.columns && |a.rows| == |b.rows|
    requires forall i, j :: 0 <= i < |a.rows| && 0 <= j < |a.columns| ==> a.rows[i][j] == b.rows[i][j]
    ensures a == b
  {
    forall i | 0 <= i < |a.rows|
      ensures a.rows[i] == b.rows[i]
    {
    }
  }

  /** `df.iloc[:-1]` and the `Finess` step. */
  method DropAndPad(t: Table) returns (padded: seq<seq<string>>)
    requires Rectangular(t)
    ensures Fits(t.columns, padded) && |padded| == |DropLast(t.rows)|
    ensures forall i, j :: 0 <= i < |padded| && 0 <= j < |t.columns| ==>
      padded[i][j] == PaddedCell(t.columns, j, DropLast(t.rows)[i][j])
  {
    padded := if |t.rows| == 0 then [] else t.rows[..|t.rows| - 1];
    match IndexOf(t.columns, FinessColumn)
    case Some(j) =>
      padded := PadColumn(padded, j, FinessWidth);
    case None =>
  }

  /**
   * `clean_csv_file`: read the file, drop the total row, pad `Finess`,
   * replace and count the labels and convert the count columns, write the
   * result. A file that cannot be read gives `(False, 0)` and writes
   * nothing; otherwise the written table is `CleanTable` of the table read,
   * the row count is its number of rows and `replacements` the labels found.
   */
  method CleanCsvFile(input: Grid) returns (success: bool, rowCount: nat, written: Option<Grid>, replacements: nat)
    ensures success <==> ReadCsv(input, NoTextColumns).Some?
    ensures success ==>
      var cleaned := CleanTable(ReadCsv(input, NoTextColumns).value);
      written == Some(WriteCsv(cleaned)) && rowCount == |cleaned.rows| &&
      replacements == Replacements(ReadCsv(input, NoTextColumns).value)
    ensures !success ==> rowCount == 0 && written == None && replacements == 0
  {
    var read := ReadCsv(input, NoTextColumns);
    if read.None? {
      return false, 0, None, 0;
    }
    var t := read.value;
    var padded := DropAndPad(t);
    CountColumnsDistinct();
    var rows;
    rows, replacements := ConvertCountColumns(t.columns, CountColumns, padded);
    var cleaned := Table(t.columns, rows);
    CleanedCells(t, padded, rows);
    SameCells(cleaned, CleanTable(t));
    SameReplacements(t, padded);
    return true, |rows|, Some(WriteCsv(cleaned)), replacements;
  }

  /** Padding `Finess` does not touch the count columns, so the labels are counted the same. */
  lemma SameReplacements(t: Table, padded: seq<seq<string>>)
    requires Rectangular(t) && Fits(t.columns, padded) && |padded| == |DropLast(t.rows)|
    requires forall i, j :: 0 <= i < |padded| && 0 <= j < |t.columns| ==>
      padded[i][j] == PaddedCell(t.columns, j, DropLast(t.rows)[i][j])
    ensures SentinelsIn(t.columns, padded, CountColumns) == Replacements(t)
  {
    CountColumnsDistinct();
    DropLastFits(t);
    SentinelsUnpadded(t.columns, DropLast(t.rows), padded, CountColumns);
  }

  /** The rows `df.iloc[:-1]` keeps still have one cell per column. */
  lemma DropLastFits(t: Table)
    requires Rectangular(t)
    ensures Fits(t.columns, DropLast(t.rows))
  {
    var kept := DropLast(t.rows);
    forall i | 0 <= i < |kept|
      ensures |kept[i]| == |t.columns|
    {
      assert kept[i] == t.rows[i];
    }
  }

  /** Label counts over columns other than `Finess` are the same before and after padding. */
  lemma {:induction false} SentinelsUnpadded(columns: seq<string>, kept: seq<seq<string>>, padded: seq<seq<string>>, names: seq<string>)
    requires Fits(columns, kept) && Fits(columns, padded) && |padded| == |kept|
    requires FinessColumn !in names
    requires forall i, j :: 0 <= i < |padded| && 0 <= j < |columns| ==>
      padded[i][j] == PaddedCell(columns, j, kept[i][j])
    ensures SentinelsIn(columns, padded, names) == SentinelsIn(columns, kept, names)
  {
    if names != [] {
      SentinelsUnpadded(columns, kept, padded, names[..|names| - 1]);
      match IndexOf(columns, names[|names| - 1])
      case Some(j) =>
        assert Column(padded, j) == Column(kept, j);
      case None =>
    }
  }

  // ---------------------------------------------------------------------
  // clean_all_csv_files
  // ---------------------------------------------------------------------

  /** A CSV file: its path and its records. */
  datatype CsvFile = CsvFile(path: string, records: Grid)

  const CleanedPrefix: string := "cleaned_"

  /** Where the cleaned copy of the file at `path` is written. */
  function CleanedPath(outputDir: string, path: string): (out: string)
    ensures Basename(out) == CleanedPrefix + Basename(path)
  {
    var name := CleanedPrefix + Basename(path);
    assert '/' !in name;
    var out := Join(outputDir, name);
    BasenameOfJoin(outputDir, name);
    out
  }

  /** The last component of a joined path is the name joined on. */
  lemma BasenameOfJoin(directory: string, name: string)
    requires '/' !in name
    ensures Basename(Join(directory, name)) == name
  {
    if directory == [] || directory[|directory| - 1] == '/' {
      BasenameAfterSlash(directory, name);
      assert Join(directory, name) == directory + name;
    } else {
      BasenameAfterSlash(directory + "/", name);
      assert Join(directory, name) == directory + "/" + name;
    }
  }

  lemma {:induction false} BasenameAfterSlash(prefix: string, name: string)
    requires '/' !in name && (prefix == [] || prefix[|prefix| - 1] == '/')
    ensures Basename(prefix + name) == name
  {
    if name == [] {
      assert prefix + name == prefix;
    } else {
      var path, last := prefix + name, name[|name| - 1];
      assert last in name;
      assert path[..|path| - 1] == prefix + name[..|name| - 1];
      assert path[|path| - 1] == last != '/';
      assert Basename(path) == Basename(path[..|path| - 1]) + [last];
      BasenameAfterSlash(prefix, name[..|name| - 1]);
      assert name == name[..|name| - 1] + [last];
    }
  }

  /** The table `clean_csv_file` reads from a readable file. */
  function ReadFile(f: CsvFile): (t: Table)
    requires Readable(f.records)
    ensures Rectangular(t)
  {
    ReadCsv(f.records, NoTextColumns).value
  }

  /** How many of `files` clean successfully. */
  function Succeeded(files: seq<CsvFile>): nat {
    if files == [] then 0
    else Succeeded(files[..|files| - 1]) + if Readable(files[|files| - 1].records) then 1 else 0
  }

  /** The rows written for `files`, over the files that clean successfully. */
  function CleanedRows(files: seq<CsvFile>): nat {
    if files == [] then 0
    else
      var f := files[|files| - 1];
      CleanedRows(files[..|files| - 1]) + if Readable(f.records) then |CleanTable(ReadFile(f)).rows| else 0
  }

  /** The cleaned files written for `files` into `outputDir`, in order. */
  function Written(files: seq<CsvFile>, outputDir: string): seq<CsvFile> {
    if files == [] then []
    else
      var f := files[|files| - 1];
      Written(files[..|files| - 1], outputDir) +
        if Readable(f.records) then [CsvFile(CleanedPath(outputDir, f.path), WriteCsv(CleanTable(ReadFile(f))))] else []
  }

  /** `out` is the cleaned copy of `f` written into `outputDir`. */
  predicate WrittenFrom(f: CsvFile, outputDir: string, out: CsvFile) {
    Readable(f.records) && out == CsvFile(CleanedPath(outputDir, f.path), WriteCsv(CleanTable(ReadFile(f))))
  }

  /**
   * At most every file succeeds, one cleaned file is written per success,
   * and each is the cleaned table of one input, named `cleaned_` followed
   * by that input's base name.
   */
  lemma {:induction false} WrittenOrigin(files: seq<CsvFile>, outputDir: string)
    ensures Succeeded(files) <= |files|
    ensures |Written(files, outputDir)| == Succeeded(files)
    ensures forall m :: 0 <= m < |Written(files, outputDir)| ==>
      exists k :: 0 <= k < |files| && WrittenFrom(files[k], outputDir, Written(files, outputDir)[m])
  {
    if files != [] {
      var front := files[..|files| - 1];
      WrittenOrigin(front, outputDir);
      var written := Written(files, outputDir);
      forall m | 0 <= m < |written|
        ensures exists k :: 0 <= k < |files| && WrittenFrom(files[k], outputDir, written[m])
      {
        if m < |Written(front, outputDir)| {
          var k :| 0 <= k < |front| && WrittenFrom(front[k], outputDir, Written(front, outputDir)[m]);
          assert files[k] == front[k];
          assert WrittenFrom(files[k], outputDir, written[m]);
        } else {
          var k := |files| - 1;
          assert WrittenFrom(files[k], outputDir, written[m]);
        }
      }
    }
  }

  /** The tallies and outputs of one more file. */
  lemma CleanedPrefixStep(files: seq<CsvFile>, i: nat, outputDir: string)
    requires i < |files|
    ensures var f := files[i];
      && Succeeded(files[..i + 1]) == Succeeded(files[..i]) + (if Readable(f.records) then 1 else 0)
      && CleanedRows(files[..i + 1]) == CleanedRows(files[..i]) + (if Readable(f.records) then |CleanTable(ReadFile(f)).rows| else 0)
      && Written(files[..i + 1], outputDir) == Written(files[..i], outputDir) +
           (if Readable(f.records) then [CsvFile(CleanedPath(outputDir, f.path), WriteCsv(CleanTable(ReadFile(f))))] else [])
  {
    assert files[..i + 1][..i] == files[..i];
  }

  /**
   * `clean_all_csv_files`: cleans every file found, writing each success to
   * `outputDir` as `cleaned_` + its base name, and counts the successes and
   * the rows written. With no file it returns at once, having done nothing.
   */
  method CleanAllCsvFiles(files: seq<CsvFile>, outputDir: string)
    returns (successCount: nat, totalRows: nat, outputs: seq<CsvFile>)
    ensures files == [] ==> successCount == 0 && totalRows == 0 && outputs == []
    ensures successCount == Succeeded(files) && successCount <= |files|
    ensures totalRows == CleanedRows(files)
    ensures outputs == Written(files, outputDir) && |outputs| == successCount
  {
    successCount, totalRows, outputs := 0, 0, [];
    if files == [] {
      return;
    }
    for i := 0 to |files|
      invariant successCount == Succeeded(files[..i])
      invariant totalRows == CleanedRows(files[..i])
      invariant outputs == Written(files[..i], outputDir)
    {
      CleanedPrefixStep(files, i, outputDir);
      var csvFile := files[i];
      var outputFile := CleanedPath(outputDir, csvFile.path);
      var success, rows, written, _ := CleanCsvFile(csvFile.records);
      if success {
        successCount := successCount + 1;
        totalRows := totalRows + rows;
        outputs := outputs + [CsvFile(outputFile, written.value)];
      }
    }
    assert files[..|files|] == files;
    WrittenOrigin(files, outputDir);
  }
}
