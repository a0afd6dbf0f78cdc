/**
 * `create_consolidated_file`: the cleaned tables are read back, each row is
 * tagged with the base name of the file it came from (`Fichier_Source`),
 * and the tables are stacked into one master table, pandas `concat`
 * aligning them by column name.
 */
module Consolidation {
  import opened Wrappers
  import opened Tables
  import opened Cleaning

  const SourceColumn: string := "Fichier_Source"

  /**
   * The columns the corrected consolidation reads as text: the
   * establishment code, so that the zero padding the cleaning added
   * survives.
   */
  const TextColumns: set<string> := {FinessColumn}

  /** `df['Fichier_Source'] = name`: the column is set, or added last when absent. */
  function Tag(t: Table, name: string): (r: Table)
    requires Rectangular(t)
    ensures Rectangular(r) && |r.rows| == |t.rows| && SourceColumn in r.columns
    ensures r.columns == if SourceColumn in t.columns then t.columns else t.columns + [SourceColumn]
    ensures forall i :: 0 <= i < |r.rows| ==> r.rows[i][IndexOf(r.columns, SourceColumn).value] == name
    ensures forall i, j :: 0 <= i < |t.rows| && 0 <= j < |t.columns| && Some(j) != IndexOf(t.columns, SourceColumn) ==>
      r.rows[i][j] == t.rows[i][j]
  {
    match IndexOf(t.columns, SourceColumn)
    case Some(j) =>
      Table(t.columns, seq(|t.rows|, i requires 0 <= i < |t.rows| => t.rows[i][j := name]))
    case None =>
      var columns := t.columns + [SourceColumn];
      assert IndexOf(columns, SourceColumn) == Some(|t.columns|);
      Table(columns, seq(|t.rows|, i requires 0 <= i < |t.rows| => t.rows[i] + [name]))
  }

  // ---------------------------------------------------------------------
  // pd.concat
  // ---------------------------------------------------------------------

  /** `acc` followed by the names of `columns` it lacks, in their order. */
  function AddNew(acc: seq<string>, columns: seq<string>): (r: seq<string>)
    ensures |r| >= |acc| && r[..|acc|] == acc
    ensures Distinct(acc) ==> Distinct(r)
    ensures forall c :: c in r <==> c in acc || c in columns
  {
    if columns == [] then acc
    else
      var front := AddNew(acc, columns[..|columns| - 1]);
      var last := columns[|columns| - 1];
      assert forall c :: c in columns <==> c in columns[..|columns| - 1] || c == last;
      if last in front then front else front + [last]
  }

  /** The union of the columns of `ts`, in order of first appearance. */
  function Union(ts: seq<Table>): (u: seq<string>)
    ensures Distinct(u)
    ensures forall k, c :: 0 <= k < |ts| && c in ts[k].columns ==> c in u
    ensures forall c :: c in u ==> exists k :: 0 <= k < |ts| && c in ts[k].columns
  {
    if ts == [] then []
    else
      var front := ts[..|ts| - 1];
      var u := AddNew(Union(front), ts[|ts| - 1].columns);
      assert forall k :: 0 <= k < |front| ==> ts[k] == front[k];
      u
  }

  /** The rows of `t` laid out over the columns `u`: a missing value where `t` lacks the column. */
  function Align(t: Table, u: seq<string>): (rows: seq<seq<string>>)
    requires Rectangular(t)
    ensures Fits(u, rows) && |rows| == |t.rows|
    ensures forall i, c :: 0 <= i < |rows| && 0 <= c < |u| ==>
      rows[i][c] == match IndexOf(t.columns, u[c]) case Some(j) => t.rows[i][j] case None => ""
  {
    seq(|t.rows|, i requires 0 <= i < |t.rows| =>
      seq(|u|, c requires 0 <= c < |u| =>
        match IndexOf(t.columns, u[c]) case Some(j) => t.rows[i][j] case None => ""))
  }

  predicate AllRectangular(ts: seq<Table>) {
    forall k :: 0 <= k < |ts| ==> Rectangular(ts[k])
  }

  /** The rows of all of `ts`, one table after the other, over the columns `u`. */
  function Stack(ts: seq<Table>, u: seq<string>): seq<seq<string>>
    requires AllRectangular(ts)
  {
    if ts == [] then [] else Stack(ts[..|ts| - 1], u) + Align(ts[|ts| - 1], u)
  }

  /** Number of rows of all of `ts`. */
  function TotalRows(ts: seq<Table>): nat {
    if ts == [] then 0 else TotalRows(ts[..|ts| - 1]) + |ts[|ts| - 1].rows|
  }

  /** `pd.concat(ts, ignore_index=True)`. */
  function Concat(ts: seq<Table>): (r: Table)
    requires AllRectangular(ts)
  {
    Table(Union(ts), Stack(ts, Union(ts)))
  }

  /**
   * The stacked rows of table `k` come right after those of the tables
   * before it, in their own order, and the stack has as many rows as all
   * the tables together.
   */
  lemma {:induction false} StackAt(ts: seq<Table>, u: seq<string>, k: nat, i: nat)
    requires AllRectangular(ts) && k < |ts| && i < |ts[k].rows|
    ensures |Stack(ts, u)| == TotalRows(ts)
    ensures TotalRows(ts[..k]) + i < |Stack(ts, u)|
    ensures Stack(ts, u)[TotalRows(ts[..k]) + i] == Align(ts[k], u)[i]
  {
    var front := ts[..|ts| - 1];
    assert AllRectangular(front) by {
      assert forall m :: 0 <= m < |front| ==> front[m] == ts[m];
    }
    if k == |ts| - 1 {
      assert front == ts[..k];
      StackLength(front, u);
    } else {
      StackAt(front, u, k, i);
      assert front[k] == ts[k] && front[..k] == ts[..k];
    }
  }

  lemma {:induction false} StackLength(ts: seq<Table>, u: seq<string>)
    requires AllRectangular(ts)
    ensures |Stack(ts, u)| == TotalRows(ts)
  {
    if ts != [] {
      var front := ts[..|ts| - 1];
      assert AllRectangular(front) by {
        assert forall m :: 0 <= m < |front| ==> front[m] == ts[m];
      }
      StackLength(front, u);
    }
  }

  // ---------------------------------------------------------------------
  // create_consolidated_file
  // ---------------------------------------------------------------------

  predicate AllReadable(files: seq<CsvFile>) {
    forall k :: 0 <= k < |files| ==> Readable(files[k].records)
  }

  /** File `f` read with `textColumns` as text and tagged with its base name. */
  function Tagged(f: CsvFile, textColumns: set<string>): (t: Table)
    requires Readable(f.records)
    ensures Rectangular(t)
  {
    Tag(ReadCsv(f.records, textColumns).value, Basename(f.path))
  }

  function TaggedAll(files: seq<CsvFile>, textColumns: set<string>): (ts: seq<Table>)
    requires AllReadable(files)
    ensures |ts| == |files| && AllRectangular(ts)
    ensures forall k :: 0 <= k < |files| ==> ts[k] == Tagged(files[k], textColumns)
  {
    seq(|files|, k requires 0 <= k < |files| => Tagged(files[k], textColumns))
  }

  /**
   * The master file, if one is written: none without files or when a file
   * cannot be read (the single `try` gives up on the whole consolidation);
   * otherwise the tagged tables concatenated.
   */
  function Master(files: seq<CsvFile>, textColumns: set<string>): Option<Grid> {
    if files != [] && AllReadable(files) then Some(WriteCsv(Concat(TaggedAll(files, textColumns)))) else None
  }

  /**
   * The loop of `create_consolidated_file`: reads every cleaned file, with
   * the columns `textColumns` kept as text, tags its rows with the file's
   * base name and writes the concatenation; nothing is written without
   * files or when any file fails to read.
   */
  method Consolidate(files: seq<CsvFile>, textColumns: set<string>) returns (master: Option<Grid>)
    ensures files == [] ==> master == None
    ensures master.Some? <==> files != [] && AllReadable(files)
    ensures master == Master(files, textColumns)
  {
    if files == [] {
      return None;
    }
    var allDataframes: seq<Table> := [];
    for i := 0 to |files|
      invariant |allDataframes| == i
      invariant forall k :: 0 <= k < i ==> Readable(files[k].records) && allDataframes[k] == Tagged(files[k], textColumns)
    {
      var df := ReadCsv(files[i].records, textColumns);
      if df.None? {
        assert !Readable(files[i].records);
        return None;
      }
      var tagged := Tag(df.value, Basename(files[i].path));
      allDataframes := allDataframes + [tagged];
    }
    assert AllReadable(files);
    SameTagged(files, textColumns, allDataframes);
    return Some(WriteCsv(Concat(allDataframes)));
  }

  /**
   * `create_consolidated_file` as written: every file is read with pandas'
   * default inference, so no column is kept as text.
   */
  method CreateConsolidatedFile(files: seq<CsvFile>) returns (master: Option<Grid>)
    ensures master.Some? <==> files != [] && AllReadable(files)
    ensures master == Master(files, NoTextColumns)
  {
    master := Consolidate(files, NoTextColumns);
  }

  /** The corrected consolidation: the establishment code is read as text. */
  method CreateConsolidatedFileFixed(files: seq<CsvFile>) returns (master: Option<Grid>)
    ensures master.Some? <==> files != [] && AllReadable(files)
    ensures master == Master(files, TextColumns)
  {
    master := Consolidate(files, TextColumns);
  }

  /** Tables that are, one by one, the files tagged are `TaggedAll` of the files. */
  lemma SameTagged(files: seq<CsvFile>, textColumns: set<string>, tables: seq<Table>)
    requires AllReadable(files) && |tables| == |files|
    requires forall k :: 0 <= k < |files| ==> tables[k] == Tagged(files[k], textColumns)
    ensures tables == TaggedAll(files, textColumns)
  {
  }

  /** The master table has exactly the rows of all the files. */
  lemma MasterRowCount(files: seq<CsvFile>, textColumns: set<string>)
    requires files != [] && AllReadable(files)
    ensures |Master(files, textColumns).value| == 1 + TotalRows(TaggedAll(files, textColumns))
  {
    var ts := TaggedAll(files, textColumns);
    StackLength(ts, Union(ts));
  }

  /**
   * Row `i` of file `k` sits in the master after the rows of the files
   * before it, its `Fichier_Source` is that file's base name, and a column
   * `name` of the file other than `Fichier_Source` keeps the file's cell
   * as read.
   */
  lemma MasterRow(files: seq<CsvFile>, textColumns: set<string>, k: nat, i: nat, j: nat, name: string)
    requires AllReadable(files) && k < |files| && i + 1 < |files[k].records|
    requires IndexOf(files[k].records[0], name) == Some(j) && name != SourceColumn
    ensures var ts := TaggedAll(files, textColumns);
      var master := Concat(ts);
      var row := TotalRows(ts[..k]) + i;
      var read := ReadCsv(files[k].records, textColumns).value;
      row < |master.rows| && |master.rows[row]| == |master.columns| &&
      SourceColumn in master.columns && name in master.columns &&
      master.rows[row][IndexOf(master.columns, SourceColumn).value] == Basename(files[k].path) &&
      master.rows[row][IndexOf(master.columns, name).value] == read.rows[i][j]
  {
    var ts := TaggedAll(files, textColumns);
    var u := Union(ts);
    var read := ReadCsv(files[k].records, textColumns).value;
    var t := ts[k];
    assert read.columns == files[k].records[0];
    TagKeeps(read, Basename(files[k].path), i, name);
    StackAt(ts, u, k, i);
    AlignedCell(t, u, i, SourceColumn);
    AlignedCell(t, u, i, name);
    assert Concat(ts).rows[TotalRows(ts[..k]) + i] == Align(t, u)[i];
  }

  /** Tagging keeps every other column's cells where they were and sets `Fichier_Source`. */
  lemma TagKeeps(read: Table, base: string, i: nat, name: string)
    requires Rectangular(read) && i < |read.rows| && name in read.columns && name != SourceColumn
    ensures var t := Tag(read, base);
      name in t.columns && SourceColumn in t.columns &&
      t.rows[i][IndexOf(t.columns, name).value] == read.rows[i][IndexOf(read.columns, name).value] &&
      t.rows[i][IndexOf(t.columns, SourceColumn).value] == base
  {
    var t := Tag(read, base);
    var j := IndexOf(read.columns, name).value;
    if SourceColumn !in read.columns {
      assert t.columns[..|read.columns|] == read.columns;
      assert t.columns[..j] == read.columns[..j];
    }
    assert IndexOf(t.columns, name) == Some(j);
  }

  /** A column of `t` keeps its cells once `t` is laid out over the columns `u`. */
  lemma AlignedCell(t: Table, u: seq<string>, i: nat, name: string)
    requires Rectangular(t) && i < |t.rows| && name in t.columns && name in u
    ensures Align(t, u)[i][IndexOf(u, name).value] == t.rows[i][IndexOf(t.columns, name).value]
  {
  }

  /**
   * With the establishment code read as text, every master row carries
   * the `Finess` field of its cleaned file exactly as written there.
   */
  lemma FinessKeptAsText(files: seq<CsvFile>, k: nat, i: nat, j: nat)
    requires AllReadable(files) && k < |files| && i + 1 < |files[k].records|
    requires IndexOf(files[k].records[0], FinessColumn) == Some(j)
    ensures var ts := TaggedAll(files, TextColumns);
      var master := Concat(ts);
      var row := TotalRows(ts[..k]) + i;
      var record := files[k].records[i + 1];
      row < |master.rows| && |master.rows[row]| == |master.columns| && FinessColumn in master.columns &&
      master.rows[row][IndexOf(master.columns, FinessColumn).value] == if j < |record| then record[j] else ""
  {
    TextColumnKept(files, k, i, j, FinessColumn);
  }

  /** A column read as text reaches the master exactly as written in its file. */
  lemma TextColumnKept(files: seq<CsvFile>, k: nat, i: nat, j: nat, name: string)
    requires AllReadable(files) && k < |files| && i + 1 < |files[k].records|
    requires IndexOf(files[k].records[0], name) == Some(j) && name != SourceColumn && name in TextColumns
    ensures var ts := TaggedAll(files, TextColumns);
      var master := Concat(ts);
      var row := TotalRows(ts[..k]) + i;
      var record := files[k].records[i + 1];
      row < |master.rows| && |master.rows[row]| == |master.columns| && name in master.columns &&
      master.rows[row][IndexOf(master.columns, name).value] == if j < |record| then record[j] else ""
  {
    MasterRow(files, TextColumns, k, i, j, name);
    ReadTextColumn(files[k].records, TextColumns, j, i + 1);
  }

  /**
   * As written, the consolidation reads with no text column: when every
   * `Finess` field of a cleaned file is an integer literal, the master holds
   * the integer re-rendered, so the zero padding the cleaning added is
   * lost; the code `000000123` comes out as `123`.
   */
  lemma FinessPaddingLostAsWritten(files: seq<CsvFile>, k: nat, i: nat, j: nat)
    requires AllReadable(files) && k < |files| && i + 1 < |files[k].records|
    requires IndexOf(files[k].records[0], FinessColumn) == Some(j)
    requires IntegerFields(files[k].records, j)
    ensures var ts := TaggedAll(files, NoTextColumns);
      var master := Concat(ts);
      var row := TotalRows(ts[..k]) + i;
      row < |master.rows| && |master.rows[row]| == |master.columns| && FinessColumn in master.columns &&
      j < |files[k].records[i + 1]| && ParseInt(files[k].records[i + 1][j]).Some? &&
      master.rows[row][IndexOf(master.columns, FinessColumn).value] == Canonical(files[k].records[i + 1][j])
  {
    IntegerColumnReRendered(files, k, i, j, FinessColumn);
  }

  /** A column of integer literals not read as text reaches the master re-rendered. */
  lemma IntegerColumnReRendered(files: seq<CsvFile>, k: nat, i: nat, j: nat, name: string)
    requires AllReadable(files) && k < |files| && i + 1 < |files[k].records| && name != SourceColumn
    requires IndexOf(files[k].records[0], name) == Some(j)
    requires IntegerFields(files[k].records, j)
    ensures var ts := TaggedAll(files, NoTextColumns);
      var master := Concat(ts);
      var row := TotalRows(ts[..k]) + i;
      row < |master.rows| && |master.rows[row]| == |master.columns| && name in master.columns &&
      j < |files[k].records[i + 1]| && ParseInt(files[k].records[i + 1][j]).Some? &&
      master.rows[row][IndexOf(master.columns, name).value] == Canonical(files[k].records[i + 1][j])
  {
    var g := files[k].records;
    assert Readable(g);
    assert j < |g[i + 1]| && ParseInt(g[i + 1][j]).Some?;
    assert j < |g[0]|;
    var read := ReadCsv(g, NoTextColumns).value;
    ReadIntegerColumn(g, NoTextColumns, j, i + 1);
    assert read.rows[i][j] == Canonical(g[i + 1][j]);
    MasterRow(files, NoTextColumns, k, i, j, name);
    var ts := TaggedAll(files, NoTextColumns);
    var master := Concat(ts);
    var row := TotalRows(ts[..k]) + i;
    assert master.rows[row][IndexOf(master.columns, name).value] == read.rows[i][j];
  }

  /** The literal `000000123` is the integer 123, which pandas writes back as `123`. */
  lemma PaddedCodeValue()
    ensures ParseInt("000000123") == Some(123) && Canonical("000000123") == "123"
  {
    assert "000000123" == Zeros(6) + "123";
    LeadingZerosValue(6, "123");
    assert DigitsValue("123") == 123 by {
      assert "123"[..2] == "12" && "12"[..1] == "1";
    }
    assert NatToString(12) == "12";
  }
}
