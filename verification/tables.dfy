/**
 * The slice of pandas the cleaning scripts rely on, over cells held as text:
 * the decimal integers `pd.to_numeric` and the CSV reader recognise, their
 * canonical rendering, Python's `str.zfill`, `os.path.basename` and
 * `os.path.join`, and the reading and writing of a CSV file whose records
 * are already split into fields.
 *
 * A cell is the text of one CSV field; the empty text stands for a missing
 * value (pandas reads it as NaN and writes NaN back as an empty field).
 */
module Tables {
  import opened Wrappers

  /** The records of a CSV file, already split into fields: the header first. */
  type Grid = seq<seq<string>>

  /** A data frame: column names and rows of cells. */
  datatype Table = Table(columns: seq<string>, rows: seq<seq<string>>)

  /** Every row has one cell per column. */
  predicate Rectangular(t: Table) {
    forall i :: 0 <= i < |t.rows| ==> |t.rows[i]| == |t.columns|
  }

  /** No name occurs twice. */
  predicate Distinct(names: seq<string>) {
    forall a, b :: 0 <= a < b < |names| ==> names[a] != names[b]
  }

  /** The cells of column `j`, top to bottom. */
  function Column(rows: seq<seq<string>>, j: nat): (col: seq<string>)
    requires forall i :: 0 <= i < |rows| ==> j < |rows[i]|
    ensures |col| == |rows|
    ensures forall i :: 0 <= i < |rows| ==> col[i] == rows[i][j]
  {
    seq(|rows|, i requires 0 <= i < |rows| => rows[i][j])
  }

  /** Position of the first column called `name`: the column pandas' `df[name]` selects. */
  function IndexOf(columns: seq<string>, name: string): (r: Option<nat>)
    ensures r.None? <==> name !in columns
    ensures r.Some? ==> r.value < |columns| && columns[r.value] == name && name !in columns[..r.value]
  {
    if columns == [] then None
    else if columns[0] == name then Some(0)
    else match IndexOf(columns[1..], name)
      case None => None
      case Some(j) =>
        assert columns[1..][..j] == columns[1..j + 1];
        Some(j + 1)
  }

  // ---------------------------------------------------------------------
  // Decimal integers
  // ---------------------------------------------------------------------

  predicate IsDigit(c: char) {
    '0' <= c <= '9'
  }

  predicate AllDigits(s: string) {
    forall k :: 0 <= k < |s| ==> IsDigit(s[k])
  }

  /** The value of a string of decimal digits, most significant first. */
  function DigitsValue(s: string): nat
    requires AllDigits(s)
  {
    if s == [] then 0
    else DigitsValue(s[..|s| - 1]) * 10 + (s[|s| - 1] as int - '0' as int)
  }

  /**
   * A decimal integer literal: an optional `+` or `-` and at least one
   * digit. This is the part of the grammar of `pd.to_numeric` and of the
   * CSV reader's integer columns that the model keeps.
   */
  function ParseInt(s: string): (r: Option<int>)
    ensures r.Some? <==>
      (|s| > 0 && AllDigits(s)) || (|s| > 1 && (s[0] == '-' || s[0] == '+') && AllDigits(s[1..]))
  {
    if |s| > 0 && (s[0] == '-' || s[0] == '+') then
      if |s| > 1 && AllDigits(s[1..]) then
        var magnitude: int := DigitsValue(s[1..]);
        Some(if s[0] == '-' then -magnitude else magnitude)
      else None
    else if |s| > 0 && AllDigits(s) then Some(DigitsValue(s))
    else None
  }

  function DigitChar(d: nat): (c: char)
    requires d < 10
    ensures IsDigit(c) && c as int - '0' as int == d
  {
    ('0' as int + d) as char
  }

  /** Decimal digits of `n`, no leading zero. */
  function NatToString(n: nat): (s: string)
    ensures |s| > 0 && AllDigits(s)
  {
    if n < 10 then [DigitChar(n)] else NatToString(n / 10) + [DigitChar(n % 10)]
  }

  /** How pandas writes an integer: `-` for negatives, no leading zero. */
  function IntToString(n: int): (s: string)
    ensures |s| > 0
  {
    if n < 0 then "-" + NatToString(-n) else NatToString(n)
  }

  lemma {:induction false} NatToStringValue(n: nat)
    ensures DigitsValue(NatToString(n)) == n
  {
    if n >= 10 {
      var s := NatToString(n);
      assert s[..|s| - 1] == NatToString(n / 10);
      NatToStringValue(n / 10);
    }
  }

  /** Rendering an integer and parsing it back gives the same integer. */
  lemma IntToStringRoundTrip(n: int)
    ensures ParseInt(IntToString(n)) == Some(n)
  {
    if n < 0 {
      var digits := NatToString(-n);
      assert IntToString(n) == ['-'] + digits;
      NatToStringValue(-n);
      SignedValue('-', digits);
    } else {
      var digits := NatToString(n);
      assert IsDigit(digits[0]);
      NatToStringValue(n);
    }
  }

  /** The canonical rendering of an integer literal: what pandas writes back for it. */
  function Canonical(s: string): (r: string)
    requires ParseInt(s).Some?
    ensures ParseInt(r) == ParseInt(s)
  {
    IntToStringRoundTrip(ParseInt(s).value);
    IntToString(ParseInt(s).value)
  }

  // ---------------------------------------------------------------------
  // str.zfill, os.path.basename, os.path.join
  // ---------------------------------------------------------------------

  function Zeros(n: nat): (z: string)
    ensures |z| == n && forall k :: 0 <= k < n ==> z[k] == '0'
  {
    seq(n, _ => '0')
  }

  /**
   * Python's `str.zfill(width)`: zeros added on the left up to `width`
   * characters, after a leading sign if there is one; a string already
   * that long is returned unchanged.
   */
  function ZFill(s: string, width: nat): (r: string)
    ensures |s| >= width ==> r == s
    ensures |s| < width ==> |r| == width
    ensures |s| < width && (|s| == 0 || (s[0] != '-' && s[0] != '+')) ==>
      r == Zeros(width - |s|) + s
    ensures |s| < width && |s| > 0 && (s[0] == '-' || s[0] == '+') ==>
      r == [s[0]] + Zeros(width - |s|) + s[1..]
  {
    if |s| >= width then s
    else if |s| > 0 && (s[0] == '-' || s[0] == '+') then [s[0]] + Zeros(width - |s|) + s[1..]
    else Zeros(width - |s|) + s
  }

  lemma {:induction false} ZerosValue(n: nat)
    ensures AllDigits(Zeros(n)) && DigitsValue(Zeros(n)) == 0
  {
    if n > 0 {
      assert Zeros(n)[..n - 1] == Zeros(n - 1);
      ZerosValue(n - 1);
    }
  }

  /** Leading zeros do not change the value of a digit string. */
  lemma {:induction false} LeadingZerosValue(n: nat, s: string)
    requires AllDigits(s)
    ensures AllDigits(Zeros(n) + s) && DigitsValue(Zeros(n) + s) == DigitsValue(s)
  {
    if s == [] {
      assert Zeros(n) + s == Zeros(n);
      ZerosValue(n);
    } else {
      var t := Zeros(n) + s;
      assert t[..|t| - 1] == Zeros(n) + s[..|s| - 1];
      LeadingZerosValue(n, s[..|s| - 1]);
    }
  }

  /** Zero-padding an integer literal keeps its value. */
  lemma ZFillKeepsValue(s: string, width: nat)
    requires ParseInt(s).Some?
    ensures ParseInt(ZFill(s, width)) == ParseInt(s)
  {
    if |s| < width {
      if s[0] == '-' || s[0] == '+' {
        assert s == [s[0]] + s[1..];
        SignedZFillValue(s[0], s[1..], width);
      } else {
        UnsignedZFillValue(s, width);
      }
    }
  }

  lemma SignedZFillValue(sign: char, digits: string, width: nat)
    requires (sign == '-' || sign == '+') && |digits| > 0 && AllDigits(digits) && 1 + |digits| < width
    ensures ParseInt(ZFill([sign] + digits, width)) == ParseInt([sign] + digits)
  {
    var padded := Zeros(width - 1 - |digits|) + digits;
    LeadingZerosValue(width - 1 - |digits|, digits);
    SignedZFillShape(sign, digits, width);
    SignedValue(sign, digits);
    SignedValue(sign, padded);
  }

  /** Zero-padding a signed literal puts the zeros between the sign and the digits. */
  lemma SignedZFillShape(sign: char, digits: string, width: nat)
    requires (sign == '-' || sign == '+') && 1 + |digits| < width
    ensures ZFill([sign] + digits, width) == [sign] + (Zeros(width - 1 - |digits|) + digits)
  {
    var s := [sign] + digits;
    assert s[0] == sign && s[1..] == digits;
    assert ZFill(s, width) == [sign] + Zeros(width - |s|) + digits;
  }

  /** The value of a sign followed by digits. */
  lemma SignedValue(sign: char, digits: string)
    requires (sign == '-' || sign == '+') && |digits| > 0 && AllDigits(digits)
    ensures ParseInt([sign] + digits) == Some(if sign == '-' then -(DigitsValue(digits) as int) else DigitsValue(digits))
  {
    assert ([sign] + digits)[1..] == digits;
  }

  lemma UnsignedZFillValue(s: string, width: nat)
    requires ParseInt(s).Some? && |s| < width && s[0] != '-' && s[0] != '+'
    ensures ParseInt(ZFill(s, width)) == ParseInt(s)
  {
    var r := ZFill(s, width);
    assert AllDigits(s);
    LeadingZerosValue(width - |s|, s);
    assert r[0] == '0';
    assert ParseInt(r) == Some(DigitsValue(r));
  }

  /** `os.path.basename`: what follows the last `/`. */
  function Basename(path: string): (name: string)
    ensures '/' !in name && |name| <= |path|
  {
    if path == [] || path[|path| - 1] == '/' then []
    else Basename(path[..|path| - 1]) + [path[|path| - 1]]
  }

  /** The base name is the end of the path, and what precedes it, if anything, is a `/`. */
  lemma {:induction false} BasenameIsLastComponent(path: string)
    ensures var name := Basename(path);
      path[|path| - |name|..] == name && (|name| < |path| ==> path[|path| - |name| - 1] == '/')
  {
    if path != [] && path[|path| - 1] != '/' {
      var front := path[..|path| - 1];
      BasenameIsLastComponent(front);
      var name := Basename(front);
      assert path[|path| - |name| - 1..] == front[|front| - |name|..] + [path[|path| - 1]];
    }
  }

  /** `os.path.join(directory, name)` for a relative `name`. */
  function Join(directory: string, name: string): (path: string)
    ensures directory == [] ==> path == name
    ensures directory != [] && directory[|directory| - 1] == '/' ==> path == directory + name
    ensures directory != [] && directory[|directory| - 1] != '/' ==> path == directory + "/" + name
  {
    if directory == [] then name
    else if directory[|directory| - 1] == '/' then directory + name
    else directory + "/" + name
  }

  // ---------------------------------------------------------------------
  // read_csv and to_csv
  // ---------------------------------------------------------------------

  /** A record shorter than the header gets missing values at its end. */
  function PadRecord(record: seq<string>, width: nat): (r: seq<string>)
    requires |record| <= width
    ensures |r| == width && r[..|record|] == record
    ensures forall k :: |record| <= k < width ==> r[k] == ""
  {
    record + seq(width - |record|, _ => "")
  }

  /**
   * Column `j` holds integers once read: every cell is an integer literal
   * and its name is not among the columns read as text (`dtype=str`).
   */
  predicate IntegerColumn(t: Table, j: nat, textColumns: set<string>)
    requires Rectangular(t) && j < |t.columns|
  {
    t.columns[j] !in textColumns && forall i :: 0 <= i < |t.rows| ==> ParseInt(t.rows[i][j]).Some?
  }

  /** The cell as pandas holds it after type inference. */
  function InferCell(t: Table, j: nat, textColumns: set<string>, cell: string): string
    requires Rectangular(t) && j < |t.columns|
  {
    if IntegerColumn(t, j, textColumns) && ParseInt(cell).Some? then Canonical(cell) else cell
  }

  /** The table after pandas' column type inference: integer columns are re-rendered canonically. */
  function Infer(t: Table, textColumns: set<string>): (r: Table)
    requires Rectangular(t)
    ensures Rectangular(r) && r.columns == t.columns && |r.rows| == |t.rows|
    ensures forall i, j :: 0 <= i < |t.rows| && 0 <= j < |t.columns| ==>
      r.rows[i][j] == InferCell(t, j, textColumns, t.rows[i][j])
  {
    Table(t.columns, seq(|t.rows|, i requires 0 <= i < |t.rows| =>
      seq(|t.columns|, j requires 0 <= j < |t.columns| => InferCell(t, j, textColumns, t.rows[i][j]))))
  }

  /** The records are readable: there is a header and no record is longer than it. */
  predicate Readable(g: Grid) {
    |g| > 0 && forall k :: 1 <= k < |g| ==> |g[k]| <= |g[0]|
  }

  /** The records as read, before type inference. */
  function Raw(g: Grid): (t: Table)
    requires Readable(g)
    ensures Rectangular(t) && t.columns == g[0] && |t.rows| == |g| - 1
    ensures forall i :: 0 <= i < |t.rows| ==> t.rows[i] == PadRecord(g[i + 1], |g[0]|)
  {
    Table(g[0], seq(|g| - 1, i requires 0 <= i < |g| - 1 => PadRecord(g[i + 1], |g[0]|)))
  }

  /**
   * `pd.read_csv`: fails on a file without a header or with a record longer
   * than the header; otherwise the first record names the columns and each
   * further record is a row, padded with missing values.
   */
  function ReadCsv(g: Grid, textColumns: set<string>): (r: Option<Table>)
    ensures r.Some? <==> Readable(g)
    ensures r.Some? ==> Rectangular(r.value) && r.value.columns == g[0] && |r.value.rows| == |g| - 1
  {
    if Readable(g) then Some(Infer(Raw(g), textColumns)) else None
  }

  /**
   * Reading only ever re-renders an integer: every cell read either is the
   * field of the file (a missing value for a field the record lacks) or
   * parses to the same integer as that field, and a column read as text is
   * exactly its fields.
   */
  lemma ReadCsvCells(g: Grid, textColumns: set<string>, i: nat, j: nat)
    requires Readable(g) && 1 <= i < |g| && j < |g[0]|
    ensures var cell := ReadCsv(g, textColumns).value.rows[i - 1][j];
      var field := if j < |g[i]| then g[i][j] else "";
      (cell == field || ParseInt(cell) == ParseInt(field) != None) &&
      (g[0][j] in textColumns ==> cell == field)
  {
    var raw := Raw(g);
    assert raw.rows[i - 1] == PadRecord(g[i], |g[0]|);
    if j < |g[i]| {
      assert raw.rows[i - 1][j] == PadRecord(g[i], |g[0]|)[..|g[i]|][j];
    }
  }

  /** A column read as text holds exactly its fields, a missing value where a record is short. */
  lemma ReadTextColumn(g: Grid, textColumns: set<string>, j: nat, i: nat)
    requires Readable(g) && 1 <= i < |g| && j < |g[0]| && g[0][j] in textColumns
    ensures ReadCsv(g, textColumns).value.rows[i - 1][j] == if j < |g[i]| then g[i][j] else ""
  {
    ReadCsvCells(g, textColumns, i, j);
  }

  /** Every record after the header has an integer literal as field `j`. */
  predicate IntegerFields(g: Grid, j: nat) {
    forall r :: 1 <= r < |g| ==> j < |g[r]| && ParseInt(g[r][j]).Some?
  }

  /**
   * A column whose every field is an integer literal, and which is not read
   * as text, is read as integers: each cell is its field re-rendered.
   */
  lemma ReadIntegerColumn(g: Grid, textColumns: set<string>, j: nat, i: nat)
    requires Readable(g) && 1 <= i < |g| && j < |g[0]| && g[0][j] !in textColumns
    requires IntegerFields(g, j)
    ensures ReadCsv(g, textColumns).value.rows[i - 1][j] == Canonical(g[i][j])
  {
    var raw := Raw(g);
    forall r | 0 <= r < |raw.rows|
      ensures raw.rows[r][j] == g[r + 1][j]
    {
      assert raw.rows[r][j] == PadRecord(g[r + 1], |g[0]|)[..|g[r + 1]|][j];
    }
    assert IntegerColumn(raw, j, textColumns);
  }

  /** `df.to_csv(index=False)`: the header record, then one record per row. */
  function WriteCsv(t: Table): (g: Grid)
    ensures |g| == |t.rows| + 1 && g[0] == t.columns && g[1..] == t.rows
  {
    [t.columns] + t.rows
  }

  /** A table written and read back is the same table once its types are inferred. */
  lemma WriteReadCsv(t: Table, textColumns: set<string>)
    requires Rectangular(t)
    ensures ReadCsv(WriteCsv(t), textColumns) == Some(Infer(t, textColumns))
  {
    var g := WriteCsv(t);
    assert Readable(g) by {
      forall k | 1 <= k < |g|
        ensures |g[k]| <= |g[0]|
      {
        assert g[k] == t.rows[k - 1];
      }
    }
    var raw := Raw(g);
    forall i | 0 <= i < |t.rows|
      ensures raw.rows[i] == t.rows[i]
    {
      assert g[i + 1] == t.rows[i];
      assert PadRecord(t.rows[i], |t.columns|) == t.rows[i];
    }
    assert raw == t;
  }
}
