/** Loading the transactions table: trimming the header, cleaning the
    currency columns, filling every missing cell with 0, and publishing the
    result for the services. Reading the CSV file is not modelled: a load
    receives the table as parsed, or nothing when the file is missing or
    cannot be read. */
module Loader {

  import opened Sequences
  import opened Cells

  /** A table as read from the CSV file: the header texts as written, and
      one record of cells per line. */
  datatype RawTable = RawTable(header: seq<string>, records: seq<seq<Cell>>)

  // ---------------------------------------------------------------------
  // Column names: `df.columns.str.strip()`
  // ---------------------------------------------------------------------

  /** The ASCII characters `str.strip()` treats as whitespace. */
  predicate IsSpace(ch: char)
  {
    ch == ' ' || 9 <= ch as int <= 13 || 28 <= ch as int <= 31
  }

  function TrimStart(s: string): (r: string)
    ensures |r| <= |s| && r == s[|s| - |r|..]
    ensures forall j :: 0 <= j < |s| - |r| ==> IsSpace(s[j])
    ensures r == [] || !IsSpace(r[0])
    ensures s == [] || !IsSpace(s[0]) ==> r == s
  {
    if s != [] && IsSpace(s[0]) then
      var t := TrimStart(s[1..]);
      assert s[1..][|s| - 1 - |t|..] == s[|s| - |t|..];
      assert forall j :: 1 <= j < |s| ==> s[j] == s[1..][j - 1];
      t
    else s
  }

  function TrimEnd(s: string): (r: string)
    ensures |r| <= |s| && r == s[..|r|]
    ensures forall j :: |r| <= j < |s| ==> IsSpace(s[j])
    ensures r == [] || !IsSpace(r[|r| - 1])
    ensures s == [] || !IsSpace(s[|s| - 1]) ==> r == s
  {
    if s != [] && IsSpace(s[|s| - 1]) then TrimEnd(s[..|s| - 1]) else s
  }

  /** `str.strip()`: the text without its leading and trailing whitespace. */
  function Strip(s: string): (r: string)
    ensures r == [] || (!IsSpace(r[0]) && !IsSpace(r[|r| - 1]))
  {
    var u := TrimStart(s);
    var r := TrimEnd(u);
    assert r != [] ==> r[0] == u[0];
    r
  }

  /** Stripping twice is stripping once. */
  lemma StripIdempotent(s: string)
    ensures Strip(Strip(s)) == Strip(s)
  {
  }

  /** The number of leading whitespace characters `strip` removes. */
  function Lead(s: string): (n: nat)
    ensures n <= |s|
  {
    |s| - |TrimStart(s)|
  }

  lemma StripBody(s: string)
    ensures Lead(s) + |Strip(s)| <= |s| && Strip(s) == s[Lead(s)..Lead(s) + |Strip(s)|]
  {
    var u := TrimStart(s);
    var r := TrimEnd(u);
    assert u == s[Lead(s)..];
    assert r == u[..|r|];
  }

  lemma StripEdges(s: string)
    ensures Lead(s) + |Strip(s)| <= |s|
    ensures forall k :: 0 <= k < Lead(s) ==> IsSpace(s[k])
    ensures forall k :: Lead(s) + |Strip(s)| <= k < |s| ==> IsSpace(s[k])
  {
    var u := TrimStart(s);
    var r := TrimEnd(u);
    assert Strip(s) == r && Lead(s) == |s| - |u|;
    TrailingSpaces(s, u, |r|);
  }

  /** Whitespace at the end of a suffix of `s` is whitespace at the end of `s`. */
  lemma TrailingSpaces(s: string, u: string, m: nat)
    requires |u| <= |s| && u == s[|s| - |u|..] && m <= |u|
    requires forall j :: m <= j < |u| ==> IsSpace(u[j])
    ensures forall k :: |s| - |u| + m <= k < |s| ==> IsSpace(s[k])
  {
    forall k | |s| - |u| + m <= k < |s| ensures IsSpace(s[k]) {
      assert s[k] == u[k - (|s| - |u|)];
    }
  }

  /** Stripping removes only whitespace: the result is a slice of the text
      with whitespace on both sides. */
  lemma StripSlice(s: string)
    ensures exists i, j :: 0 <= i <= j <= |s| && Strip(s) == s[i..j]
              && (forall k :: 0 <= k < i ==> IsSpace(s[k]))
              && (forall k :: j <= k < |s| ==> IsSpace(s[k]))
  {
    StripBody(s);
    StripEdges(s);
    var i := Lead(s);
    var j := i + |Strip(s)|;
    assert 0 <= i <= j <= |s| && Strip(s) == s[i..j]
      && (forall k :: 0 <= k < i ==> IsSpace(s[k]))
      && (forall k :: j <= k < |s| ==> IsSpace(s[k]));
  }

  /** The column names of the loaded table. */
  function Header(raw: RawTable): (cols: seq<Key>)
    ensures |cols| == |raw.header|
    ensures forall i :: 0 <= i < |cols| ==> Name(cols[i]) == Strip(raw.header[i])
  {
    seq(|raw.header|, i requires 0 <= i < |raw.header| => KeyOf(Strip(raw.header[i])))
  }

  /** The cell of a record under column `i`; a short record reads as missing. */
  function CellAt(cells: seq<Cell>, i: nat): Cell
  {
    if i < |cells| then cells[i] else NaN
  }

  /** One record as a row: every column of the header has a cell. */
  function RowOf(columns: seq<Key>, cells: seq<Cell>): (r: Row)
    ensures r.Keys == set c | c in columns
    ensures NoDups(columns) ==> forall i :: 0 <= i < |columns| ==> r[columns[i]] == CellAt(cells, i)
  {
    if columns == [] then map[]
    else
      var init := columns[..|columns| - 1];
      var r := RowOf(init, cells)[columns[|columns| - 1] := CellAt(cells, |columns| - 1)];
      assert NoDups(columns) ==> NoDups(init) && columns[|columns| - 1] !in init;
      r
  }

  /** `pd.read_csv` followed by the header trim. */
  function FromRaw(raw: RawTable): (t: Frame)
    ensures t.columns == Header(raw) && |t.rows| == |raw.records|
    ensures forall k :: 0 <= k < |t.rows| ==> t.rows[k] == RowOf(t.columns, raw.records[k])
  {
    var cols := Header(raw);
    Frame(cols, seq(|raw.records|, k requires 0 <= k < |raw.records| => RowOf(cols, raw.records[k])))
  }

  // ---------------------------------------------------------------------
  // Currency columns: `clean_currency_col`
  // ---------------------------------------------------------------------

  predicate NotDollar(ch: char) { ch != '$' }

  predicate NotComma(ch: char) { ch != ',' }

  /** `.str.replace("$", "")` then `.str.replace(",", "")`. */
  function StripCurrency(s: string): (r: string)
    ensures |r| <= |s|
    ensures '$' !in r && ',' !in r
    ensures forall ch :: ch != '$' && ch != ',' ==> (ch in r <==> ch in s)
  {
    Filter(Filter(s, NotDollar), NotComma)
  }

  /** A text without `$` and `,` is left as it is. */
  lemma StripCurrencyKeeps(s: string)
    requires '$' !in s && ',' !in s
    ensures StripCurrency(s) == s
  {
    FilterKeepsAll(s, NotDollar);
    FilterKeepsAll(s, NotComma);
  }

  /** Removing the symbols twice is removing them once. */
  lemma StripCurrencyIdempotent(s: string)
    ensures StripCurrency(StripCurrency(s)) == StripCurrency(s)
  {
    StripCurrencyKeeps(StripCurrency(s));
  }

  /** The remaining characters keep their order: removal splits over
      concatenation. */
  lemma StripCurrencyAppend(a: string, b: string)
    ensures StripCurrency(a + b) == StripCurrency(a) + StripCurrency(b)
  {
    FilterAppend(a, b, NotDollar);
    FilterAppend(Filter(a, NotDollar), Filter(b, NotDollar), NotComma);
  }

  /** One cell of `pd.to_numeric(series, errors="coerce")` after the
      symbols are removed from its `str`: the number it spells, or missing. */
  function CleanCell(c: Cell): (r: Cell)
    ensures IsNumber(r) || r.NaN?
    ensures r.NaN? <==> ParseNumber(StripCurrency(Text(c))).None?
    ensures IsNumber(r) ==> r == ParseNumber(StripCurrency(Text(c))).value
  {
    match ParseNumber(StripCurrency(Text(c)))
    case Some(n) => n
    case None => NaN
  }

  /** A whole number is left as it is. */
  lemma CleanKeepsInts(n: int)
    ensures CleanCell(Int(n)) == Int(n)
  {
    IntTextNoSymbols(n);
    StripCurrencyKeeps(IntText(n));
    IntTextRoundTrip(n);
  }

  /** A dollar amount is read as its number. */
  lemma CleanDollarAmount(n: int)
    ensures CleanCell(Str("$" + IntText(n))) == Int(n)
  {
    var s := IntText(n);
    assert Filter("$", NotDollar) == [];
    assert StripCurrency("$") == [];
    StripCurrencyAppend("$", s);
    IntTextNoSymbols(n);
    StripCurrencyKeeps(s);
    assert StripCurrency(Text(Str("$" + s))) == s;
    IntTextRoundTrip(n);
  }

  lemma IntTextNoSymbols(n: int)
    ensures '$' !in IntText(n) && ',' !in IntText(n)
  {
    var m: nat := if n < 0 then -n else n;
    assert AllDigits(NatText(m));
    var s := IntText(n);
    assert forall k :: 0 <= k < |s| ==> s[k] == '-' || IsDigit(s[k]);
  }

  /** A number as a float of the same value, in a column that also holds
      missing values or floats. */
  function AsFloat(c: Cell): (r: Cell)
    ensures !r.Int?
    ensures r.NaN? <==> c.NaN?
    ensures IsNumber(c) ==> IsNumber(r) && Value(r) == Value(c)
    ensures !c.Int? ==> r == c
  {
    if c.Int? then Dec(c.i as real) else c
  }

  /** Every cell of a column cleaned. */
  function CleanCells(col: seq<Cell>): (r: seq<Cell>)
    ensures |r| == |col|
    ensures forall i :: 0 <= i < |col| ==> r[i] == CleanCell(col[i])
  {
    seq(|col|, i requires 0 <= i < |col| => CleanCell(col[i]))
  }

  /** Every cell of a column as a float. */
  function AsFloats(col: seq<Cell>): (r: seq<Cell>)
    ensures |r| == |col|
    ensures forall i :: 0 <= i < |col| ==> r[i] == AsFloat(col[i])
  {
    seq(|col|, i requires 0 <= i < |col| => AsFloat(col[i]))
  }

  /** `pd.to_numeric(..., errors="coerce")` over a column: every cell is
      cleaned; the column stays integral only when every cell is an integer,
      otherwise each number becomes a float of the same value. */
  function ToNumeric(col: seq<Cell>): (r: seq<Cell>)
    ensures |r| == |col|
    ensures forall i :: 0 <= i < |col| ==> IsNumber(r[i]) || r[i].NaN?
    ensures forall i :: 0 <= i < |col| ==> (r[i].NaN? <==> CleanCell(col[i]).NaN?)
    ensures forall i :: 0 <= i < |col| && IsNumber(r[i]) ==> Value(r[i]) == Value(CleanCell(col[i]))
    ensures (forall i :: 0 <= i < |r| ==> r[i].Int?) || (forall i :: 0 <= i < |r| ==> !r[i].Int?)
  {
    var cleaned := CleanCells(col);
    if forall i :: 0 <= i < |cleaned| ==> cleaned[i].Int? then cleaned
    else AsFloats(cleaned)
  }

  /** pandas' `dtype == "object"` for a column: it holds some text. */
  predicate HoldsText(t: Frame, col: Key)
  {
    exists k :: 0 <= k < |t.rows| && Get(t.rows[k], col).Str?
  }

  /** `clean_currency_col(df, col)` on a table value: a text column is
      replaced by its numeric reading; any other table is left as it is. */
  function CleanColumn(t: Frame, col: Key): (r: Frame)
    ensures r.columns == t.columns && |r.rows| == |t.rows|
    ensures col !in t.columns || !HoldsText(t, col) ==> r == t
    ensures forall k, c :: 0 <= k < |t.rows| && c != col ==> Get(r.rows[k], c) == Get(t.rows[k], c)
    ensures col in t.columns && HoldsText(t, col) ==> Column(r.rows, col) == ToNumeric(Column(t.rows, col))
    ensures col in t.columns ==> !HoldsText(r, col)
  {
    if col !in t.columns || !HoldsText(t, col) then t
    else
      Frame(t.columns, SetColumn(t.rows, col, ToNumeric(Column(t.rows, col))))
  }

  /** `rows` with column `col` replaced, row by row, by `cells`. */
  function SetColumn(rows: seq<Row>, col: Key, cells: seq<Cell>): (r: seq<Row>)
    requires |cells| == |rows|
    ensures |r| == |rows|
    ensures forall k, c :: 0 <= k < |rows| && c != col ==> Get(r[k], c) == Get(rows[k], c)
    ensures Column(r, col) == cells
  {
    var r := seq(|rows|, k requires 0 <= k < |rows| => rows[k][col := cells[k]]);
    assert forall k :: 0 <= k < |r| ==> Get(r[k], col) == cells[k];
    r
  }

  /** The columns to clean, in the order they are cleaned. */
  const TargetColumns: seq<Key> := [Amount, OldBalanceOrg, NewBalanceOrig, OldBalanceDest, NewBalanceDest]

  /** The table after `clean_currency_col` on each of `cols` in turn. */
  function CleanColumns(t: Frame, cols: seq<Key>): (r: Frame)
    ensures r.columns == t.columns && |r.rows| == |t.rows|
    ensures forall k, c :: 0 <= k < |t.rows| && c !in cols ==> Get(r.rows[k], c) == Get(t.rows[k], c)
  {
    if cols == [] then t
    else
      var init := cols[..|cols| - 1];
      assert forall c :: c in init ==> c in cols;
      CleanColumn(CleanColumns(t, init), cols[|cols| - 1])
  }

  /** Cleaning one more column of `cols` cleans the table cleaned so far. */
  lemma CleanColumnsStep(t: Frame, cols: seq<Key>, i: nat)
    requires i < |cols|
    ensures CleanColumns(t, cols[..i + 1]) == CleanColumn(CleanColumns(t, cols[..i]), cols[i])
  {
    assert cols[..i + 1][..i] == cols[..i];
  }

  /** After cleaning, none of the cleaned columns holds text. */
  lemma {:induction false} CleanColumnsNoText(t: Frame, cols: seq<Key>)
    ensures forall c :: c in cols && c in t.columns ==> !HoldsText(CleanColumns(t, cols), c)
  {
    if cols != [] {
      var init := cols[..|cols| - 1];
      var last := cols[|cols| - 1];
      var u := CleanColumns(t, init);
      CleanColumnsNoText(t, init);
      forall c | c in cols && c in t.columns
        ensures !HoldsText(CleanColumns(t, cols), c)
      {
        if c != last {
          assert c in init;
          assert !HoldsText(u, c);
        }
      }
    }
  }

  // ---------------------------------------------------------------------
  // Filling: `df.fillna(0, inplace=True)`
  // ---------------------------------------------------------------------

  /** The 0 that `fillna(0)` writes: an integer in a text column, a float in
      a numeric one. */
  function Zero(t: Frame, col: Key): (z: Cell)
    ensures Known(z) && !z.Str?
    ensures !HoldsText(t, col) ==> z == Dec(0.0)
  {
    if HoldsText(t, col) then Int(0) else Dec(0.0)
  }

  /** A row with its missing cells under the header filled with 0. */
  function FillRow(t: Frame, zeros: map<Key, Cell>, row: Row): (r: Row)
    requires forall c :: c in t.columns ==> c in zeros
    ensures forall c :: Known(Get(row, c)) ==> Get(r, c) == Get(row, c)
    ensures forall c :: c in t.columns && IsNA(Get(row, c)) ==> Get(r, c) == zeros[c]
  {
    var keys := row.Keys + set c | c in t.columns;
    map c | c in keys :: if Known(Get(row, c)) || c !in zeros then Get(row, c) else zeros[c]
  }

  /** `df.fillna(0)`: every missing cell under the header becomes 0; every
      known cell stays. */
  function FillMissing(t: Frame): (r: Frame)
    ensures r.columns == t.columns && |r.rows| == |t.rows|
    ensures forall k, c :: 0 <= k < |t.rows| && Known(Get(t.rows[k], c)) ==> Get(r.rows[k], c) == Get(t.rows[k], c)
    ensures forall k, c :: 0 <= k < |t.rows| && c in t.columns && IsNA(Get(t.rows[k], c)) ==>
              Get(r.rows[k], c) == Zero(t, c)
    ensures forall k, c :: 0 <= k < |t.rows| && c in t.columns ==> Known(Get(r.rows[k], c))
  {
    var zeros := map c | c in t.columns :: Zero(t, c);
    Frame(t.columns, seq(|t.rows|, k requires 0 <= k < |t.rows| => FillRow(t, zeros, t.rows[k])))
  }

  /** The table a successful load publishes. */
  function Loaded(raw: RawTable): Frame
  {
    FillMissing(CleanColumns(FromRaw(raw), TargetColumns))
  }

  /** What a successful load publishes: the trimmed header, one row per
      record, no missing cell under the header, and a number in every cell
      of every target column present. */
  lemma LoadedTable(raw: RawTable)
    ensures Loaded(raw).columns == Header(raw) && |Loaded(raw).rows| == |raw.records|
    ensures forall k, c :: 0 <= k < |raw.records| && c in Header(raw) ==> Known(Get(Loaded(raw).rows[k], c))
    ensures forall k, c :: 0 <= k < |raw.records| && c in TargetColumns && c in Header(raw) ==>
              IsNumber(Get(Loaded(raw).rows[k], c))
  {
    var t := FromRaw(raw);
    var u := CleanColumns(t, TargetColumns);
    CleanColumnsNoText(t, TargetColumns);
    forall k, c | 0 <= k < |raw.records| && c in TargetColumns && c in Header(raw)
      ensures IsNumber(Get(Loaded(raw).rows[k], c))
    {
      FilledNumber(u, k, c);
    }
  }

  /** Filling a column that holds no text leaves a number in each of its cells. */
  lemma FilledNumber(u: Frame, k: nat, c: Key)
    requires k < |u.rows| && c in u.columns && !HoldsText(u, c)
    ensures IsNumber(Get(FillMissing(u).rows[k], c))
  {
    assert !Get(u.rows[k], c).Str?;
  }

  // ---------------------------------------------------------------------
  // The table under cleaning, updated in place
  // ---------------------------------------------------------------------

  /** The data frame `load_dataset` reads and cleans in place. */
  class Table {
    var columns: seq<Key>
    var rows: seq<Row>

    function Snapshot(): Frame
      reads this
    {
      Frame(columns, rows)
    }

    /** `pd.read_csv` and the header trim. */
    constructor (raw: RawTable)
      ensures Snapshot() == FromRaw(raw)
    {
      var t := FromRaw(raw);
      columns := t.columns;
      rows := t.rows;
    }

    /** `clean_currency_col(df, col)`: returns early when the column is
        absent or not text, and otherwise replaces it by its numeric reading. */
    method CleanCurrencyCol(col: Key)
      modifies this
      ensures Snapshot() == CleanColumn(old(Snapshot()), col)
    {
      if col !in columns || !HoldsText(Snapshot(), col) {
        return;
      }
      rows := CleanColumn(Snapshot(), col).rows;
    }

    /** `df.fillna(0, inplace=True)`. */
    method FillNA()
      modifies this
      ensures Snapshot() == FillMissing(old(Snapshot()))
    {
      rows := FillMissing(Snapshot()).rows;
    }
  }

  // ---------------------------------------------------------------------
  // The published table
  // ---------------------------------------------------------------------

  /** The module's global table: nothing until a load succeeds. */
  class DataStore {
    var published: Option<Frame>

    constructor ()
      ensures published.None?
    {
      published := None;
    }

    /** `get_data()`: an empty table until a load succeeds, the published
        table afterwards. */
    function GetData(): (t: Frame)
      reads this
      ensures published.None? ==> t == EmptyFrame && IsEmpty(t)
      ensures published.Some? ==> t == published.value
    {
      if published.None? then EmptyFrame else published.value
    }

    /** `load_dataset()`: with no table to read (file missing or read error)
        it reports failure and leaves the published table alone; otherwise
        it cleans the target columns one after another, fills the missing
        cells, publishes the result and reports success. */
    method LoadDataset(parsed: Option<RawTable>) returns (ok: bool)
      modifies this
      ensures ok <==> parsed.Some?
      ensures !ok ==> published == old(published)
      ensures ok ==> published == Some(Loaded(parsed.value))
    {
      if parsed.None? {
        return false;
      }
      var raw := parsed.value;
      var df := new Table(raw);
      var cols := TargetColumns;
      for i := 0 to |cols|
        invariant df.Snapshot() == CleanColumns(FromRaw(raw), cols[..i])
      {
        CleanColumnsStep(FromRaw(raw), cols, i);
        df.CleanCurrencyCol(cols[i]);
      }
      assert cols[..|cols|] == cols;
      df.FillNA();
      published := Some(df.Snapshot());
      return true;
    }
  }
}
