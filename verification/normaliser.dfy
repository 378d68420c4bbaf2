/** The row normaliser of the transaction service (`map_row_to_transaction`):
    it turns one raw table row into the record the API returns. `Record` says
    what the record holds key by key; `Steps` follows the normaliser statement
    by statement; `MapRowToTransaction` updates the record in place. */
module Normaliser {

  import opened Sequences
  import opened Cells

  /** The first pass of the normaliser: a missing cell becomes `None`. */
  function NAtoNull(c: Cell): (d: Cell)
    ensures !d.NaN?
    ensures d.Null? <==> IsNA(c)
    ensures Known(c) ==> d == c
  {
    if IsNA(c) then Null else c
  }

  /** `v in (0, "0") or pd.isna(v)`: the values `merchant_state` and
      `errors` collapse to `None`. */
  predicate Sentinel(c: Cell)
  {
    EqualsInt(c, 0) || c == Str("0") || IsNA(c)
  }

  /** Python's `float(c)` for the zip code; a string that does not read as a
      number gives `None` (the `except ValueError` branch). */
  function FloatOf(c: Cell): (d: Cell)
    ensures d.Dec? || d.Null? || d.NaN?
    ensures IsNumber(c) ==> d == Dec(Value(c))
    ensures c.Str? ==> (d.Null? <==> ParseNumber(c.s).None?)
  {
    match c
    case Int(n) => Dec(n as real)
    case Dec(x) => Dec(x)
    case Str(s) => (match ParseNumber(s) case Some(v) => Dec(Value(v)) case None => Null)
    case NaN => NaN
    case Null => Null
  }

  /** What the zip code of a row becomes: `None` stays `None`, anything else
      is read as a float. */
  function ZipOf(c: Cell): (d: Cell)
    ensures d.Dec? || d.Null?
    ensures IsNA(c) ==> d.Null?
    ensures IsNumber(c) ==> d == Dec(Value(c))
  {
    if IsNA(c) then Null else FloatOf(c)
  }

  /** `str(row.get(key, fallback))` after the first pass, which is also what an
      f-string inserts. */
  function LabelOf(row: Row, key: Key, fallback: string): string
  {
    if key in row then Text(NAtoNull(row[key])) else fallback
  }

  /** `f"{amount:.2f}"`: a string raises `ValueError` (no 'f' format for
      `str`), `None` raises `TypeError`. */
  function AmountText(c: Cell): (r: Outcome<string>)
    ensures r.Raised? <==> c.Str? || c.Null?
    ensures r.Raised? ==> r.fault == (if c.Str? then ValueError else TypeError)
    ensures IsNumber(c) ==> r == Ok(FixedText2(Value(c)))
  {
    match c
    case Int(n) => Ok(FixedText2(n as real))
    case Dec(x) => Ok(FixedText2(x))
    case Str(_) => Raised(ValueError)
    case NaN => Ok("nan")
    case Null => Raised(TypeError)
  }

  // The texts the normaliser writes.
  const UnknownType: string := "Unknown Transaction"
  const ClientPrefix: string := "Client_"
  const MerchantPrefix: string := "Merchant_"
  const EuroSuffix: string := " €"

  /** The keys every output record has, whatever the input row. */
  const RecordKeys: set<Key> :=
    {MerchantState, Errors, Type, NameOrig, NameDest, FormattedAmount, Id, Date}

  /** The input keys whose value the normaliser may replace by more than the
      first pass does. */
  const Rewritten: set<Key> :=
    {MerchantState, Errors, Zip, FormattedAmount, Id, Date}

  /** The amount a row formats: `row.get("amount", 0)` (a row whose amount
      is not a number raises before it is used). */
  function AmountOf(row: Row): real
  {
    if Amount in row && IsNumber(row[Amount]) then Value(row[Amount]) else 0.0
  }

  /** The normaliser raises on this row: its amount is text or missing. */
  predicate AmountUnformattable(row: Row)
  {
    Amount in row && (row[Amount].Str? || IsNA(row[Amount]))
  }

  /** The record after the first pass of the normaliser. */
  function ClearNA(row: Row): (item: Row)
    ensures item.Keys == row.Keys
    ensures forall k :: k in row ==> item[k] == NAtoNull(row[k])
  {
    map k | k in row :: NAtoNull(row[k])
  }

  // ---------------------------------------------------------------------
  // The record, key by key
  // ---------------------------------------------------------------------

  /** The value the output record holds under `k`, for a row whose amount
      can be formatted. */
  function OutValue(row: Row, k: Key): Cell
  {
    if k == MerchantState || k == Errors then
      (if k in row && !Sentinel(row[k]) then row[k] else Null)
    else if k == Zip && k in row then ZipOf(row[k])
    else if k == Type && k !in row then Str(LabelOf(row, UseChip, UnknownType))
    else if k == NameOrig && k !in row then Str(ClientPrefix + LabelOf(row, ClientId, "?"))
    else if k == NameDest && k !in row then Str(MerchantPrefix + LabelOf(row, MerchantId, "?"))
    else if k == FormattedAmount then Str(FixedText2(AmountOf(row)) + EuroSuffix)
    else if k == Id then Str(LabelOf(row, Id, "0"))
    else if k == Date then Str(LabelOf(row, Date, ""))
    else NAtoNull(Get(row, k))
  }

  /** The record `map_row_to_transaction` builds from `row`. */
  function Record(row: Row): Row
  {
    map k | k in row.Keys + RecordKeys :: OutValue(row, k)
  }

  /** The record `map_row_to_transaction` returns for `row`, or the exception
      it raises: `ValueError` for a text amount, `TypeError` for a missing one. */
  function Normalise(row: Row): (r: Outcome<Row>)
    ensures r.Raised? <==> AmountUnformattable(row)
    ensures r.Raised? ==> r.fault == (if row[Amount].Str? then ValueError else TypeError)
  {
    if AmountUnformattable(row) then Raised(if row[Amount].Str? then ValueError else TypeError)
    else Ok(Record(row))
  }

  /** The value a record holds under one of its keys. */
  lemma RecordAt(row: Row, k: Key)
    requires k in row || k in RecordKeys
    ensures k in Record(row) && Record(row)[k] == OutValue(row, k)
  {
  }

  /** A record has the row's keys and the keys in `RecordKeys`. */
  lemma RecordHasKeys(row: Row)
    ensures Record(row).Keys == row.Keys + RecordKeys
  {
  }

  /** No value of a record is `NaN`, so every record can be sent as JSON. */
  lemma RecordHasNoNaN(row: Row)
    ensures forall k :: k in Record(row) ==> !Record(row)[k].NaN?
  {
  }

  /** A key outside `Rewritten` keeps its value, a missing one turned into
      `None`. */
  lemma RecordKeeps(row: Row, k: Key)
    requires k in row && k !in Rewritten
    ensures k in Record(row) && Record(row)[k] == NAtoNull(row[k])
  {
  }

  /** `merchant_state` and `errors` are `None` exactly when absent, zero or
      missing, and unchanged otherwise. */
  lemma RecordCollapses(row: Row, key: Key)
    requires key == MerchantState || key == Errors
    ensures key in Record(row)
    ensures Record(row)[key].Null? <==> key !in row || Sentinel(row[key])
    ensures key in row && !Sentinel(row[key]) ==> Record(row)[key] == row[key]
  {
  }

  /** A zip code is read as a float, or `None` when it is missing or not a
      number. */
  lemma RecordZip(row: Row)
    requires Zip in row
    ensures Record(row)[Zip].Dec? || Record(row)[Zip].Null?
    ensures Record(row)[Zip] == ZipOf(row[Zip])
  {
  }

  /** An existing `type` is kept (a missing one as `None`); an absent one is
      the text of `use_chip`, or "Unknown Transaction". */
  lemma RecordType(row: Row)
    ensures Type in Record(row)
    ensures Type in row ==> Record(row)[Type] == NAtoNull(row[Type])
    ensures Type !in row ==> Record(row)[Type] == Str(LabelOf(row, UseChip, UnknownType))
  {
  }

  /** An absent `nameOrig` is "Client_" and the client id; an absent
      `nameDest` is "Merchant_" and the merchant id; existing ones are kept. */
  lemma RecordNames(row: Row)
    ensures NameOrig in Record(row) && NameDest in Record(row)
    ensures NameOrig in row ==> Record(row)[NameOrig] == NAtoNull(row[NameOrig])
    ensures NameOrig !in row ==> Record(row)[NameOrig] == Str(ClientPrefix + LabelOf(row, ClientId, "?"))
    ensures NameDest in row ==> Record(row)[NameDest] == NAtoNull(row[NameDest])
    ensures NameDest !in row ==> Record(row)[NameDest] == Str(MerchantPrefix + LabelOf(row, MerchantId, "?"))
  {
  }

  /** `formatted_amount` is the amount with two decimals and " €"; `id` and
      `date` are strings, "0" and "" when the row has none. */
  lemma RecordStrings(row: Row)
    ensures Record(row)[FormattedAmount] == Str(FixedText2(AmountOf(row)) + EuroSuffix)
    ensures Record(row)[Id] == Str(LabelOf(row, Id, "0"))
    ensures Record(row)[Date] == Str(LabelOf(row, Date, ""))
  {
  }

  /** The amount in `formatted_amount` reads back as the amount rounded to cents. */
  lemma FormattedAmountReadsBack(row: Row)
    requires Normalise(row).Ok?
    ensures Normalise(row).value[FormattedAmount].Str?
    ensures var f := Normalise(row).value[FormattedAmount].s;
            && |f| >= 2 && f[|f| - 2..] == EuroSuffix
            && ParseNumber(f[..|f| - 2]) == Some(Dec(Cents(AmountOf(row)) as real / 100.0))
  {
    FormattedField(row);
    var text := FixedText2(AmountOf(row));
    DropSuffix(text, EuroSuffix);
    FixedText2RoundTrip(AmountOf(row));
  }

  lemma FormattedField(row: Row)
    requires Normalise(row).Ok?
    ensures Normalise(row).value[FormattedAmount] == Str(FixedText2(AmountOf(row)) + EuroSuffix)
  {
    RecordStrings(row);
  }

  lemma DropSuffix(text: string, suffix: string)
    ensures var f := text + suffix;
            |f| >= |suffix| && f[|f| - |suffix|..] == suffix && f[..|f| - |suffix|] == text
  {
    var f := text + suffix;
    assert f[..|text|] == text;
    assert f[|text|..] == suffix;
  }

  /** A record's amount is the row's amount, so it formats again. */
  lemma StableAmount(row: Row)
    requires !AmountUnformattable(row)
    ensures !AmountUnformattable(Record(row))
    ensures AmountOf(Record(row)) == AmountOf(row)
  {
    if Amount in row {
      RecordKeeps(row, Amount);
    }
  }

  /** `merchant_state` and `errors` survive a second normalisation: a value
      that is not a sentinel stays, and `None` is a sentinel. */
  lemma StableCollapsed(row: Row)
    ensures Record(Record(row))[MerchantState] == Record(row)[MerchantState]
    ensures Record(Record(row))[Errors] == Record(row)[Errors]
  {
    RecordCollapses(row, MerchantState);
    RecordCollapses(row, Errors);
  }

  /** A zip code read as a float reads as the same float. */
  lemma StableZip(row: Row)
    requires Zip in row
    ensures Zip in Record(row)
    ensures Record(Record(row))[Zip] == Record(row)[Zip]
  {
    RecordZip(row);
  }

  /** The three names, present after the first normalisation, are kept. */
  lemma StableType(row: Row)
    ensures Record(Record(row))[Type] == Record(row)[Type]
  {
    RecordType(row);
    RecordAt(Record(row), Type);
    OutValuePresent(Record(row), Type);
  }

  lemma StableNameOrig(row: Row)
    ensures Record(Record(row))[NameOrig] == Record(row)[NameOrig]
  {
    RecordNames(row);
    RecordAt(Record(row), NameOrig);
    OutValuePresent(Record(row), NameOrig);
  }

  lemma StableNameDest(row: Row)
    ensures Record(Record(row))[NameDest] == Record(row)[NameDest]
  {
    RecordNames(row);
    RecordAt(Record(row), NameDest);
    OutValuePresent(Record(row), NameDest);
  }

  /** `formatted_amount` is computed from the same amount; `id` and `date`
      are already strings. */
  lemma StableFormattedAmount(row: Row)
    requires !AmountUnformattable(row)
    ensures Record(Record(row))[FormattedAmount] == Record(row)[FormattedAmount]
  {
    StableAmount(row);
  }

  lemma StableId(row: Row)
    ensures Record(Record(row))[Id] == Record(row)[Id]
  {
    RecordStrings(row);
    RecordAt(Record(row), Id);
    OutValueLabel(Record(row), Id);
    LabelOfText(Record(row), Id);
  }

  lemma StableDate(row: Row)
    ensures Record(Record(row))[Date] == Record(row)[Date]
  {
    RecordStrings(row);
    RecordAt(Record(row), Date);
    OutValueLabel(Record(row), Date);
    LabelOfText(Record(row), Date);
  }

  /** Any other key holds a value that is not missing, or `None`. */
  lemma StableKept(row: Row, k: Key)
    requires k in row && k !in RecordKeys && k != Zip
    ensures k in Record(row) && Record(Record(row))[k] == Record(row)[k]
  {
    RecordKeeps(row, k);
    RecordAt(Record(row), k);
    OutValueOther(Record(row), k);
  }

  lemma OutValueLabel(row: Row, k: Key)
    requires k == Id || k == Date
    ensures OutValue(row, k) == Str(LabelOf(row, k, if k == Id then "0" else ""))
  {
  }

  lemma LabelOfText(row: Row, k: Key)
    requires k in row && row[k].Str?
    ensures LabelOf(row, k, if k == Id then "0" else "") == row[k].s
  {
  }

  lemma OutValuePresent(row: Row, k: Key)
    requires k == Type || k == NameOrig || k == NameDest
    requires k in row
    ensures OutValue(row, k) == NAtoNull(row[k])
  {
  }

  lemma OutValueOther(row: Row, k: Key)
    requires k !in RecordKeys && k != Zip
    ensures OutValue(row, k) == NAtoNull(Get(row, k))
  {
  }

  /** A second normalisation gives a record the same keys. */
  lemma StableKeys(row: Row)
    ensures Record(Record(row)).Keys == Record(row).Keys
  {
    RecordHasKeys(row);
    RecordHasKeys(Record(row));
  }

  /** Normalising a record a second time gives it back unchanged. */
  lemma NormaliseIdempotent(row: Row)
    requires Normalise(row).Ok?
    ensures Normalise(Normalise(row).value) == Normalise(row)
  {
    var s := Record(row);
    StableAmount(row);
    StableKeys(row);
    forall k | k in s ensures Record(s)[k] == s[k] {
      if k == MerchantState || k == Errors {
        StableCollapsed(row);
      } else if k == Type {
        StableType(row);
      } else if k == NameOrig {
        StableNameOrig(row);
      } else if k == NameDest {
        StableNameDest(row);
      } else if k == FormattedAmount {
        StableFormattedAmount(row);
      } else if k == Id {
        StableId(row);
      } else if k == Date {
        StableDate(row);
      } else if k == Zip {
        StableZip(row);
      } else {
        StableKept(row, k);
      }
    }
    assert Record(s) == s;
  }

  // ---------------------------------------------------------------------
  // The normaliser statement by statement
  // ---------------------------------------------------------------------

  /** `if v in (0, "0") or pd.isna(v): item[key] = None`. */
  function CollapseSentinel(item: Row, key: Key): Row
  {
    item[key := if key !in item || Sentinel(item[key]) then Null else item[key]]
  }

  /** A zip code that is not `None` is read as a float. */
  function ReadZip(item: Row): Row
  {
    if Zip in item then item[Zip := if item[Zip].Null? then Null else FloatOf(item[Zip])] else item
  }

  /** `if key not in item: item[key] = value`. */
  function FillIfAbsent(item: Row, key: Key, value: Cell): Row
  {
    item[key := if key in item then item[key] else value]
  }

  /** `str(item.get(key, fallback))`. */
  function Lookup(item: Row, key: Key, fallback: string): string
  {
    if key in item then Text(item[key]) else fallback
  }

  /** The sentinels and the zip code, after the first pass. */
  function Cleaned(item: Row): Row
  {
    ReadZip(CollapseSentinel(CollapseSentinel(item, MerchantState), Errors))
  }

  /** The three derived names. */
  function WithNames(item: Row): Row
  {
    var c := FillIfAbsent(item, Type, Str(Lookup(item, UseChip, UnknownType)));
    var d := FillIfAbsent(c, NameOrig, Str(ClientPrefix + Lookup(c, ClientId, "?")));
    FillIfAbsent(d, NameDest, Str(MerchantPrefix + Lookup(d, MerchantId, "?")))
  }

  /** The last three assignments, given the formatted amount. */
  function Finish(item: Row, text: string): Row
  {
    var f := item[FormattedAmount := Str(text + EuroSuffix)];
    var g := f[Id := Str(Lookup(f, Id, "0"))];
    g[Date := Str(Lookup(g, Date, ""))]
  }

  /** The amount is formatted, which may raise, and the record finished. */
  function Conclude(item: Row): Outcome<Row>
  {
    match AmountText(if Amount in item then item[Amount] else Int(0))
    case Raised(fault) => Raised(fault)
    case Ok(text) => Ok(Finish(item, text))
  }

  /** The record before the amount is formatted. */
  function Prepared(row: Row): Row
  {
    WithNames(Cleaned(ClearNA(row)))
  }

  /** The normaliser statement by statement. */
  function Steps(row: Row): Outcome<Row>
  {
    Conclude(Prepared(row))
  }

  /** The keys that the first pass leaves alone stay as it left them. */
  lemma CleanedKeeps(row: Row, k: Key)
    requires k != MerchantState && k != Errors && k != Zip
    ensures FirstPassAt(Cleaned(ClearNA(row)), row, k)
  {
  }

  /** The sentinels and the zip code hold their final values after `Cleaned`. */
  lemma CleanedRewrites(row: Row, k: Key)
    requires k == MerchantState || k == Errors || (k == Zip && k in row)
    ensures k in Cleaned(ClearNA(row)) && Cleaned(ClearNA(row))[k] == OutValue(row, k)
  {
  }

  /** `WithNames` leaves every key but the three names alone. */
  lemma WithNamesKeeps(item: Row, k: Key)
    requires k != Type && k != NameOrig && k != NameDest
    ensures k in WithNames(item) <==> k in item
    ensures k in item ==> WithNames(item)[k] == item[k]
  {
  }

  /** `item` holds `row`'s value for `k` as the first pass left it. */
  predicate FirstPassAt(item: Row, row: Row, k: Key)
  {
    (k in item <==> k in row) && (k in row ==> item[k] == NAtoNull(row[k]))
  }

  /** Filling in the names of a record that holds the first-pass values of
      the names and of the keys they are derived from gives their final
      values: `type` first, then `nameOrig`, then `nameDest`. */
  lemma TypeFilled(item: Row, row: Row)
    requires FirstPassAt(item, row, Type) && FirstPassAt(item, row, UseChip)
    ensures Type in WithNames(item) && WithNames(item)[Type] == OutValue(row, Type)
  {
  }

  lemma NameOrigFilled(item: Row, row: Row)
    requires FirstPassAt(item, row, NameOrig) && FirstPassAt(item, row, ClientId)
    ensures NameOrig in WithNames(item) && WithNames(item)[NameOrig] == OutValue(row, NameOrig)
  {
  }

  lemma NameDestFilled(item: Row, row: Row)
    requires FirstPassAt(item, row, NameDest) && FirstPassAt(item, row, MerchantId)
    ensures NameDest in WithNames(item) && WithNames(item)[NameDest] == OutValue(row, NameDest)
  {
  }

  /** The three names hold their final values. */
  lemma WithNamesFills(row: Row, k: Key)
    requires k == Type || k == NameOrig || k == NameDest
    ensures k in Prepared(row)
    ensures Prepared(row)[k] == OutValue(row, k)
  {
    var item := Cleaned(ClearNA(row));
    CleanedKeeps(row, Type);
    CleanedKeeps(row, NameOrig);
    CleanedKeeps(row, NameDest);
    CleanedKeeps(row, UseChip);
    CleanedKeeps(row, ClientId);
    CleanedKeeps(row, MerchantId);
    TypeFilled(item, row);
    NameOrigFilled(item, row);
    NameDestFilled(item, row);
  }

  /** Before the amount is formatted, the sentinels, the zip code and every
      key the normaliser does not touch hold their final values. */
  lemma PreparedKept(row: Row, k: Key)
    requires k !in RecordKeys || k == MerchantState || k == Errors
    ensures k in Prepared(row) <==> k in Record(row)
    ensures k in Record(row) ==> Prepared(row)[k] == OutValue(row, k)
  {
    if k == MerchantState || k == Errors || (k == Zip && k in row) {
      PreparedRewritten(row, k);
    } else {
      PreparedUntouched(row, k);
    }
  }

  lemma PreparedRewritten(row: Row, k: Key)
    requires k == MerchantState || k == Errors || (k == Zip && k in row)
    ensures k in Prepared(row) && k in Record(row) && Prepared(row)[k] == OutValue(row, k)
  {
    WithNamesKeeps(Cleaned(ClearNA(row)), k);
    CleanedRewrites(row, k);
  }

  lemma PreparedUntouched(row: Row, k: Key)
    requires k !in RecordKeys && !(k == Zip && k in row)
    ensures k in Prepared(row) <==> k in Record(row)
    ensures k in Record(row) ==> Prepared(row)[k] == OutValue(row, k)
  {
    WithNamesKeeps(Cleaned(ClearNA(row)), k);
    if k != Zip {
      CleanedKeeps(row, k);
      if k in row {
        RecordAt(row, k);
        OutValueOther(row, k);
      }
    } else {
      AbsentZip(row);
    }
  }

  lemma AbsentZip(row: Row)
    requires Zip !in row
    ensures Zip !in Cleaned(ClearNA(row)) && Zip !in Record(row)
  {
  }

  /** Before the amount is formatted, every key but the last three holds
      its final value. */
  lemma PreparedAt(row: Row, k: Key)
    requires k != FormattedAmount && k != Id && k != Date
    ensures k in Prepared(row) <==> k in Record(row)
    ensures k in Record(row) ==> Prepared(row)[k] == OutValue(row, k)
  {
    if k == Type || k == NameOrig || k == NameDest {
      WithNamesFills(row, k);
    } else {
      PreparedKept(row, k);
    }
  }


  /** `Finish` sets the last three keys and leaves the rest alone. */
  lemma FinishAt(item: Row, text: string, k: Key)
    ensures k in Finish(item, text) <==> k in item || k == FormattedAmount || k == Id || k == Date
    ensures k != FormattedAmount && k != Id && k != Date && k in item ==> Finish(item, text)[k] == item[k]
    ensures k == FormattedAmount ==> Finish(item, text)[k] == Str(text + EuroSuffix)
    ensures k == Id ==> Finish(item, text)[k] == Str(Lookup(item, Id, "0"))
    ensures k == Date ==> Finish(item, text)[k] == Str(Lookup(item, Date, ""))
  {
  }

  /** Formatting raises exactly when `Normalise` does, with the same fault,
      given a record that holds the row's amount after the first pass. */
  lemma ConcludeRaises(row: Row, item: Row)
    requires Amount in item <==> Amount in row
    requires Amount in row ==> item[Amount] == NAtoNull(row[Amount])
    ensures Conclude(item).Raised? <==> AmountUnformattable(row)
    ensures Conclude(item).Raised? ==> Conclude(item) == Normalise(row)
    ensures Conclude(item).Ok? ==> Conclude(item).value == Finish(item, FixedText2(AmountOf(row)))
  {
  }

  /** The statements raise exactly when `Normalise` does, with the same fault. */
  lemma StepsRaise(row: Row)
    ensures Steps(row).Raised? <==> AmountUnformattable(row)
    ensures Steps(row).Raised? ==> Steps(row) == Normalise(row)
    ensures Steps(row).Ok? ==> Steps(row).value == Finish(Prepared(row), FixedText2(AmountOf(row)))
  {
    PreparedAmount(row);
    ConcludeRaises(row, Prepared(row));
  }

  /** The amount is as the first pass left it when it is formatted. */
  lemma PreparedAmount(row: Row)
    ensures Amount in Prepared(row) <==> Amount in row
    ensures Amount in row ==> Prepared(row)[Amount] == NAtoNull(row[Amount])
  {
    var item := Cleaned(ClearNA(row));
    CleanedKeeps(row, Amount);
    WithNamesKeeps(item, Amount);
    assert Prepared(row) == WithNames(item);
  }

  /** After the statements, the record has the keys of `Record(row)`. */
  lemma StepsKeys(row: Row, k: Key)
    ensures var out := Finish(Prepared(row), FixedText2(AmountOf(row)));
            k in out <==> k in Record(row)
  {
    FinishAt(Prepared(row), FixedText2(AmountOf(row)), k);
    if k != FormattedAmount && k != Id && k != Date {
      PreparedAt(row, k);
    }
  }

  /** After the statements, each key holds the value `Record(row)` gives it. */
  lemma StepsValue(row: Row, k: Key)
    requires k in Record(row)
    ensures var out := Finish(Prepared(row), FixedText2(AmountOf(row)));
            k in out && out[k] == Record(row)[k]
  {
    var p := Prepared(row);
    FinishAt(p, FixedText2(AmountOf(row)), k);
    if k == Id || k == Date {
      CleanedKeeps(row, k);
      WithNamesKeeps(Cleaned(ClearNA(row)), k);
    } else if k != FormattedAmount {
      PreparedAt(row, k);
    }
  }

  /** The statements, run in order, build `Record(row)`. */
  lemma StepsMeetRecord(row: Row)
    ensures Steps(row) == Normalise(row)
  {
    StepsRaise(row);
    if !AmountUnformattable(row) {
      var out := Finish(Prepared(row), FixedText2(AmountOf(row)));
      var rec := Record(row);
      forall k ensures k in out <==> k in rec {
        StepsKeys(row, k);
      }
      forall k | k in rec ensures out[k] == rec[k] {
        StepsValue(row, k);
      }
      assert out == rec;
    }
  }

  // ---------------------------------------------------------------------
  // The normaliser as the service runs it, in place
  // ---------------------------------------------------------------------

  /** The first loop of `map_row_to_transaction`: every missing value of
      the record becomes `None`, in place. */
  method ClearMissing(row: Row) returns (item: Row)
    ensures item == ClearNA(row)
  {
    item := row;
    var pending := row.Keys;
    while pending != {}
      invariant pending <= row.Keys && item.Keys == row.Keys
      invariant forall k :: k in row ==> item[k] == if k in pending then row[k] else NAtoNull(row[k])
      decreases |pending|
    {
      var k :| k in pending;
      if IsNA(item[k]) {
        item := item[k := Null];
      }
      pending := pending - {k};
    }
  }

  /** Replacing a value by itself leaves the record as it was. */
  lemma SameUpdate(item: Row, key: Key)
    requires key in item
    ensures item[key := item[key]] == item
  {
  }

  /** The sentinels and the zip code of `map_row_to_transaction`, in place. */
  method CleanInPlace(item0: Row) returns (item: Row)
    ensures item == Cleaned(item0)
  {
    item := item0;
    if MerchantState !in item || Sentinel(item[MerchantState]) {
      item := item[MerchantState := Null];
    } else {
      SameUpdate(item, MerchantState);
    }
    if Errors !in item || Sentinel(item[Errors]) {
      item := item[Errors := Null];
    } else {
      SameUpdate(item, Errors);
    }
    if Zip in item && !item[Zip].Null? {
      item := item[Zip := FloatOf(item[Zip])];
    } else if Zip in item {
      SameUpdate(item, Zip);
    }
  }

  /** The three derived names of `map_row_to_transaction`, in place. */
  method FillNamesInPlace(item0: Row) returns (item: Row)
    ensures item == WithNames(item0)
  {
    item := item0;
    if Type !in item {
      item := item[Type := Str(Lookup(item, UseChip, UnknownType))];
    } else {
      SameUpdate(item, Type);
    }
    if NameOrig !in item {
      item := item[NameOrig := Str(ClientPrefix + Lookup(item, ClientId, "?"))];
    } else {
      SameUpdate(item, NameOrig);
    }
    if NameDest !in item {
      item := item[NameDest := Str(MerchantPrefix + Lookup(item, MerchantId, "?"))];
    } else {
      SameUpdate(item, NameDest);
    }
  }

  /** `map_row_to_transaction`, updating the record entry by entry. */
  method MapRowToTransaction(row: Row) returns (r: Outcome<Row>)
    ensures r == Normalise(row)
  {
    var item := ClearMissing(row);
    item := CleanInPlace(item);
    item := FillNamesInPlace(item);
    ghost var prepared := item;
    var text := AmountText(if Amount in item then item[Amount] else Int(0));
    if text.Raised? {
      r := Raised(text.fault);
    } else {
      item := item[FormattedAmount := Str(text.value + EuroSuffix)];
      item := item[Id := Str(Lookup(item, Id, "0"))];
      item := item[Date := Str(Lookup(item, Date, ""))];
      r := Ok(item);
    }
    assert r == Conclude(prepared);
    StepsMeetRecord(row);
  }

  /** Every row of `rows` normalises. */
  predicate AllFormattable(rows: seq<Row>)
  {
    forall i :: 0 <= i < |rows| ==> !AmountUnformattable(rows[i])
  }

  /** `fault` is what the first row of `rows` that fails to normalise raises. */
  predicate RaisesFirst(rows: seq<Row>, fault: Fault)
  {
    exists i :: 0 <= i < |rows| && Normalise(rows[i]) == Raised(fault)
                && forall j :: 0 <= j < i ==> !AmountUnformattable(rows[j])
  }

  /** The rows normalised in order; the first row that raises stops the list
      comprehension with its exception. */
  function NormaliseAll(rows: seq<Row>): (r: Outcome<seq<Row>>)
    ensures r.Ok? <==> AllFormattable(rows)
    ensures r.Ok? ==> |r.value| == |rows|
    ensures r.Ok? ==> forall i :: 0 <= i < |rows| ==> Ok(r.value[i]) == Normalise(rows[i])
    ensures r.Raised? ==> RaisesFirst(rows, r.fault)
  {
    MapOutcomes(rows, Normalise)
  }

  /** A list comprehension whose element expression may raise: the list of
      results, or the first exception, which ends the comprehension. */
  function MapOutcomes<T, U>(xs: seq<T>, f: T -> Outcome<U>): (r: Outcome<seq<U>>)
    ensures r.Ok? <==> forall i :: 0 <= i < |xs| ==> f(xs[i]).Ok?
    ensures r.Ok? ==> |r.value| == |xs| && forall i :: 0 <= i < |xs| ==> f(xs[i]) == Ok(r.value[i])
    ensures r.Raised? ==> exists i :: 0 <= i < |xs| && f(xs[i]) == Raised(r.fault)
                                       && forall j :: 0 <= j < i ==> f(xs[j]).Ok?
  {
    if xs == [] then Ok([])
    else
      match f(xs[0])
      case Raised(fault) => Raised(fault)
      case Ok(x) =>
        assert forall i :: 1 <= i < |xs| ==> xs[1..][i - 1] == xs[i];
        match MapOutcomes(xs[1..], f)
        case Raised(fault) => Raised(fault)
        case Ok(ys) => Ok([x] + ys)
  }
}
