/** Cells of the transaction table, Python's rendering of a cell as text, the
    two-decimal amount format, and the decimal grammar numbers are read with. */
module Cells {

  import opened Sequences

  /** One cell of a table. `NaN` is pandas' missing-value marker and `Null`
      is Python's `None`; both count as missing (`pd.isna`). */
  datatype Cell = Int(i: int) | Dec(d: real) | Str(s: string) | NaN | Null

  /** A column name. The names the services refer to have a constructor of
      their own; any other name is `Named`. */
  datatype Key =
    | Id | Date | ClientId | Amount | UseChip | MerchantId | MerchantState | Zip | Errors
    | Type | NameOrig | NameDest | FormattedAmount | IsFraud | Step
    | OldBalanceOrg | NewBalanceOrig | OldBalanceDest | NewBalanceDest
    | Named(name: string)

  /** The text of a column name. */
  function Name(k: Key): string
  {
    match k
    case Id => "id"
    case Date => "date"
    case ClientId => "client_id"
    case Amount => "amount"
    case UseChip => "use_chip"
    case MerchantId => "merchant_id"
    case MerchantState => "merchant_state"
    case Zip => "zip"
    case Errors => "errors"
    case Type => "type"
    case NameOrig => "nameOrig"
    case NameDest => "nameDest"
    case FormattedAmount => "formatted_amount"
    case IsFraud => "isFraud"
    case Step => "step"
    case OldBalanceOrg => "oldbalanceOrg"
    case NewBalanceOrig => "newbalanceOrig"
    case OldBalanceDest => "oldbalanceDest"
    case NewBalanceDest => "newbalanceDest"
    case Named(s) => s
  }

  /** The column name a header text denotes. */
  function KeyOf(s: string): (k: Key)
    ensures Name(k) == s
  {
    if s == "id" then Id
    else if s == "date" then Date
    else if s == "client_id" then ClientId
    else if s == "amount" then Amount
    else if s == "use_chip" then UseChip
    else if s == "merchant_id" then MerchantId
    else if s == "merchant_state" then MerchantState
    else if s == "zip" then Zip
    else if s == "errors" then Errors
    else if s == "type" then Type
    else if s == "nameOrig" then NameOrig
    else if s == "nameDest" then NameDest
    else if s == "formatted_amount" then FormattedAmount
    else if s == "isFraud" then IsFraud
    else if s == "step" then Step
    else if s == "oldbalanceOrg" then OldBalanceOrg
    else if s == "newbalanceOrig" then NewBalanceOrig
    else if s == "oldbalanceDest" then OldBalanceDest
    else if s == "newbalanceDest" then NewBalanceDest
    else Named(s)
  }

  /** Every name has one key: `KeyOf` is injective, so two different header
      texts never denote the same column. */
  lemma KeyOfInjective(s: string, u: string)
    ensures KeyOf(s) == KeyOf(u) ==> s == u
  {
    assert Name(KeyOf(s)) == s && Name(KeyOf(u)) == u;
  }

  /** A row maps a column name to its cell (`row.to_dict()`). */
  type Row = map<Key, Cell>

  /** A table: its column header, in order, and its rows. */
  datatype Frame = Frame(columns: seq<Key>, rows: seq<Row>)

  /** What `pd.DataFrame()` gives: no columns and no rows. */
  const EmptyFrame: Frame := Frame([], [])

  /** The Python exceptions the services let escape. */
  datatype Fault = KeyError(column: Key) | TypeError | ValueError

  /** A result, or the exception raised instead of returning it. */
  datatype Outcome<+T> = Ok(value: T) | Raised(fault: Fault)

  predicate IsNA(c: Cell) { c.NaN? || c.Null? }

  /** The complement of `IsNA`, as a function value for filters (`dropna`). */
  predicate Known(c: Cell) { !IsNA(c) }

  predicate IsNumber(c: Cell) { c.Int? || c.Dec? }

  function Value(c: Cell): real
    requires IsNumber(c)
  {
    if c.Int? then c.i as real else c.d
  }

  /** The numbers among `cs` as reals, in order; every other cell is skipped. */
  function NumbersIn(cs: seq<Cell>): (xs: seq<real>)
    ensures |xs| <= |cs|
    ensures forall x :: x in xs <==> exists i :: 0 <= i < |cs| && IsNumber(cs[i]) && Value(cs[i]) == x
  {
    if cs == [] then []
    else
      var p := cs[..|cs| - 1];
      var c := cs[|cs| - 1];
      assert forall i :: 0 <= i < |p| ==> p[i] == cs[i];
      NumbersIn(p) + (if IsNumber(c) then [Value(c)] else [])
  }

  /** Collecting the numbers keeps their order: it splits over concatenation. */
  lemma {:induction false} NumbersInAppend(a: seq<Cell>, b: seq<Cell>)
    ensures NumbersIn(a + b) == NumbersIn(a) + NumbersIn(b)
  {
    if b != [] {
      var b' := b[..|b| - 1];
      assert (a + b)[..|a + b| - 1] == a + b';
      NumbersInAppend(a, b');
    } else {
      assert a + b == a;
    }
  }

  /** pandas' `DataFrame.empty`: no rows or no columns. */
  predicate IsEmpty(t: Frame) { |t.rows| == 0 || |t.columns| == 0 }

  /** Every row has exactly the header's columns as keys, and no name repeats. */
  ghost predicate WellFormed(t: Frame)
  {
    && (forall i, j :: 0 <= i < j < |t.columns| ==> t.columns[i] != t.columns[j])
    && (forall k :: 0 <= k < |t.rows| ==> t.rows[k].Keys == set c | c in t.columns)
  }

  /** Cell `c` of row `r`; a column the row lacks reads as missing. */
  function Get(r: Row, c: Key): Cell
  {
    if c in r then r[c] else NaN
  }

  /** The cells of one column, top to bottom (`df[c]`). */
  function Column(rows: seq<Row>, c: Key): (col: seq<Cell>)
    ensures |col| == |rows|
    ensures forall i :: 0 <= i < |rows| ==> col[i] == Get(rows[i], c)
  {
    seq(|rows|, i requires 0 <= i < |rows| => Get(rows[i], c))
  }

  /** Python's `cell == n` for an integer `n`. */
  predicate EqualsInt(c: Cell, n: int)
  {
    (c.Int? && c.i == n) || (c.Dec? && c.d == n as real)
  }

  /** Python's `a == b` between two cells: numbers by value, strings by
      content, `None == None`, and `NaN` equal to nothing. */
  predicate PyEq(a: Cell, b: Cell)
  {
    if IsNumber(a) && IsNumber(b) then Value(a) == Value(b)
    else if a.Str? && b.Str? then a.s == b.s
    else a.Null? && b.Null?
  }

  lemma PyEqReflexive(c: Cell)
    requires Known(c)
    ensures PyEq(c, c)
  {
  }

  // ---------------------------------------------------------------------
  // Rendering as text
  // ---------------------------------------------------------------------

  predicate IsDigit(ch: char) { '0' <= ch <= '9' }

  predicate AllDigits(s: string)
  {
    forall i :: 0 <= i < |s| ==> IsDigit(s[i])
  }

  function DigitChar(d: nat): (ch: char)
    requires d < 10
    ensures IsDigit(ch) && ch as int - '0' as int == d
  {
    ('0' as int + d) as char
  }

  /** Decimal digits of a natural number, without leading zeros. */
  function NatText(n: nat): (s: string)
    ensures |s| >= 1 && AllDigits(s)
    ensures n < 10 <==> |s| == 1
  {
    if n < 10 then [DigitChar(n)] else NatText(n / 10) + [DigitChar(n % 10)]
  }

  /** Python's `str(n)` for an int. */
  function IntText(n: int): string
  {
    if n < 0 then "-" + NatText(-n) else NatText(n)
  }

  /** Fraction digits of `f` in [0, 1), at most `fuel` of them, stopping as
      soon as the rest is zero. */
  function FracDigits(f: real, fuel: nat): string
    requires 0.0 <= f < 1.0
    decreases fuel
  {
    if f == 0.0 || fuel == 0 then ""
    else
      var g := f * 10.0;
      var k := g.Floor;
      [DigitChar(k)] + FracDigits(g - k as real, fuel - 1)
  }

  /** Python's `str(x)` for a float holding the decimal `x`: an integral value
      prints with ".0", any other with its exact fraction digits (up to 17). */
  function DecText(x: real): string
  {
    var m := if x < 0.0 then -x else x;
    var whole := m.Floor;
    var frac := m - whole as real;
    (if x < 0.0 then "-" else "") + NatText(whole) + "."
      + (if frac == 0.0 then "0" else FracDigits(frac, 17))
  }

  /** Python's `str(cell)`, which is also what an f-string inserts. */
  function Text(c: Cell): string
  {
    match c
    case Int(n) => IntText(n)
    case Dec(x) => DecText(x)
    case Str(s) => s
    case NaN => "nan"
    case Null => "None"
  }

  /** Rounds a non-negative real to the nearest integer, ties to even. */
  function RoundHalfEven(y: real): (n: nat)
    requires y >= 0.0
    ensures (n as real) - 0.5 <= y <= (n as real) + 0.5
  {
    var f := y.Floor;
    var frac := y - f as real;
    if frac > 0.5 then f + 1
    else if frac < 0.5 then f
    else if f % 2 == 0 then f
    else f + 1
  }

  function Abs(x: real): real { if x < 0.0 then -x else x }

  /** `x` rounded to a whole number of hundredths, as Python's ":.2f" does
      (sign kept, magnitude rounded half to even). */
  function Cents(x: real): (c: int)
    ensures -0.5 <= (c as real) - x * 100.0 <= 0.5
    ensures (c < 0 ==> x < 0.0) && (x < 0.0 ==> c <= 0)
  {
    var n: int := RoundHalfEven(Abs(x) * 100.0);
    if x < 0.0 then -n else n
  }

  /** `m` units of `1 / scale` make a whole number of those units. */
  lemma WholeUnits(m: int, scale: real)
    requires scale > 0.0
    ensures (m as real / scale) * scale == (m as real / scale * scale).Floor as real
  {
    assert m as real / scale * scale == m as real;
  }

  /** Python's `round(x, 2)`: the nearest hundredth, ties to even. */
  function Round2(x: real): (y: real)
    ensures -0.005 <= y - x <= 0.005
    ensures y * 100.0 == (y * 100.0).Floor as real
  {
    var c := Cents(x);
    WholeUnits(c, 100.0);
    c as real / 100.0
  }

  /** Python's `round(x, 5)`: the nearest hundred-thousandth, ties to even. */
  function Round5(x: real): (y: real)
    ensures -0.000005 <= y - x <= 0.000005
    ensures 0.0 <= x <= 1.0 ==> 0.0 <= y <= 1.0
    ensures y * 100000.0 == (y * 100000.0).Floor as real
  {
    var n := RoundHalfEven(Abs(x) * 100000.0);
    var m: int := if x < 0.0 then -(n as int) else n;
    WholeUnits(m, 100000.0);
    m as real / 100000.0
  }

  /** Python's `f"{x:.2f}"`. */
  function FixedText2(x: real): string
  {
    HundredthsText(x < 0.0, RoundHalfEven(Abs(x) * 100.0))
  }

  /** `s` preceded by a minus sign when `neg`. */
  function Signed(neg: bool, s: string): string
  {
    if neg then "-" + s else s
  }

  /** `m` hundredths written with two decimals, preceded by a minus sign when `neg`. */
  function HundredthsText(neg: bool, m: nat): string
  {
    Signed(neg, NatText(m / 100) + "." + [DigitChar(m / 10 % 10), DigitChar(m % 10)])
  }

  // ---------------------------------------------------------------------
  // Reading numbers back
  // ---------------------------------------------------------------------

  function DigitsValue(s: string): nat
    requires AllDigits(s)
  {
    if s == [] then 0
    else
      assert IsDigit(s[|s| - 1]);
      DigitsValue(s[..|s| - 1]) * 10 + (s[|s| - 1] as int - '0' as int)
  }

  /** The value of fraction digits `d1 d2 ...`, that is `0.d1d2...`. */
  function FracValue(s: string): (v: real)
    requires AllDigits(s)
  {
    if s == [] then 0.0
    else
      assert IsDigit(s[0]);
      ((s[0] as int - '0' as int) as real + FracValue(s[1..])) / 10.0
  }

  /** Index of the first `ch` in `s`, or `|s|` when there is none. */
  function IndexOfChar(s: string, ch: char): (k: nat)
    ensures k <= |s|
    ensures forall i :: 0 <= i < k ==> s[i] != ch
    ensures k < |s| ==> s[k] == ch
  {
    if s == [] then 0 else if s[0] == ch then 0 else 1 + IndexOfChar(s[1..], ch)
  }

  function Negated(r: Option<Cell>): Option<Cell>
  {
    match r
    case Some(Int(n)) => Some(Int(-n))
    case Some(Dec(x)) => Some(Dec(-x))
    case _ => r
  }

  /** An unsigned number: digits, then optionally a point and more digits,
      with at least one digit in all. Without a point it is an `Int`, with
      one a `Dec`. */
  function ParseUnsigned(body: string): (r: Option<Cell>)
    ensures r.Some? ==> IsNumber(r.value)
  {
    var k := IndexOfChar(body, '.');
    if k == |body| then
      if body != [] && AllDigits(body) then Some(Int(DigitsValue(body))) else None
    else PointedNumber(body[..k], body[k + 1..])
  }

  /** The digits before and after a decimal point, read as a `Dec`. */
  function PointedNumber(whole: string, frac: string): (r: Option<Cell>)
    ensures r.Some? ==> r.value.Dec?
  {
    if AllDigits(whole) && AllDigits(frac) && |whole| + |frac| >= 1 then
      Some(Dec(DigitsValue(whole) as real + FracValue(frac)))
    else None
  }

  /** The number grammar of the model: an optional sign before an unsigned
      number; anything else does not parse. */
  function ParseNumber(s: string): (r: Option<Cell>)
    ensures r.Some? ==> IsNumber(r.value)
  {
    if |s| > 0 && s[0] == '-' then Negated(ParseUnsigned(s[1..]))
    else if |s| > 0 && s[0] == '+' then ParseUnsigned(s[1..])
    else ParseUnsigned(s)
  }

  /** The integer grammar of `int(text)`: an optional sign before one or
      more digits. */
  function ParseInt(s: string): (r: Option<int>)
    ensures r.Some? <==> var body := if |s| > 0 && (s[0] == '-' || s[0] == '+') then s[1..] else s;
                         body != [] && AllDigits(body)
  {
    var body := if |s| > 0 && (s[0] == '-' || s[0] == '+') then s[1..] else s;
    if body == [] || !AllDigits(body) then None
    else if s[0] == '-' then Some(0 - DigitsValue(body))
    else Some(DigitsValue(body))
  }

  /** Python's `int(cell)`: truncation toward zero for a float, the integer
      grammar for a string, an error for a missing cell. */
  function IntOf(c: Cell): (r: Outcome<int>)
    ensures c.Int? ==> r == Ok(c.i)
    ensures c.Dec? ==> r.Ok? && Abs(r.value as real) <= Abs(c.d) < Abs(r.value as real) + 1.0
    ensures c.Dec? ==> (r.value < 0 ==> c.d < 0.0) && (c.d < 0.0 ==> r.value <= 0)
    ensures c.Str? ==> r == (if ParseInt(c.s).Some? then Ok(ParseInt(c.s).value) else Raised(ValueError))
    ensures c.NaN? ==> r == Raised(ValueError)
    ensures c.Null? ==> r == Raised(TypeError)
  {
    match c
    case Int(n) => Ok(n)
    case Dec(x) => Ok(if x < 0.0 then -((-x).Floor) else x.Floor)
    case Str(s) =>
      (match ParseInt(s)
       case Some(n) => Ok(n)
       case None => Raised(ValueError))
    case NaN => Raised(ValueError)
    case Null => Raised(TypeError)
  }

  // ---------------------------------------------------------------------
  // Round trips between rendering and reading
  // ---------------------------------------------------------------------

  lemma {:induction false} NatTextValue(n: nat)
    ensures DigitsValue(NatText(n)) == n
  {
    if n >= 10 {
      var s := NatText(n);
      NatTextValue(n / 10);
      assert s[..|s| - 1] == NatText(n / 10);
    }
  }

  lemma ParseIntNat(m: nat)
    ensures ParseInt(NatText(m)) == Some(m)
  {
    var body := NatText(m);
    NatTextValue(m);
    assert IsDigit(body[0]);
  }

  lemma ParseIntNegative(m: nat)
    ensures ParseInt("-" + NatText(m)) == Some(-(m as int))
  {
    var body := NatText(m);
    var s := "-" + body;
    NatTextValue(m);
    assert s[1..] == body;
  }

  /** `int(str(n)) == n`. */
  lemma IntOfIntText(n: int)
    ensures IntOf(Str(IntText(n))) == Ok(n)
  {
    if n < 0 {
      ParseIntNegative(-n);
    } else {
      ParseIntNat(n);
    }
  }

  /** Reading `str(n)` back as a number gives `n` again. */
  lemma IntTextRoundTrip(n: int)
    ensures ParseNumber(IntText(n)) == Some(Int(n))
  {
    var s := IntText(n);
    var m: nat := if n < 0 then -n else n;
    NatTextValue(m);
    var body := NatText(m);
    if n < 0 {
      assert s[1..] == body;
    } else {
      assert s[0] == body[0];
    }
    NoPointInDigits(body);
  }

  lemma NoPointInDigits(s: string)
    requires AllDigits(s)
    ensures IndexOfChar(s, '.') == |s|
  {
    assert forall i | 0 <= i < |s| :: s[i] != '.' by {
      forall i | 0 <= i < |s| ensures s[i] != '.' { assert IsDigit(s[i]); }
    }
  }

  /** Digits of a two-digit tail read back as its value. */
  /** Two fraction digits `a`, `b` are worth `(10a + b) / 100`. */
  lemma TwoDigitsFraction(a: nat, b: nat)
    requires a < 10 && b < 10
    ensures AllDigits([DigitChar(a), DigitChar(b)])
    ensures FracValue([DigitChar(a), DigitChar(b)]) == (10 * a + b) as real / 100.0
  {
    var s := [DigitChar(a), DigitChar(b)];
    assert s[1..] == [DigitChar(b)];
    assert [DigitChar(b)][1..] == [];
    assert FracValue([DigitChar(b)]) == b as real / 10.0;
  }

  /** A minus sign in front of an unsigned number negates what is read. */
  lemma ParseNegated(body: string)
    requires |body| >= 1 && IsDigit(body[0])
    ensures ParseNumber("-" + body) == Negated(ParseNumber(body))
  {
    var s := "-" + body;
    assert s[1..] == body;
  }

  lemma PointIndex(whole: string, tail: string)
    requires AllDigits(whole)
    ensures IndexOfChar(whole + "." + tail, '.') == |whole|
  {
    NoPointInDigits(whole);
    assert whole + "." + tail == whole + ("." + tail);
    assert ("." + tail)[0] == '.';
    IndexOfCharAppend(whole, "." + tail, '.');
  }

  /** Digits, a point and more digits read as a decimal. */
  lemma ParsePointed(whole: string, tail: string)
    requires AllDigits(whole) && AllDigits(tail) && |whole| >= 1
    ensures ParseUnsigned(whole + "." + tail)
              == Some(Dec(DigitsValue(whole) as real + FracValue(tail)))
  {
    var body := whole + "." + tail;
    PointIndex(whole, tail);
    PointSplit(whole, tail);
    ParseUnsignedAt(body, |whole|);
    PointedValue(whole, tail);
  }

  lemma PointedValue(whole: string, tail: string)
    requires AllDigits(whole) && AllDigits(tail) && |whole| >= 1
    ensures PointedNumber(whole, tail) == Some(Dec(DigitsValue(whole) as real + FracValue(tail)))
  {
  }

  lemma ParseUnsignedAt(body: string, k: nat)
    requires k < |body| && IndexOfChar(body, '.') == k
    ensures ParseUnsigned(body) == PointedNumber(body[..k], body[k + 1..])
  {
  }

  lemma PointSplit(whole: string, tail: string)
    ensures |whole + "." + tail| == |whole| + 1 + |tail|
    ensures (whole + "." + tail)[..|whole|] == whole
    ensures (whole + "." + tail)[|whole| + 1..] == tail
  {
  }

  /** A text that starts with a digit has no sign to read. */
  lemma ParseUnsignedFirst(body: string)
    requires |body| >= 1 && IsDigit(body[0])
    ensures ParseNumber(body) == ParseUnsigned(body)
  {
    assert body[0] != '-' && body[0] != '+';
  }

  /** Reading back the digits of `q`, a point and two digits `a`, `b`. */
  lemma ParseTwoDecimalsUnsigned(q: nat, a: nat, b: nat)
    requires a < 10 && b < 10
    ensures var body := NatText(q) + "." + [DigitChar(a), DigitChar(b)];
            |body| >= 1 && IsDigit(body[0])
    ensures ParseNumber(NatText(q) + "." + [DigitChar(a), DigitChar(b)])
              == Some(Dec(q as real + (10 * a + b) as real / 100.0))
  {
    var whole := NatText(q);
    var tail := [DigitChar(a), DigitChar(b)];
    var body := whole + "." + tail;
    NatTextValue(q);
    TwoDigitsFraction(a, b);
    ParsePointed(whole, tail);
    assert body[0] == whole[0];
    ParseUnsignedFirst(body);
  }

  /** An optional minus sign before a decimal negates what is read. */
  lemma SignedRead(neg: bool, body: string, v: real)
    requires |body| >= 1 && IsDigit(body[0]) && ParseNumber(body) == Some(Dec(v))
    ensures ParseNumber(Signed(neg, body)) == Some(Dec(if neg then -v else v))
  {
    if neg {
      ParseNegated(body);
    }
  }

  lemma {:induction false} IndexOfCharAppend(a: string, b: string, ch: char)
    requires IndexOfChar(a, ch) == |a|
    ensures IndexOfChar(a + b, ch) == |a| + IndexOfChar(b, ch)
  {
    if a != [] {
      assert (a + b)[1..] == a[1..] + b;
      assert a[0] != ch;
      IndexOfCharAppend(a[1..], b, ch);
    } else {
      assert a + b == b;
    }
  }

  /** The digits `FixedText2` prints for `m` hundredths make up `m / 100`. */
  lemma HundredthsValue(m: nat)
    ensures (m / 100) as real + (10 * (m / 10 % 10) + m % 10) as real / 100.0 == m as real / 100.0
  {
    DecimalDigits(m);
  }

  /** The text `FixedText2` prints for `m` hundredths reads back as `m / 100`. */
  lemma ParseHundredths(neg: bool, m: nat)
    ensures ParseNumber(HundredthsText(neg, m)) == Some(Dec((if neg then -(m as int) else m) as real / 100.0))
  {
    var q, a, b := m / 100, m / 10 % 10, m % 10;
    var body := NatText(q) + "." + [DigitChar(a), DigitChar(b)];
    ParseTwoDecimalsUnsigned(q, a, b);
    HundredthsValue(m);
    SignedRead(neg, body, m as real / 100.0);
  }

  /** Reading a formatted amount back gives the amount rounded to cents:
      the text ":.2f" prints is never more than half a cent off. */
  lemma FixedText2RoundTrip(x: real)
    ensures ParseNumber(FixedText2(x)) == Some(Dec(Cents(x) as real / 100.0))
  {
    ParseHundredths(x < 0.0, RoundHalfEven(Abs(x) * 100.0));
  }

  lemma DecimalDigits(m: nat)
    ensures m == 100 * (m / 100) + 10 * (m / 10 % 10) + m % 10
  {
    var q := m / 10;
    assert m == 10 * q + m % 10;
    assert q == 10 * (q / 10) + q % 10;
    assert m / 100 == q / 10;
  }
}
