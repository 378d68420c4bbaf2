/** The fraud service: the share of rows marked as fraud, the fraud rows
    counted per transaction type, and the rule-based risk score of one
    transaction. The summaries read the published table, passed in as `t`. */
module Fraud {

  import opened Sequences
  import opened Cells
  import opened Counting

  // ---------------------------------------------------------------------
  // Fraud markers
  // ---------------------------------------------------------------------

  /** `cell.astype(str).isin(["1", "1.0", "True"])`. */
  predicate IsFraudMarker(c: Cell)
  {
    Text(c) == "1" || Text(c) == "1.0" || Text(c) == "True"
  }

  /** A digit string has no point and no letter. */
  lemma DigitsAreNotText(s: string, i: nat)
    requires AllDigits(s) && i < |s|
    ensures s[i] != '.' && s[i] != 'T'
  {
    assert IsDigit(s[i]);
  }

  lemma IntTextMarker(n: int)
    ensures IntText(n) == "1" <==> n == 1
    ensures IntText(n) != "1.0" && IntText(n) != "True"
  {
    var body := NatText(if n < 0 then -n else n);
    if n < 0 {
      assert IntText(n)[0] == '-';
    } else {
      DigitsAreNotText(body, 0);
      if |body| > 1 {
        DigitsAreNotText(body, 1);
      }
    }
  }

  /** Nonzero fraction digits never read "0". */
  lemma FracDigitsNotZero(f: real)
    requires 0.0 < f < 1.0
    ensures FracDigits(f, 17) != "0"
  {
    var k := (f * 10.0).Floor;
    FirstFracDigit(f, 17);
    var rest := FracDigits(f * 10.0 - k as real, 16);
    assert FracDigits(f, 17)[0] == DigitChar(k);
    if k == 0 {
      FracDigitsNonEmpty(f * 10.0, 16);
      assert |FracDigits(f, 17)| == 1 + |rest| >= 2;
    } else {
      assert DigitChar(k) != '0';
    }
  }

  /** The first fraction digit of a nonzero `f` is that of `10 * f`; it is
      followed by the digits of what is left. */
  lemma FirstFracDigit(f: real, fuel: nat)
    requires 0.0 < f < 1.0 && fuel >= 1
    ensures var k := (f * 10.0).Floor;
            0 <= k < 10 && 0.0 <= f * 10.0 - k as real < 1.0
            && FracDigits(f, fuel) == [DigitChar(k)] + FracDigits(f * 10.0 - k as real, fuel - 1)
  {
  }

  /** A nonzero fraction has at least one digit. */
  lemma FracDigitsNonEmpty(f: real, fuel: nat)
    requires 0.0 < f < 1.0 && fuel >= 1
    ensures |FracDigits(f, fuel)| >= 1
  {
    FirstFracDigit(f, fuel);
  }

  lemma DecTextMarker(x: real)
    ensures DecText(x) != "1" && DecText(x) != "True"
    ensures DecText(x) == "1.0" <==> x == 1.0
  {
    var m := if x < 0.0 then -x else x;
    var whole := m.Floor;
    var frac := m - whole as real;
    var digits := NatText(whole);
    var tail := if frac == 0.0 then "0" else FracDigits(frac, 17);
    var sign := if x < 0.0 then "-" else "";
    assert DecText(x) == sign + digits + "." + tail;
    SignedDecimalShape(sign, digits, tail);
    if DecText(x) == "1.0" {
      OnePointZero(whole, frac, digits, tail);
    }
  }

  /** A decimal text with an optional minus sign is neither "1" nor "True",
      and reads "1.0" only without the sign. */
  lemma SignedDecimalShape(sign: string, digits: string, tail: string)
    requires sign == "" || sign == "-"
    requires |digits| >= 1 && AllDigits(digits)
    ensures sign + digits + "." + tail != "1" && sign + digits + "." + tail != "True"
    ensures sign + digits + "." + tail == "1.0" ==> sign == ""
  {
    var s := sign + digits + "." + tail;
    DigitsAreNotText(digits, 0);
    assert s[|sign| + |digits|] == '.';
    assert s[|sign|] == digits[0];
  }

  /** The unsigned text "1.0" has whole part 1 and no fraction. */
  lemma OnePointZero(whole: nat, frac: real, digits: string, tail: string)
    requires 0.0 <= frac < 1.0 && digits == NatText(whole)
    requires tail == (if frac == 0.0 then "0" else FracDigits(frac, 17))
    requires digits + "." + tail == "1.0"
    ensures whole == 1 && frac == 0.0
  {
    var s := digits + "." + tail;
    DigitsAreNotText(digits, 0);
    assert s[|digits|] == '.';
    assert digits == [s[0]];
    assert whole == 1 by {
      NatTextValue(whole);
    }
    assert tail == s[2..] == "0";
    if frac != 0.0 {
      FracDigitsNotZero(frac);
    }
  }

  /** Exactly five cells are fraud markers: the integer 1, the float 1.0, and
      the texts "1", "1.0" and "True". The last is the text `astype(str)`
      makes of a boolean `True`; boolean cells themselves are not modelled. */
  lemma FraudMarkerCells(c: Cell)
    ensures IsFraudMarker(c) <==>
      c == Int(1) || c == Dec(1.0) || c == Str("1") || c == Str("1.0") || c == Str("True")
  {
    match c
    case Int(n) => IntTextMarker(n);
    case Dec(x) => DecTextMarker(x);
    case Str(s) =>
    case NaN =>
    case Null =>
  }

  /** The column holding the marker: `isFraud` when present, `errors` otherwise. */
  function FraudColumn(t: Frame): (k: Key)
    ensures IsFraud in t.columns ==> k == IsFraud
    ensures IsFraud !in t.columns ==> k == Errors
  {
    if IsFraud in t.columns then IsFraud else Errors
  }

  function MarkedIn(col: Key): Row -> bool
  {
    row => IsFraudMarker(Get(row, col))
  }

  /** The rows marked as fraud, in table order. */
  function FraudRows(t: Frame): (rows: seq<Row>)
    ensures forall row :: row in rows <==> row in t.rows && IsFraudMarker(Get(row, FraudColumn(t)))
    ensures |rows| <= |t.rows|
  {
    Filter(t.rows, MarkedIn(FraudColumn(t)))
  }

  // ---------------------------------------------------------------------
  // Summary
  // ---------------------------------------------------------------------

  datatype FraudSummary = FraudSummary(totalFrauds: nat, flaggedBySystem: nat, fraudRate: real)

  /** `get_fraud_summary()`: the number of fraud rows, reported twice, and
      their share of all rows rounded to five places. */
  function GetFraudSummary(t: Frame): (r: FraudSummary)
    ensures IsEmpty(t) || (IsFraud !in t.columns && Errors !in t.columns) ==> r == FraudSummary(0, 0, 0.0)
    ensures r.flaggedBySystem == r.totalFrauds <= |t.rows|
    ensures 0.0 <= r.fraudRate <= 1.0
    ensures !IsEmpty(t) && FraudColumn(t) in t.columns ==>
              && r.totalFrauds == |FraudRows(t)|
              && -0.000005 <= r.fraudRate - (|FraudRows(t)| as real / |t.rows| as real) <= 0.000005
  {
    if IsEmpty(t) then FraudSummary(0, 0, 0.0)
    else
      var col := FraudColumn(t);
      if col !in t.columns then FraudSummary(0, 0, 0.0)
      else
        var total := |FraudRows(t)|;
        var rate := total as real / |t.rows| as real;
        RatioBounds(total, |t.rows|);
        FraudSummary(total, total, Round5(rate))
  }

  lemma RatioBounds(a: nat, b: nat)
    requires a <= b && b > 0
    ensures 0.0 <= a as real / b as real <= 1.0
  {
  }

  // ---------------------------------------------------------------------
  // Fraud per type
  // ---------------------------------------------------------------------

  /** The column holding the type: `type` when present, `use_chip` otherwise. */
  function TypeColumn(t: Frame): (k: Key)
    ensures Type in t.columns ==> k == Type
    ensures Type !in t.columns ==> k == UseChip
  {
    if Type in t.columns then Type else UseChip
  }

  /** The types of the fraud rows, in table order. */
  function FraudTypes(t: Frame): (col: seq<Cell>)
    ensures |col| == |FraudRows(t)|
  {
    Column(FraudRows(t), TypeColumn(t))
  }

  /** `get_fraud_by_type()`: the (type, count) records of the fraud rows
      grouped by type, types in ascending order. Rows whose type is missing
      form no group. */
  function GetFraudByType(t: Frame): (r: seq<(Cell, nat)>)
    ensures IsEmpty(t) || FraudColumn(t) !in t.columns || TypeColumn(t) !in t.columns || FraudRows(t) == [] ==> r == []
    ensures forall i :: 0 <= i < |r| ==>
              Known(r[i].0) && r[i].1 >= 1 && r[i].1 == multiset(FraudTypes(t))[r[i].0]
    ensures forall i, j :: 0 <= i < j < |r| ==> r[i].0 != r[j].0 && CellLE(r[i].0, r[j].0)
    ensures !IsEmpty(t) && FraudColumn(t) in t.columns && TypeColumn(t) in t.columns ==>
              forall c :: Known(c) && c in FraudTypes(t) ==> exists i :: 0 <= i < |r| && r[i].0 == c
  {
    if IsEmpty(t) || FraudColumn(t) !in t.columns || TypeColumn(t) !in t.columns then []
    else if FraudRows(t) == [] then []
    else GroupSizes(FraudTypes(t))
  }

  /** The counts add up to the number of fraud rows that have a type. */
  lemma FraudByTypeSum(t: Frame)
    requires !IsEmpty(t) && FraudColumn(t) in t.columns && TypeColumn(t) in t.columns
    ensures SumCounts(GetFraudByType(t)) == |Filter(FraudTypes(t), Known)|
  {
    GroupSizesSum(FraudTypes(t));
  }

  /** With no type missing among the fraud rows, the counts add up to all
      fraud rows. */
  lemma FraudByTypeCoversFrauds(t: Frame)
    requires !IsEmpty(t) && FraudColumn(t) in t.columns && TypeColumn(t) in t.columns
    requires forall row :: row in FraudRows(t) ==> Known(Get(row, TypeColumn(t)))
    ensures SumCounts(GetFraudByType(t)) == |FraudRows(t)|
  {
    FraudByTypeSum(t);
    KnownTypes(FraudRows(t), TypeColumn(t));
  }

  lemma KnownTypes(rows: seq<Row>, k: Key)
    requires forall row :: row in rows ==> Known(Get(row, k))
    ensures Filter(Column(rows, k), Known) == Column(rows, k)
  {
    var col := Column(rows, k);
    forall c | c in col ensures Known(c) {
      var i :| 0 <= i < |col| && col[i] == c;
      assert rows[i] in rows;
    }
    FilterKeepsAll(col, Known);
  }

  // ---------------------------------------------------------------------
  // Risk score
  // ---------------------------------------------------------------------

  /** Python's `str.upper` on ASCII letters. */
  function UpperChar(ch: char): char
  {
    if 'a' <= ch <= 'z' then (ch as int - 32) as char else ch
  }

  function Upper(s: string): (u: string)
    ensures |u| == |s|
    ensures forall i :: 0 <= i < |s| ==> u[i] == UpperChar(s[i])
  {
    if s == [] then [] else [UpperChar(s[0])] + Upper(s[1..])
  }

  /** `part` occurs in `s` from position `i` on. */
  predicate OccursAt(s: string, part: string, i: nat)
  {
    i + |part| <= |s| && s[i..i + |part|] == part
  }

  /** Python's `part in s` for texts. */
  predicate Contains(s: string, part: string)
  {
    exists i :: 0 <= i <= |s| && OccursAt(s, part, i)
  }

  /** The type names a transfer or a cash withdrawal, in any letter case. */
  predicate RiskyType(txType: string)
  {
    Contains(Upper(txType), "TRANSFER") || Contains(Upper(txType), "CASH_OUT")
  }

  /** The transaction empties an account that held money. */
  predicate Drains(amount: real, oldBal: real, newBal: real)
  {
    oldBal > 0.0 && newBal == 0.0 && amount > 0.0
  }

  /** The risk score in hundredths: 10, plus 50 above 1000, plus 30 for a
      risky type, plus 20 for an emptied account, capped at 99. */
  function Score(amount: real, txType: string, oldBal: real, newBal: real): (p: int)
    ensures 10 <= p <= 99
  {
    Min(10 + (if amount > 1000.0 then 50 else 0) + (if RiskyType(txType) then 30 else 0)
           + (if Drains(amount, oldBal, newBal) then 20 else 0), 99)
  }

  /** Only seven scores occur, and none lies within 0.1 of the 0.7 threshold,
      so the float sums of the service land on the same side as these. */
  lemma ScoreValues(amount: real, txType: string, oldBal: real, newBal: real)
    ensures Score(amount, txType, oldBal, newBal) in {10, 30, 40, 60, 80, 90, 99}
    ensures Score(amount, txType, oldBal, newBal) <= 60 || Score(amount, txType, oldBal, newBal) >= 80
  {
  }

  /** A transaction is fraud exactly when it is above 1000 and is also of a
      risky type or empties the account. */
  lemma FraudRule(amount: real, txType: string, oldBal: real, newBal: real)
    ensures Score(amount, txType, oldBal, newBal) > 70 <==>
              amount > 1000.0 && (RiskyType(txType) || Drains(amount, oldBal, newBal))
  {
  }

  /** A large amount alone scores 0.6, which is not fraud. */
  lemma LargeAmountAlone(amount: real, txType: string, oldBal: real, newBal: real)
    requires amount > 1000.0 && !RiskyType(txType) && !Drains(amount, oldBal, newBal)
    ensures Score(amount, txType, oldBal, newBal) == 60
  {
  }

  /** With the default balances of 0 the account rule never fires, so only a
      large transfer or cash withdrawal is fraud. */
  lemma DefaultBalances(amount: real, txType: string)
    ensures Score(amount, txType, 0.0, 0.0) > 70 <==> amount > 1000.0 && RiskyType(txType)
  {
  }

  datatype Prediction = Prediction(isFraud: bool, probability: real, riskLevel: string)

  /** `predict_fraud(amount, tx_type, old_bal, new_bal)`: the score built
      rule by rule; fraud above 0.7. */
  method PredictFraud(amount: real, txType: string, oldBal: real, newBal: real) returns (r: Prediction)
    ensures r.probability == Score(amount, txType, oldBal, newBal) as real / 100.0
    ensures 0.1 <= r.probability <= 0.99
    ensures r.isFraud <==> amount > 1000.0 && (RiskyType(txType) || Drains(amount, oldBal, newBal))
    ensures r.riskLevel == (if r.isFraud then "High" else "Low")
  {
    var prob := 10;
    if amount > 1000.0 {
      prob := prob + 50;
    }
    if Contains(Upper(txType), "TRANSFER") || Contains(Upper(txType), "CASH_OUT") {
      prob := prob + 30;
    }
    if oldBal > 0.0 && newBal == 0.0 && amount > 0.0 {
      prob := prob + 20;
    }
    prob := Min(prob, 99);
    var isFraud := prob > 70;
    FraudRule(amount, txType, oldBal, newBal);
    r := Prediction(isFraud, prob as real / 100.0, if isFraud then "High" else "Low");
  }
}
