/** The CSV import format: `;`-separated cells under a header line, the three
    required fields, and the conversion of a parsed row into the record the
    store receives. */
module CsvParser {
  import opened Wrappers
  import opened JsStrings
  import opened Sequences

  /** A parsed row: the trimmed header names mapped to the trimmed cells. A
      column missing from the header is missing from the map (`undefined`). */
  type CsvRecord = map<string, string>

  /** The lines of the trimmed text; the first is the header line. */
  function Lines(text: string): (lines: seq<string>)
    ensures |lines| >= 1
  {
    Split(Trim(text), '\n')
  }

  function Cells(line: string): seq<string> {
    Split(line, ';')
  }

  function Headers(text: string): seq<string> {
    Cells(Lines(text)[0])
  }

  /** The row built from the header names and the cells of one line, header
      by header: a later header of the same trimmed name overwrites an
      earlier one. */
  function RecordOf(headers: seq<string>, values: seq<string>): CsvRecord
    requires |headers| == |values|
  {
    if headers == [] then map[]
    else
      RecordOf(headers[..|headers| - 1], values[..|values| - 1])
        [Trim(headers[|headers| - 1]) := Trim(values[|values| - 1])]
  }

  /** The rows of the data lines, in line order; a line whose cell count
      differs from the header's gives no row. */
  function Rows(headers: seq<string>, lines: seq<string>): seq<CsvRecord> {
    if lines == [] then []
    else
      Rows(headers, lines[..|lines| - 1]) + RowOf(headers, lines[|lines| - 1])
  }

  /** The row of one data line, if its cell count matches the header's. */
  function RowOf(headers: seq<string>, line: string): (r: seq<CsvRecord>)
    ensures |r| <= 1 && (r != [] <==> |Cells(line)| == |headers|)
  {
    if |Cells(line)| == |headers| then [RecordOf(headers, Cells(line))] else []
  }

  /** What `parseCSV` returns for a text. */
  function ParsedRecords(text: string): seq<CsvRecord> {
    Rows(Headers(text), Lines(text)[1..])
  }

  /** The keys of a row are the trimmed header names. */
  lemma {:induction false} RecordOfKeys(headers: seq<string>, values: seq<string>)
    requires |headers| == |values|
    ensures RecordOf(headers, values).Keys == set k | 0 <= k < |headers| :: Trim(headers[k])
  {
    if headers != [] {
      var n := |headers| - 1;
      RecordOfKeys(headers[..n], values[..n]);
      assert forall k :: 0 <= k < n ==> headers[..n][k] == headers[k];
    }
  }

  /** A header name maps to the trimmed cell in its own column, unless a
      later column has the same trimmed name. */
  lemma {:induction false} RecordOfCell(headers: seq<string>, values: seq<string>, k: nat)
    requires |headers| == |values| && k < |headers|
    requires forall j :: k < j < |headers| ==> Trim(headers[j]) != Trim(headers[k])
    ensures Trim(headers[k]) in RecordOf(headers, values)
    ensures RecordOf(headers, values)[Trim(headers[k])] == Trim(values[k])
    decreases |headers|
  {
    var n := |headers| - 1;
    if k < n {
      RecordOfCell(headers[..n], values[..n], k);
    }
  }

  /** Parsing line by line: the rows of two runs of lines are the rows of
      the first followed by those of the second. */
  lemma {:induction false} RowsAppend(headers: seq<string>, a: seq<string>, b: seq<string>)
    ensures Rows(headers, a + b) == Rows(headers, a) + Rows(headers, b)
    decreases |b|
  {
    if b == [] {
      assert a + b == a;
    } else {
      var n := |b| - 1;
      RowsAppend(headers, a, b[..n]);
      assert Rows(headers, a + b) == Rows(headers, a + b[..n]) + RowOf(headers, b[n]) by {
        assert (a + b)[..|a + b| - 1] == a + b[..n] && (a + b)[|a + b| - 1] == b[n];
      }
      assert Rows(headers, b) == Rows(headers, b[..n]) + RowOf(headers, b[n]);
      AppendAssoc(Rows(headers, a), Rows(headers, b[..n]), RowOf(headers, b[n]));
    }
  }

  /** One line gives one row exactly when its cell count matches the
      header's. */
  lemma RowsOfOneLine(headers: seq<string>, line: string)
    ensures |Rows(headers, [line])| <= 1
    ensures Rows(headers, [line]) != [] <==> |Cells(line)| == |headers|
    ensures Rows(headers, [line]) != [] ==> Rows(headers, [line])[0] == RecordOf(headers, Cells(line))
  {
    assert [line][..0] == [];
  }

  /** At most one row per line, and one row per line exactly when every line
      has the header's cell count. */
  lemma {:induction false} RowsCount(headers: seq<string>, lines: seq<string>)
    ensures |Rows(headers, lines)| <= |lines|
    ensures |Rows(headers, lines)| == |lines| <==> forall i :: 0 <= i < |lines| ==> |Cells(lines[i])| == |headers|
  {
    if lines != [] {
      var n := |lines| - 1;
      var init := lines[..n];
      RowsCount(headers, init);
      assert Rows(headers, lines) == Rows(headers, init) + RowOf(headers, lines[n]);
      assert forall i :: 0 <= i < n ==> init[i] == lines[i];
    }
  }

  /** A data line written as `;`-joined cells, as many as there are headers
      and none holding a `;`, is read back as the row of those cells. */
  lemma LineOfCells(headers: seq<string>, cells: seq<string>)
    requires |cells| == |headers| >= 1
    requires forall i :: 0 <= i < |cells| ==> ';' !in cells[i]
    ensures Rows(headers, [Join(cells, ";")]) == [RecordOf(headers, cells)]
  {
    SplitJoin(cells, ';');
    RowsOfOneLine(headers, Join(cells, ";"));
  }

  /** A blank file has no rows: its only line is the empty header line. */
  lemma BlankTextHasNoRows(text: string)
    requires AllWhitespace(text)
    ensures ParsedRecords(text) == []
  {
    TrimFacts(text);
  }

  /** `parseCSV`: split the trimmed text into lines and the first line into
      header names, then build a row from each following line that has as
      many cells as the header. */
  method ParseCSV(csvText: string) returns (records: seq<CsvRecord>)
    ensures records == ParsedRecords(csvText)
    ensures |records| <= |Lines(csvText)| - 1
  {
    var lines := Split(Trim(csvText), '\n');
    var headers := Split(lines[0], ';');
    ghost var data := lines[1..];
    records := [];
    var i := 1;
    while i < |lines|
      invariant 1 <= i <= |lines|
      invariant records == Rows(headers, data[..i - 1])
    {
      assert data[..i][..i - 1] == data[..i - 1] && data[i - 1] == lines[i];
      assert Rows(headers, data[..i]) == Rows(headers, data[..i - 1]) + RowOf(headers, lines[i]);
      var values := Split(lines[i], ';');
      assert values == Cells(lines[i]);
      if |values| != |headers| {
        assert RowOf(headers, lines[i]) == [];
        assert Rows(headers, data[..i]) == records + [];
        i := i + 1;
        continue;
      }
      var record := BuildRecord(headers, values);
      assert RowOf(headers, lines[i]) == [record];
      records := records + [record];
      i := i + 1;
    }
    assert data[..i - 1] == data;
    RowsCount(headers, data);
  }

  /** The `forEach` over the header names that fills one row. */
  method BuildRecord(headers: seq<string>, values: seq<string>) returns (record: CsvRecord)
    requires |headers| == |values|
    ensures record == RecordOf(headers, values)
  {
    record := map[];
    var k := 0;
    while k < |headers|
      invariant 0 <= k <= |headers|
      invariant record == RecordOf(headers[..k], values[..k])
    {
      assert headers[..k + 1][..k] == headers[..k];
      assert values[..k + 1][..k] == values[..k];
      record := record[Trim(headers[k]) := Trim(values[k])];
      k := k + 1;
    }
    assert headers[..k] == headers && values[..k] == values;
  }

  /** A column's value, `undefined` when the header has no such column. */
  function Field(r: CsvRecord, column: string): Option<string> {
    if column in r then Some(r[column]) else None
  }

  /** `!record.X?.trim()`: the column is missing or blank. */
  predicate Missing(r: CsvRecord, column: string) {
    column !in r || Trim(r[column]) == ""
  }

  const PropertyIdRequired := "Property ID is required"
  const OwnerNameRequired := "Owner name is required"
  const PropertyTypeRequired := "Property type is required"

  /** The position of a message in the order the validator checks. */
  function MessageRank(m: string): nat {
    if m == PropertyIdRequired then 0
    else if m == OwnerNameRequired then 1
    else if m == PropertyTypeRequired then 2
    else 3
  }

  /** The messages `validateCSVRecord` returns for a row. */
  function RequiredFieldErrors(r: CsvRecord): seq<string> {
    (if Missing(r, "PROPERTY_ID") then [PropertyIdRequired] else [])
    + (if Missing(r, "OWNER_NAME") then [OwnerNameRequired] else [])
    + (if Missing(r, "PROPERTY_TYPE") then [PropertyTypeRequired] else [])
  }

  /** Each message is reported exactly when its field is missing or blank,
      in the fixed order property ID, owner name, property type; a row
      passes exactly when all three are present. */
  lemma RequiredFieldErrorsFacts(r: CsvRecord)
    ensures var errs := RequiredFieldErrors(r);
      && (PropertyIdRequired in errs <==> Missing(r, "PROPERTY_ID"))
      && (OwnerNameRequired in errs <==> Missing(r, "OWNER_NAME"))
      && (PropertyTypeRequired in errs <==> Missing(r, "PROPERTY_TYPE"))
      && (errs == [] <==> !Missing(r, "PROPERTY_ID") && !Missing(r, "OWNER_NAME") && !Missing(r, "PROPERTY_TYPE"))
      && (forall i, j :: 0 <= i < j < |errs| ==> MessageRank(errs[i]) < MessageRank(errs[j]))
      && |errs| <= 3
  {
  }

  /** `validateCSVRecord`: push one message per missing required field. */
  method ValidateCSVRecord(record: CsvRecord) returns (errors: seq<string>)
    ensures errors == RequiredFieldErrors(record)
    ensures |errors| <= 3 && forall m :: m in errors ==> MessageRank(m) < 3
  {
    errors := [];
    if Missing(record, "PROPERTY_ID") {
      errors := errors + [PropertyIdRequired];
    }
    if Missing(record, "OWNER_NAME") {
      errors := errors + [OwnerNameRequired];
    }
    if Missing(record, "PROPERTY_TYPE") {
      errors := errors + [PropertyTypeRequired];
    }
  }

  predicate IsCountChar(c: char) {
    IsDigit(c) || c == '-'
  }

  predicate IsAmountChar(c: char) {
    IsDigit(c) || c == '.' || c == '-'
  }

  /** `Number(t)` for a text of digits and minus signs, `NaN` read as 0: the
      empty text is 0, an optionally negated run of digits is its value,
      anything else (`"-"`, `"1-2"`, `"--1"`) is not a number. */
  function CountOfCleaned(t: string): int {
    if t == [] then 0
    else if AllDigits(t) then DigitsValue(t)
    else if t[0] == '-' && |t| >= 2 && AllDigits(t[1..]) then -(DigitsValue(t[1..]) as int)
    else 0
  }

  /** The inner `parseInt` of the conversion: drop every character but
      digits and `-`, then read the rest as a number. */
  function ParseCount(value: string): int {
    CountOfCleaned(Retain(value, IsCountChar))
  }

  /** The decimal text of a count reads back as that count, negated or not. */
  lemma ParseCountOfDecimal(n: nat)
    ensures ParseCount(NatToString(n)) == n
    ensures ParseCount("-" + NatToString(n)) == -(n as int)
  {
    var s := NatToString(n);
    DigitsValueOfNatToString(n);
    RetainKeepsAll(s, IsCountChar);
    RetainKeepsAll("-" + s, IsCountChar);
    assert ("-" + s)[1..] == s;
  }

  /** Characters other than digits and `-` make no difference: a count
      written `"1,234"` or `" 12 claims"` reads as its digits. */
  lemma ParseCountIgnoresOtherChars(a: string, b: string)
    requires forall i :: 0 <= i < |b| ==> !IsCountChar(b[i])
    ensures ParseCount(a + b) == ParseCount(a) && ParseCount(b + a) == ParseCount(a)
  {
    RetainAppend(a, b, IsCountChar);
    RetainAppend(b, a, IsCountChar);
    RetainNone(b, IsCountChar);
    assert Retain(a, IsCountChar) + [] == Retain(a, IsCountChar);
    assert [] + Retain(a, IsCountChar) == Retain(a, IsCountChar);
  }

  lemma {:induction false} RetainNone(s: string, keep: char -> bool)
    requires forall i :: 0 <= i < |s| ==> !keep(s[i])
    ensures Retain(s, keep) == []
  {
    if s != [] {
      RetainNone(s[1..], keep);
    }
  }

  /** A cleaned text without any digit, such as the empty text or a lone
      `-`, is not a number or is empty, and reads as 0. */
  lemma NoDigitsReadsZero(t: string)
    requires forall i :: 0 <= i < |t| ==> !IsDigit(t[i])
    ensures CountOfCleaned(t) == 0
    ensures ParseCount("-") == 0 && ParseCount("") == 0
  {
    if t != [] {
      assert !AllDigits(t) by { assert !IsDigit(t[0]); }
      if |t| >= 2 {
        assert !AllDigits(t[1..]) by { assert t[1..][0] == t[1]; }
      }
    }
    assert Retain("-", IsCountChar) == "-" by {
      assert "-"[1..] == "";
    }
    assert !IsDigit('-');
  }

  /** A minus sign after the first kept character makes the text not a
      number, read as 0. */
  lemma InnerMinusReadsZero(t: string, i: nat)
    requires 0 < i < |t| && t[i] == '-'
    ensures CountOfCleaned(t) == 0
  {
    assert !IsDigit(t[i]);
    assert t[1..][i - 1] == '-';
  }

  /** A decimal amount as the store receives it: `parseFloat` of the text
      left after dropping every character but digits, `.` and `-`. Only that
      text is modelled; the floating-point value is not. */
  datatype Amount = ParsedDecimal(cleaned: string)

  function ParseAmount(value: string): (a: Amount)
    ensures forall i :: 0 <= i < |a.cleaned| ==> IsAmountChar(a.cleaned[i])
  {
    ParsedDecimal(Retain(value, IsAmountChar))
  }

  /** The record the store receives for a row. String columns are copied as
      they are (`None` for a column the file did not have). */
  datatype DbRecord = DbRecord(
    propertyId: Option<string>,
    propertyType: Option<string>,
    cashReported: Amount,
    sharesReported: Amount,
    nameOfSecuritiesReported: Option<string>,
    noOfOwners: Option<string>,
    ownerName: Option<string>,
    ownerStreet1: Option<string>,
    ownerStreet2: Option<string>,
    ownerStreet3: Option<string>,
    ownerCity: Option<string>,
    ownerState: Option<string>,
    ownerZip: Option<string>,
    ownerCountryCode: Option<string>,
    currentCashBalance: Amount,
    numberOfPendingClaims: int,
    numberOfPaidClaims: int,
    holderName: Option<string>,
    holderStreet1: Option<string>,
    holderStreet2: Option<string>,
    holderStreet3: Option<string>,
    holderCity: Option<string>,
    holderState: Option<string>,
    holderZip: Option<string>,
    cusip: Option<string>)

  /** The columns the conversion parses; reading one that is missing throws
      a `TypeError`. */
  const NumericColumns: set<string> :=
    {"CASH_REPORTED", "SHARES_REPORTED", "CURRENT_CASH_BALANCE",
     "NUMBER_OF_PENDING_CLAIMS", "NUMBER_OF_PAID_CLAIMS"}

  /** The row has every column the conversion parses as a number. */
  predicate HasNumericColumns(r: CsvRecord) {
    NumericColumns <= r.Keys
  }

  /** `convertCSVRecordToDBRecord`; `None` when it throws because a parsed
      column is missing. */
  function ConvertCSVRecordToDBRecord(r: CsvRecord): (d: Option<DbRecord>)
    ensures d.Some? <==> HasNumericColumns(r)
  {
    if HasNumericColumns(r) then
      Some(DbRecord(
        Field(r, "PROPERTY_ID"), Field(r, "PROPERTY_TYPE"),
        ParseAmount(r["CASH_REPORTED"]), ParseAmount(r["SHARES_REPORTED"]),
        Field(r, "NAME_OF_SECURITIES_REPORTED"), Field(r, "NO_OF_OWNERS"),
        Field(r, "OWNER_NAME"), Field(r, "OWNER_STREET_1"), Field(r, "OWNER_STREET_2"),
        Field(r, "OWNER_STREET_3"), Field(r, "OWNER_CITY"), Field(r, "OWNER_STATE"),
        Field(r, "OWNER_ZIP"), Field(r, "OWNER_COUNTRY_CODE"),
        ParseAmount(r["CURRENT_CASH_BALANCE"]),
        ParseCount(r["NUMBER_OF_PENDING_CLAIMS"]), ParseCount(r["NUMBER_OF_PAID_CLAIMS"]),
        Field(r, "HOLDER_NAME"), Field(r, "HOLDER_STREET_1"), Field(r, "HOLDER_STREET_2"),
        Field(r, "HOLDER_STREET_3"), Field(r, "HOLDER_CITY"), Field(r, "HOLDER_STATE"),
        Field(r, "HOLDER_ZIP"), Field(r, "CUSIP")))
    else None
  }

  /** A row that passed validation keeps its identifying fields: the
      converted record carries the same property ID, owner name and type,
      none of them blank. */
  lemma ConvertKeepsRequiredFields(r: CsvRecord)
    requires RequiredFieldErrors(r) == [] && HasNumericColumns(r)
    ensures var d := ConvertCSVRecordToDBRecord(r).value;
      && d.propertyId == Some(r["PROPERTY_ID"]) && Trim(r["PROPERTY_ID"]) != ""
      && d.ownerName == Some(r["OWNER_NAME"]) && Trim(r["OWNER_NAME"]) != ""
      && d.propertyType == Some(r["PROPERTY_TYPE"]) && Trim(r["PROPERTY_TYPE"]) != ""
  {
    RequiredFieldErrorsFacts(r);
  }
}
