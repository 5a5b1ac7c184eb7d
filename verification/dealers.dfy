/**
 * The dealer import of main.py and mainWithRadar.py: a headerless sheet
 * whose first 24 columns are named by position, converted column by
 * column, and turned into 25-element tuples (a fresh id first) for the
 * `dealers` table. The two scripts share this schema. The tuples built
 * here use mainWithRadar.py's phone rule and the corrected coordinates
 * (`None` for a missing one); main.py's phone as written is
 * `PhoneAsWritten`, and the column pandas actually builds for the
 * coordinates is `Records.ApplyFloatColumn`.
 */
module Dealers {
  import opened Wrappers
  import opened PyText
  import opened Clean
  import opened Records
  import opened Frame
  import Sql

  const TargetTable: string := "dealers"

  const TargetColumns: seq<string> := [
    "id", "user_id", "type", "parent_dealer_id", "name", "region", "area", "phone_no",
    "address", "total_potential", "best_potential", "brand_selling", "feedbacks",
    "remarks", "pinCode", "dateOfBirth", "anniversaryDate", "latitude", "longitude",
    "verification_status", "business_type", "nameOfFirm", "underSalesPromoterName",
    "gstin_no", "pan_no"
  ]

  const ExpectedColumns: nat := |TargetColumns|

  /** Rows skipped at the top of the sheet before the data starts. */
  const StartRowToSkip: nat := 1

  /** The labels given, by position, to the first 24 columns of the sheet. */
  const SheetColumns: seq<string> := [
    "user_id", "type", "parent_dealer_id", "name", "region", "area", "phone_no",
    "address", "total_potential", "best_potential", "brand_selling", "feedbacks",
    "remarks", "pinCode", "dateOfBirth", "anniversaryDate", "latitude", "longitude",
    "verificationStatus", "business_type", "nameOfFirm", "underSalesPromoterName",
    "gstin_no", "pan_no"
  ]

  const NumericColumns: seq<string> := ["user_id", "total_potential", "best_potential"]
  const FloatColumns: seq<string> := ["latitude", "longitude"]
  const DateColumns: seq<string> := ["dateOfBirth", "anniversaryDate"]
  const StringColumns: seq<string> := [
    "type", "parent_dealer_id", "name", "region", "area", "address", "feedbacks", "remarks",
    "pinCode", "verificationStatus", "business_type", "nameOfFirm",
    "underSalesPromoterName", "gstin_no", "pan_no"
  ]

  /** How a sheet column is converted before the tuple is built. */
  datatype Kind = IntKind | CoordKind | PhoneKind | DateKind | TextKind | BrandKind

  /** Positions in `SheetColumns` of the names each conversion list holds. */
  const NumericAt: seq<nat> := [0, 8, 9]
  const FloatAt: seq<nat> := [16, 17]
  const DateAt: seq<nat> := [14, 15]
  const StringAt: seq<nat> := [1, 2, 3, 4, 5, 7, 11, 12, 13, 18, 19, 20, 21, 22, 23]
  const PhoneAt: nat := 6
  const BrandAt: nat := 10

  /** Where each conversion list's names sit among the 24 distinct sheet labels. */
  lemma ColumnListsAtPositions()
    ensures Distinct(SheetColumns)
    ensures ListedAt(NumericColumns, SheetColumns, NumericAt)
    ensures ListedAt(FloatColumns, SheetColumns, FloatAt)
    ensures ListedAt(DateColumns, SheetColumns, DateAt)
    ensures ListedAt(StringColumns, SheetColumns, StringAt)
    ensures SheetColumns[PhoneAt] == "phone_no" && SheetColumns[BrandAt] == "brand_selling"
  {
    SheetColumnsDistinct();
    NumericListed();
    FloatAndDateListed();
    StringListed();
  }

  lemma SheetColumnsDistinct()
    ensures Distinct(SheetColumns)
  {
    SheetColumnKeys();
    DistinctByKey(SheetColumns);
  }

  /** The labels' fingerprints differ pairwise (checked block by block). */
  lemma SheetColumnKeys()
    ensures forall i, j :: 0 <= i < j < |SheetColumns| ==> LabelKey(SheetColumns[i]) != LabelKey(SheetColumns[j])
  {
    SheetKeysBlock0();
    SheetKeysBlock1();
    SheetKeysBlock2();
  }

  lemma SheetKeysBlock0()
    ensures forall i, j :: 0 <= i < 12 && 0 <= j < 12 && i < j ==> LabelKey(SheetColumns[i]) != LabelKey(SheetColumns[j])
  {
  }

  lemma SheetKeysBlock1()
    ensures forall i, j :: 0 <= i < 12 && 12 <= j < 24 && i < j ==> LabelKey(SheetColumns[i]) != LabelKey(SheetColumns[j])
  {
  }

  lemma SheetKeysBlock2()
    ensures forall i, j :: 12 <= i < 24 && 12 <= j < 24 && i < j ==> LabelKey(SheetColumns[i]) != LabelKey(SheetColumns[j])
  {
  }

  lemma NumericListed()
    ensures ListedAt(NumericColumns, SheetColumns, NumericAt)
  {
  }

  lemma FloatAndDateListed()
    ensures ListedAt(FloatColumns, SheetColumns, FloatAt)
    ensures ListedAt(DateColumns, SheetColumns, DateAt)
  {
  }

  lemma StringListed()
    ensures ListedAt(StringColumns, SheetColumns, StringAt)
  {
  }

  /** The conversion lists a column appears in (phone and brand are handled by name). */
  function KindsOf(name: string): set<Kind> {
    (if name in NumericColumns then {IntKind} else {})
    + (if name in FloatColumns then {CoordKind} else {})
    + (if name == "phone_no" then {PhoneKind} else {})
    + (if name in DateColumns then {DateKind} else {})
    + (if name in StringColumns then {TextKind} else {})
    + (if name == "brand_selling" then {BrandKind} else {})
  }

  /** The conversion of the column at position `j`, read off the position lists. */
  function KindAt(j: nat): Kind {
    if j in NumericAt then IntKind
    else if j in FloatAt then CoordKind
    else if j == PhoneAt then PhoneKind
    else if j in DateAt then DateKind
    else if j == BrandAt then BrandKind
    else TextKind
  }

  /** The conversion lists position `j` appears in. */
  function PositionKinds(j: nat): set<Kind> {
    (if j in NumericAt then {IntKind} else {})
    + (if j in FloatAt then {CoordKind} else {})
    + (if j == PhoneAt then {PhoneKind} else {})
    + (if j in DateAt then {DateKind} else {})
    + (if j in StringAt then {TextKind} else {})
    + (if j == BrandAt then {BrandKind} else {})
  }

  /** Every position below 24 is in exactly one list. */
  lemma PositionKindsSingleton(j: nat)
    requires j < 24
    ensures PositionKinds(j) == {KindAt(j)}
  {
    if j in NumericAt {
      assert j !in FloatAt && j !in DateAt && j !in StringAt && j != PhoneAt && j != BrandAt;
    } else if j in FloatAt {
      assert j !in DateAt && j !in StringAt && j != PhoneAt && j != BrandAt;
    } else if j in DateAt {
      assert j !in StringAt && j != PhoneAt && j != BrandAt;
    } else if j == PhoneAt || j == BrandAt {
      assert j !in StringAt;
    } else {
      assert j in StringAt;
    }
  }

  lemma KindsOfAt(j: nat)
    requires j < |SheetColumns|
    ensures KindsOf(SheetColumns[j]) == PositionKinds(j)
  {
    ColumnListsAtPositions();
    MemberByPosition(SheetColumns, NumericColumns, NumericAt, j);
    MemberByPosition(SheetColumns, FloatColumns, FloatAt, j);
    MemberByPosition(SheetColumns, DateColumns, DateAt, j);
    MemberByPosition(SheetColumns, StringColumns, StringAt, j);
    assert SheetColumns[j] == "phone_no" <==> j == PhoneAt;
    assert SheetColumns[j] == "brand_selling" <==> j == BrandAt;
  }

  /**
   * The conversion lists partition the sheet's columns: each of the 24
   * named columns is converted in exactly one way.
   */
  lemma ConversionsPartitionColumns(j: nat)
    requires j < |SheetColumns|
    ensures KindsOf(SheetColumns[j]) == {KindAt(j)}
  {
    KindsOfAt(j);
    PositionKindsSingleton(j);
  }

  /** The conversion of a sheet column, chosen by its name as the script does. */
  function KindOf(name: string): Kind {
    if name in NumericColumns then IntKind
    else if name in FloatColumns then CoordKind
    else if name == "phone_no" then PhoneKind
    else if name in DateColumns then DateKind
    else if name == "brand_selling" then BrandKind
    else TextKind
  }

  /** Choosing by name agrees with the position lists; a `TextKind` column is one `string_cols` names. */
  lemma KindOfAt(j: nat)
    requires j < |SheetColumns|
    ensures KindOf(SheetColumns[j]) == KindAt(j)
    ensures KindAt(j) == TextKind ==> SheetColumns[j] in StringColumns
  {
    ConversionsPartitionColumns(j);
    var name := SheetColumns[j];
    assert name in NumericColumns <==> IntKind in KindsOf(name);
    assert name in FloatColumns <==> CoordKind in KindsOf(name);
    assert name == "phone_no" <==> PhoneKind in KindsOf(name);
    assert name in DateColumns <==> DateKind in KindsOf(name);
    assert name == "brand_selling" <==> BrandKind in KindsOf(name);
    assert name in StringColumns <==> TextKind in KindsOf(name);
  }

  /** The database name of a sheet label: only `verificationStatus` differs. */
  function DbName(name: string): string {
    if name == "verificationStatus" then "verification_status" else name
  }

  /** The tuple is the id followed by the 24 sheet columns in order, which is `TARGET_COLUMNS`. */
  lemma TupleOrderIsTargetOrder()
    ensures ExpectedColumns == 25 && |SheetColumns| + 1 == ExpectedColumns
    ensures TargetColumns[0] == "id"
    ensures forall j :: 0 <= j < |SheetColumns| ==> TargetColumns[j + 1] == DbName(SheetColumns[j])
  {
    TargetNamesFrom0();
    TargetNamesFrom12();
  }

  lemma TargetNamesFrom0()
    ensures forall j :: 0 <= j < 12 ==> TargetColumns[j + 1] == DbName(SheetColumns[j])
  {
  }

  lemma TargetNamesFrom12()
    ensures forall j :: 12 <= j < 24 ==> TargetColumns[j + 1] == DbName(SheetColumns[j])
  {
  }

  /**
   * The library conversions the scripts call, `pd.to_numeric(errors='coerce')`
   * and `pd.to_datetime(errors='coerce')`, taken here as reading each cell's
   * text on its own, `None` where they give NaN or NaT.
   */
  datatype Parsers = Parsers(number: string -> Option<real>, date: string -> Option<Date>)

  function ParseNumber(c: Cell, p: Parsers): Option<real> {
    match c
    case Missing => None
    case Text(s) => p.number(s)
  }

  function ParseDate(c: Cell, p: Parsers): Option<Date> {
    match c
    case Missing => None
    case Text(s) => p.date(s)
  }

  /**
   * main.py's phone column as written: `astype(str)` first turns a missing
   * cell into the text "nan", so the later `fillna('')` finds nothing to
   * fill; the text is not trimmed, and `\.0$` also matches before a final
   * newline.
   */
  function PhoneAsWritten(c: Cell): (r: string)
    ensures c.Text? ==> r == RegexDropDotZero(c.text)
    ensures c.Missing? ==> r == "nan"
  {
    match c
    case Missing => "nan"
    case Text(s) => RegexDropDotZero(s)
  }

  /** A missing phone number reaches the database as the text "nan". */
  lemma MissingPhoneBecomesNan()
    ensures PhoneAsWritten(Missing) == "nan"
    ensures PhoneText(Missing) == ""
  {
  }

  /**
   * The phone column as mainWithRadar.py builds it, `clean_value` then
   * `fillna('')`: always a string, empty exactly when `clean_value` gives
   * `None` or the empty string, otherwise the cleaned number.
   */
  function PhoneText(c: Cell): (r: string)
    ensures c.Missing? ==> r == ""
    ensures CleanValue(c).None? ==> r == ""
    ensures CleanValue(c).Some? ==> r == CleanValue(c).value
  {
    CleanValue(c).GetOr("")
  }

  /**
   * A latitude column holding one number and one blank cell: the blank
   * row's latitude is NaN, not `None`, so `latitude is None` is false for
   * it and the geofence request is sent with a NaN coordinate.
   */
  lemma MissingCoordinateBecomesNaN(p: Parsers)
    requires p.number("12.5") == Some(12.5)
    ensures var column := [Text("12.5"), Missing];
      ApplyFloatColumn(seq(2, i requires 0 <= i < 2 => ParseNumber(column[i], p)))[1] == NaN
  {
    var column := [Text("12.5"), Missing];
    var parsed := seq(2, i requires 0 <= i < 2 => ParseNumber(column[i], p));
    assert parsed[0].Some? && parsed[1].None?;
  }

  /**
   * The corrected coordinate, which the lambda's `None` evidently intends:
   * `None` exactly when the cell is missing or `to_numeric` cannot read
   * it, whatever the other rows hold.
   */
  function CoordinateValue(c: Cell, p: Parsers): (v: Value)
    ensures v == Null <==> ParseNumber(c, p).None?
    ensures c.Missing? ==> v == Null
    ensures v != Null ==> v == Num(ParseNumber(c, p).value)
  {
    OptNum(ParseNumber(c, p))
  }

  /** The per-cell results `to_numeric` gives a column before `apply`. */
  function ParsedColumn(cells: seq<Cell>, p: Parsers): (r: seq<Option<real>>)
    ensures |r| == |cells|
    ensures forall i :: 0 <= i < |cells| ==> r[i] == ParseNumber(cells[i], p)
  {
    seq(|cells|, i requires 0 <= i < |cells| => ParseNumber(cells[i], p))
  }

  /**
   * The corrected coordinates and the column pandas builds differ only in
   * how a missing value is written: row by row, the corrected value is
   * `None` exactly where pandas holds NaN or `None`, and the same number
   * everywhere else.
   */
  lemma CoordinateValueVersusColumn(cells: seq<Cell>, p: Parsers, i: nat)
    requires i < |cells|
    ensures var column := ApplyFloatColumn(ParsedColumn(cells, p));
      && (CoordinateValue(cells[i], p) == Null <==> !column[i].Finite?)
      && (column[i].Finite? ==> CoordinateValue(cells[i], p) == Num(column[i].x))
  {
    var parsed := ParsedColumn(cells, p);
    var column := ApplyFloatColumn(parsed);
    if parsed[i].None? {
      if exists k :: 0 <= k < |parsed| && parsed[k].Some? {
        assert column[i] == NaN;
      } else {
        assert column[i] == PyNone;
      }
    }
  }

  /**
   * What each conversion makes of one cell: an integer for a numeric
   * column (0 for a missing one), a number or `None` for a coordinate,
   * always a string for the phone, a date or `None`, cleaned text or
   * `None`, and a one-element list or `None` for the brand.
   */
  function Convert(k: Kind, c: Cell, p: Parsers): (v: Value)
    ensures k == IntKind ==> v.Int? && (c.Missing? ==> v.n == 0)
    ensures k == CoordKind ==> v.Null? || v.Num?
    ensures k == PhoneKind ==> v.Str? && (c.Missing? ==> v.s == "")
    ensures k == DateKind ==> (v.Null? || v.Day?) && (c.Missing? ==> v.Null?)
    ensures k == TextKind ==> (v.Null? <==> CleanValue(c).None?)
    ensures k == TextKind && v.Str? ==> c.Text? && StartsWith(Strip(c.text), v.s)
    ensures k == BrandKind ==> v.Null? || (v.StrList? && |v.items| == 1)
    ensures k != PhoneKind && k != IntKind && c.Missing? ==> v.Null?
  {
    match k
    case IntKind => Int(IntOrZero(ParseNumber(c, p)))
    case CoordKind => CoordinateValue(c, p)
    case PhoneKind => Str(PhoneText(c))
    case DateKind =>
      (match ParseDate(c, p)
       case None => Null
       case Some(d) => Day(d))
    case TextKind =>
      CleanValueShape(c);
      OptStr(CleanValue(c))
    case BrandKind =>
      (match BrandSelling(c)
       case None => Null
       case Some(items) => StrList(items))
  }

  /**
   * The tuple for one data row: the generated id, then each of the 24
   * sheet columns converted the way its list says (`KindOfAt` shows the
   * position lists pick the same conversion as the names do), so that
   * position `j + 1` holds column `TargetColumns[j + 1]`.
   */
  function DealerRow(row: seq<Cell>, id: string, p: Parsers): (r: Record)
    ensures |r| == ExpectedColumns
    ensures r[0] == Str(id)
    ensures forall j :: 0 <= j < |SheetColumns| ==>
              r[j + 1] == Convert(KindAt(j), CellAt(row, j), p)
  {
    [Str(id)] + seq(|SheetColumns|, j requires 0 <= j < |SheetColumns| =>
                      Convert(KindAt(j), CellAt(row, j), p))
  }

  /**
   * The typed shape of every dealer tuple, field by field: an int
   * `user_id` and potentials, a string phone number, a brand list of one
   * trimmed string or `None`, coordinates that are numbers or `None`, and
   * cleaned text or `None` in every string column.
   */
  lemma DealerRowShape(row: seq<Cell>, id: string, p: Parsers)
    ensures var r := DealerRow(row, id, p);
      && r[1] == Int(IntOrZero(ParseNumber(CellAt(row, 0), p)))
      && r[9].Int? && r[10].Int?
      && r[7] == Str(PhoneText(CellAt(row, 6)))
      && r[11] == (if BrandSelling(CellAt(row, 10)).None? then Null
                   else StrList([Strip(CellAt(row, 10).text)]))
      && r[17] == CoordinateValue(CellAt(row, 16), p)
      && r[18] == CoordinateValue(CellAt(row, 17), p)
      && (r[16].Null? || r[16].Day?)
  {
    NumericFields(row, id, p);
    PhoneField(row, id, p);
    BrandField(row, id, p);
    CoordinateAndDateFields(row, id, p);
  }

  lemma NumericFields(row: seq<Cell>, id: string, p: Parsers)
    ensures var r := DealerRow(row, id, p);
      r[1] == Int(IntOrZero(ParseNumber(CellAt(row, 0), p))) && r[9].Int? && r[10].Int?
  {
    assert KindAt(0) == IntKind && KindAt(8) == IntKind && KindAt(9) == IntKind;
  }

  lemma PhoneField(row: seq<Cell>, id: string, p: Parsers)
    ensures DealerRow(row, id, p)[7] == Str(PhoneText(CellAt(row, 6)))
  {
    assert KindAt(6) == PhoneKind;
  }

  lemma BrandField(row: seq<Cell>, id: string, p: Parsers)
    ensures DealerRow(row, id, p)[11] == (if BrandSelling(CellAt(row, 10)).None? then Null
                                          else StrList([Strip(CellAt(row, 10).text)]))
  {
    assert KindAt(10) == BrandKind;
  }

  lemma CoordinateAndDateFields(row: seq<Cell>, id: string, p: Parsers)
    ensures var r := DealerRow(row, id, p);
      && r[17] == CoordinateValue(CellAt(row, 16), p)
      && r[18] == CoordinateValue(CellAt(row, 17), p)
      && (r[16].Null? || r[16].Day?)
  {
    assert KindAt(15) == DateKind && KindAt(16) == CoordKind && KindAt(17) == CoordKind;
  }

  /** A position whose conversion is `clean_value` holds the cleaned text of its cell, or `None`. */
  lemma TextField(row: seq<Cell>, id: string, p: Parsers, j: nat)
    requires j < |SheetColumns| && KindAt(j) == TextKind
    ensures DealerRow(row, id, p)[j + 1] == OptStr(CleanValue(CellAt(row, j)))
  {
    var r := DealerRow(row, id, p);
    assert r[j + 1] == Convert(KindAt(j), CellAt(row, j), p);
  }

  /** The text fields the geofence code reads (name, region, area, status) are cleaned text or `None`. */
  lemma RadarTextFields(row: seq<Cell>, id: string, p: Parsers)
    ensures var r := DealerRow(row, id, p);
      && r[4] == OptStr(CleanValue(CellAt(row, 3)))
      && r[5] == OptStr(CleanValue(CellAt(row, 4)))
      && r[6] == OptStr(CleanValue(CellAt(row, 5)))
      && r[19] == OptStr(CleanValue(CellAt(row, 18)))
  {
    RadarTextPositions();
    TextField(row, id, p, 3);
    TextField(row, id, p, 4);
    TextField(row, id, p, 5);
    TextField(row, id, p, 18);
  }

  lemma RadarTextPositions()
    ensures KindAt(3) == TextKind && KindAt(4) == TextKind && KindAt(5) == TextKind && KindAt(18) == TextKind
  {
  }

  /** Every column `string_cols` names holds the `clean_value` result of its cell. */
  lemma DealerRowText(row: seq<Cell>, id: string, p: Parsers, j: nat)
    requires j < |SheetColumns| && SheetColumns[j] in StringColumns
    ensures DealerRow(row, id, p)[j + 1] == OptStr(CleanValue(CellAt(row, j)))
  {
    StringPosition(j);
    TextField(row, id, p, j);
  }

  /** A column `string_cols` names sits at a position of the string list. */
  lemma StringPosition(j: nat)
    requires j < |SheetColumns| && SheetColumns[j] in StringColumns
    ensures KindAt(j) == TextKind
  {
    SheetColumnsDistinct();
    StringListed();
    MemberByPosition(SheetColumns, StringColumns, StringAt, j);
    TextAtStringPosition(j);
  }

  lemma TextAtStringPosition(j: nat)
    requires j in StringAt
    ensures KindAt(j) == TextKind
  {
  }

  /**
   * The widest row. `read_excel` pads every row it reads to the widest
   * one before `skiprows` drops the top rows, so the frame's width is the
   * widest row of the whole sheet, skipped rows included.
   */
  function MaxWidth(rows: seq<seq<Cell>>): (w: nat)
    ensures forall i :: 0 <= i < |rows| ==> |rows[i]| <= w
    ensures rows != [] ==> exists i :: 0 <= i < |rows| && |rows[i]| == w
    ensures rows == [] ==> w == 0
  {
    if rows == [] then 0
    else
      var w := MaxWidth(rows[1..]);
      if |rows[0]| >= w then |rows[0]| else w
  }

  /**
   * The rows the reader keeps: it drops the trailing rows that hold no
   * cell (a row's trailing empty cells are already gone), and keeps every
   * row up to the last one with data, empty ones included.
   */
  function SheetRows(lines: seq<seq<Cell>>): (r: seq<seq<Cell>>)
    ensures |r| <= |lines| && r == lines[..|r|]
    ensures r == [] || r[|r| - 1] != []
    ensures forall i :: |r| <= i < |lines| ==> lines[i] == []
    decreases |lines|
  {
    if lines == [] then []
    else if lines[|lines| - 1] == [] then SheetRows(lines[..|lines| - 1])
    else lines
  }

  /** The data rows (`skiprows`): every kept row below the skipped top rows, in order. */
  function DataRows(lines: seq<seq<Cell>>): (r: seq<seq<Cell>>)
    ensures |SheetRows(lines)| <= StartRowToSkip ==> r == []
    ensures |SheetRows(lines)| > StartRowToSkip ==> |r| == |SheetRows(lines)| - StartRowToSkip
    ensures forall i :: 0 <= i < |r| ==> r[i] == lines[i + StartRowToSkip]
  {
    var kept := SheetRows(lines);
    if |kept| <= StartRowToSkip then [] else kept[StartRowToSkip..]
  }

  /**
   * `records_to_insert` for a sheet: a failure when the frame has fewer than
   * the 24 named columns (assigning `df.columns` raises), which is the case
   * when the sheet is narrower than 24 columns and also when no data row is
   * left below the skipped one (`read_excel` then gives an empty frame);
   * otherwise one tuple per data row, in row order, the i-th with id
   * `newId(i)`. The length gate drops none of them.
   */
  function DealerRecords(lines: seq<seq<Cell>>, p: Parsers, newId: nat -> string)
    : (r: Result<seq<Record>, FrameError>)
    ensures r.Failure? <==> DataRows(lines) == [] || MaxWidth(lines) < |SheetColumns|
    ensures r.Success? ==> |r.value| == |DataRows(lines)|
    ensures r.Success? ==> forall i :: 0 <= i < |r.value| ==>
              r.value[i] == DealerRow(DataRows(lines)[i], newId(i), p)
  {
    var data := DataRows(lines);
    var width := if data == [] then 0 else MaxWidth(lines);
    if width < |SheetColumns| then Failure(WidthMismatch(|SheetColumns|, width))
    else
      var tuples := DealerRows(data, p, newId);
      GateKeepsAll(tuples, ExpectedColumns);
      Success(Gate(tuples, ExpectedColumns))
  }

  function DealerRows(data: seq<seq<Cell>>, p: Parsers, newId: nat -> string): (r: seq<Record>)
    ensures |r| == |data|
    ensures forall i :: 0 <= i < |data| ==> r[i] == DealerRow(data[i], newId(i), p) && |r[i]| == ExpectedColumns
  {
    seq(|data|, i requires 0 <= i < |data| => DealerRow(data[i], newId(i), p))
  }

  /**
   * The header row sets the frame's width: a sheet whose header row has
   * all 24 cells and whose one data row has only its first cell still
   * gives one tuple, its other columns read as missing cells.
   */
  lemma HeaderRowSetsWidth(p: Parsers, newId: nat -> string)
    ensures var lines := [seq(24, _ => Text("h")), [Text("1")]];
      && DealerRecords(lines, p, newId).Success?
      && |DealerRecords(lines, p, newId).value| == 1
      && DealerRecords(lines, p, newId).value[0][7] == Str("")
  {
    var lines := [seq(24, _ => Text("h")), [Text("1")]];
    assert MaxWidth(lines[1..]) == 1;
    assert MaxWidth(lines) == 24;
    assert DataRows(lines) == [[Text("1")]];
    var r := DealerRow([Text("1")], newId(0), p);
    assert CellAt([Text("1")], 6) == Missing;
    assert r[7] == Convert(KindAt(6), Missing, p);
  }

  /**
   * Trailing empty rows are not data: a full header row over nothing but
   * an empty row leaves no data row, so the import fails, and an empty
   * row after a data row adds no tuple.
   */
  lemma TrailingEmptyRowsIgnored(p: Parsers, newId: nat -> string)
    ensures DealerRecords([seq(24, _ => Text("h")), []], p, newId).Failure?
    ensures var lines := [seq(24, _ => Text("h")), [Text("1")], []];
      DealerRecords(lines, p, newId).Success? && |DealerRecords(lines, p, newId).value| == 1
  {
    var empty := [seq(24, _ => Text("h")), []];
    assert SheetRows(empty[..1]) == empty[..1];
    assert DataRows(empty) == [];
    var lines := [seq(24, _ => Text("h")), [Text("1")], []];
    assert SheetRows(lines[..2]) == lines[..2];
    assert MaxWidth(lines[2..]) == 0;
    assert MaxWidth(lines[1..]) == 1;
    assert MaxWidth(lines) == 24;
    assert DataRows(lines) == [[Text("1")]];
  }

  /** The statement main.py and mainWithRadar.py execute. */
  function InsertQuery(): string {
    Sql.InsertQuery(Sql.OneLine, TargetTable, TargetColumns, ExpectedColumns)
  }

  /**
   * The statement lists all 25 target columns, double-quoted and in order,
   * and then exactly 25 placeholders, one per tuple element.
   */
  lemma InsertQueryMatchesTuples()
    ensures Sql.ParseInsert(Sql.OneLine, TargetTable, InsertQuery()) == Some((TargetColumns, ExpectedColumns))
    ensures ExpectedColumns == 25
  {
    ColumnsQuoteFree();
  }

  /** No target column contains a double quote (checked eight columns at a time). */
  lemma ColumnsQuoteFree()
    ensures Sql.NoQuotes(TargetColumns)
  {
    QuoteFree0To8();
    QuoteFree8To16();
    QuoteFree16To24();
    QuoteFree24To25();
  }

  lemma QuoteFree0To8()
    ensures forall i :: 0 <= i < 8 ==> '"' !in TargetColumns[i]
  {
  }

  lemma QuoteFree8To16()
    ensures forall i :: 8 <= i < 16 ==> '"' !in TargetColumns[i]
  {
  }

  lemma QuoteFree16To24()
    ensures forall i :: 16 <= i < 24 ==> '"' !in TargetColumns[i]
  {
  }

  lemma QuoteFree24To25()
    ensures forall i :: 24 <= i < 25 ==> '"' !in TargetColumns[i]
  {
  }
}
