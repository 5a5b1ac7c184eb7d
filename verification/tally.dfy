/**
 * tallyDealers.py: the Tally ERP export. The sheet's camelCase headers are
 * renamed to the table's snake_case columns, every column but `cr_limit`
 * is cleaned as text, `cr_limit` is read as a float, and one 33-element
 * tuple per row is inserted into `tally_dealers`.
 */
module Tally {
  import opened Wrappers
  import opened Clean
  import opened Records
  import opened Frame
  import Sql

  const TargetTable: string := "tally_dealers"

  /** The table's columns, in insert order (no id, no timestamps). */
  const TargetColumns: seq<string> := [
    "institution", "name", "alias",
    "address1", "address2", "address3", "address4", "address5",
    "bill_wise_details", "phone", "mobile", "email",
    "group1", "group2", "group3", "group4",
    "pan", "tin", "cst", "cr_limit",
    "contact_person", "state", "pincode",
    "gst_reg_type", "gst_no",
    "list_of_ledger", "sd_ledger",
    "salesman_name", "sales_promoter", "security_blank_check_no",
    "destination", "district", "zone"]

  const ExpectedColumns: nat := |TargetColumns|

  /** Where `cr_limit` sits in the target order. */
  const CrLimitAt: nat := 19

  /** The header renames, camelCase to snake_case, in the order the script lists them. */
  const RenamePairs: seq<(string, string)> := [
    ("billWiseDetails", "bill_wise_details"),
    ("crLimit", "cr_limit"),
    ("contactPerson", "contact_person"),
    ("gstRegType", "gst_reg_type"),
    ("gstNo", "gst_no"),
    ("listOfLedger", "list_of_ledger"),
    ("sdLedger", "sd_ledger"),
    ("salesmanName", "salesman_name"),
    ("salesPromoter", "sales_promoter"),
    ("securityBlankCheckNo", "security_blank_check_no")]

  /** Where each rename target sits among the target columns. */
  const RenameAt: seq<nat> := [8, 19, 20, 23, 24, 25, 26, 27, 28, 29]

  /** The rename dictionary. */
  const Renames: map<string, string> := RenameMap(RenamePairs)

  /** `[c for c in cols if c != x]`. */
  function Without(cols: seq<string>, x: string): (r: seq<string>)
    ensures forall c :: c in r <==> c in cols && c != x
    ensures |r| <= |cols|
    ensures x !in cols ==> r == cols
  {
    if cols == [] then []
    else
      var rest := Without(cols[1..], x);
      assert forall c :: c in cols <==> c == cols[0] || c in cols[1..];
      if cols[0] != x then [cols[0]] + rest else rest
  }

  lemma {:induction false} WithoutAppend(a: seq<string>, b: seq<string>, x: string)
    ensures Without(a + b, x) == Without(a, x) + Without(b, x)
    decreases |a|
  {
    if a == [] {
      assert a + b == b;
    } else {
      assert (a + b)[1..] == a[1..] + b;
      WithoutAppend(a[1..], b, x);
    }
  }

  /** The columns cleaned as text: every target column except `cr_limit`. */
  const StringColumns: seq<string> := Without(TargetColumns, "cr_limit")

  /** The order the script cleans columns in: the text columns, then `cr_limit`. */
  const CleanOrder: seq<string> := StringColumns + ["cr_limit"]

  /** The labels' fingerprints differ pairwise (checked block by block). */
  lemma TargetColumnKeys()
    ensures forall i, j :: 0 <= i < j < |TargetColumns| ==> LabelKey(TargetColumns[i]) != LabelKey(TargetColumns[j])
  {
    TargetKeysBlock0();
    TargetKeysBlock1();
    TargetKeysBlock2();
    TargetKeysBlock3();
    TargetKeysBlock4();
    TargetKeysBlock5();
  }

  lemma TargetKeysBlock0()
    ensures forall i, j :: 0 <= i < 11 && 0 <= j < 11 && i < j ==> LabelKey(TargetColumns[i]) != LabelKey(TargetColumns[j])
  {
  }

  lemma TargetKeysBlock1()
    ensures forall i, j :: 0 <= i < 11 && 11 <= j < 22 && i < j ==> LabelKey(TargetColumns[i]) != LabelKey(TargetColumns[j])
  {
  }

  lemma TargetKeysBlock2()
    ensures forall i, j :: 0 <= i < 11 && 22 <= j < 33 && i < j ==> LabelKey(TargetColumns[i]) != LabelKey(TargetColumns[j])
  {
  }

  lemma TargetKeysBlock3()
    ensures forall i, j :: 11 <= i < 22 && 11 <= j < 22 && i < j ==> LabelKey(TargetColumns[i]) != LabelKey(TargetColumns[j])
  {
  }

  lemma TargetKeysBlock4()
    ensures forall i, j :: 11 <= i < 22 && 22 <= j < 33 && i < j ==> LabelKey(TargetColumns[i]) != LabelKey(TargetColumns[j])
  {
  }

  lemma TargetKeysBlock5()
    ensures forall i, j :: 22 <= i < 33 && 22 <= j < 33 && i < j ==> LabelKey(TargetColumns[i]) != LabelKey(TargetColumns[j])
  {
  }

  lemma TargetColumnsDistinct()
    ensures Distinct(TargetColumns)
    ensures |TargetColumns| == 33 && TargetColumns[CrLimitAt] == "cr_limit"
  {
    TargetColumnKeys();
    DistinctByKey(TargetColumns);
  }

  /**
   * The text columns are the target columns with `cr_limit` cut out, in
   * order: 32 of them, and together with `cr_limit` exactly the 33 target
   * columns, so every column is cleaned once, in one way.
   */
  lemma StringColumnsPartitionTargets()
    ensures StringColumns == TargetColumns[..CrLimitAt] + TargetColumns[CrLimitAt + 1..]
    ensures |StringColumns| == 32
    ensures "cr_limit" !in StringColumns
    ensures forall c :: c in CleanOrder <==> c in TargetColumns
    ensures |CleanOrder| == |TargetColumns|
  {
    TargetColumnsDistinct();
    DistinctSplit(TargetColumns, CrLimitAt);
    WithoutSplit(TargetColumns[..CrLimitAt], "cr_limit", TargetColumns[CrLimitAt + 1..]);
  }

  lemma WithoutSplit(a: seq<string>, x: string, b: seq<string>)
    requires x !in a && x !in b
    ensures Without(a + [x] + b, x) == a + b
    ensures forall c :: c in a + [x] + b <==> c in (a + b) + [x]
  {
    WithoutAppend(a + [x], b, x);
    WithoutAppend(a, [x], x);
    assert Without([x], x) == [];
  }

  /** Positions other than `cr_limit`'s hold text columns. */
  lemma TextColumnAt(j: nat)
    requires j < |TargetColumns|
    ensures TargetColumns[j] == "cr_limit" <==> j == CrLimitAt
    ensures j != CrLimitAt ==> TargetColumns[j] in StringColumns
  {
    TargetColumnsDistinct();
    StringColumnsPartitionTargets();
  }

  lemma RenameTargetsListed()
    ensures ValuesListedAt(RenamePairs, TargetColumns, RenameAt)
    ensures forall i, j :: 0 <= i < j < |RenameAt| ==> RenameAt[i] != RenameAt[j]
  {
  }

  lemma RenameSourcesDistinct()
    ensures DistinctKeys(RenamePairs)
  {
    assert forall i, j :: 0 <= i < j < |RenamePairs| ==> LabelKey(RenamePairs[i].0) != LabelKey(RenamePairs[j].0);
  }

  /**
   * The renames only ever produce target columns, and no two headers are
   * renamed to the same column.
   */
  lemma RenamesIntoTargets()
    ensures |Renames| == 10
    ensures forall k :: k in Renames ==> Renames[k] in TargetColumns
    ensures forall k1, k2 :: k1 in Renames && k2 in Renames && k1 != k2 ==> Renames[k1] != Renames[k2]
  {
    RenameSourcesDistinct();
    RenameMapOfDistinct(RenamePairs);
    RenamesLandInTargets();
  }

  lemma RenamesLandInTargets()
    ensures forall k :: k in Renames ==> Renames[k] in TargetColumns
    ensures forall k1, k2 :: k1 in Renames && k2 in Renames && k1 != k2 ==> Renames[k1] != Renames[k2]
  {
    RenameTargetsListed();
    TargetColumnsDistinct();
    RenamesLandIn(RenamePairs, TargetColumns, RenameAt);
    RenamesInjective(RenamePairs, TargetColumns, RenameAt);
  }

  /**
   * `clean_numeric`: `None` for a missing cell, otherwise Python's `float()`
   * of the value (the `toFloat` parameter), and `None` where that raises.
   */
  function CleanNumeric(c: Cell, toFloat: string -> Option<real>): (r: Option<real>)
    ensures c.Missing? ==> r.None?
    ensures r.Some? ==> c.Text? && toFloat(c.text) == r
    ensures c.Text? ==> r == toFloat(c.text)
  {
    match c
    case Missing => None
    case Text(s) => toFloat(s)
  }

  /**
   * `cr_limit` as written: `Series.apply(clean_numeric)` re-infers a float
   * column, so in a sheet where any row has a credit limit, a row without
   * one holds NaN rather than `None`, and NaN is what reaches the insert.
   */
  lemma MissingCrLimitBecomesNaN(toFloat: string -> Option<real>)
    requires toFloat("5000") == Some(5000.0)
    ensures var column := [Text("5000"), Missing];
      ApplyFloatColumn(seq(2, i requires 0 <= i < 2 => CleanNumeric(column[i], toFloat)))[1] == NaN
  {
    var column := [Text("5000"), Missing];
    var results := seq(2, i requires 0 <= i < 2 => CleanNumeric(column[i], toFloat));
    assert results[0].Some? && results[1].None?;
  }

  /** How each column is cleaned, by its name. */
  function Convert(name: string, c: Cell, toFloat: string -> Option<real>): Value {
    if name == "cr_limit" then OptNum(CleanNumeric(c, toFloat))
    else OptStr(CleanValue(c))
  }

  /**
   * The records the script inserts: the sheet renamed, every target column
   * looked up and cleaned, then one tuple per row in target order.
   */
  function TallyRecords(sheet: Sheet, toFloat: string -> Option<real>): (r: Result<seq<Record>, FrameError>)
    ensures r.Success? ==> |r.value| == |sheet.rows|
    ensures r.Success? ==> forall i :: 0 <= i < |r.value| ==> |r.value[i]| == ExpectedColumns
    ensures r.Success? ==> ResolveColumns(Rename(Renames, sheet.header), TargetColumns).Success?
  {
    NamedRecords(sheet, Renames, CleanOrder, TargetColumns, (name, c) => Convert(name, c, toFloat))
  }

  /**
   * The import fails exactly when, after renaming, some target column is
   * missing from the sheet or appears twice; otherwise it yields one
   * 33-element tuple per row, in row order.
   */
  lemma TallyRecordsSucceed(sheet: Sheet, toFloat: string -> Option<real>)
    ensures TallyRecords(sheet, toFloat).Success? <==>
              ResolveColumns(Rename(Renames, sheet.header), TargetColumns).Success?
    ensures TallyRecords(sheet, toFloat).Success? ==>
              && |TallyRecords(sheet, toFloat).value| == |sheet.rows|
              && forall i :: 0 <= i < |sheet.rows| ==> |TallyRecords(sheet, toFloat).value[i]| == 33
  {
    StringColumnsPartitionTargets();
    ResolveSameNames(Rename(Renames, sheet.header), CleanOrder, TargetColumns);
  }

  /**
   * Element `j` of row `i`'s tuple is that row's cell under target column
   * `j`: `cr_limit` as a float or `None`, every other column cleaned text
   * or `None`.
   */
  lemma TallyRecordElement(sheet: Sheet, toFloat: string -> Option<real>, i: nat, j: nat)
    requires TallyRecords(sheet, toFloat).Success?
    requires i < |sheet.rows| && j < |TargetColumns|
    ensures var ks := ResolveColumns(Rename(Renames, sheet.header), TargetColumns).value;
      var c := CellAt(sheet.rows[i], ks[j]);
      TallyRecords(sheet, toFloat).value[i][j] ==
        if j == CrLimitAt then OptNum(CleanNumeric(c, toFloat)) else OptStr(CleanValue(c))
  {
    var ks := ResolveColumns(Rename(Renames, sheet.header), TargetColumns).value;
    var c := CellAt(sheet.rows[i], ks[j]);
    ConvertAt(j, c, toFloat);
  }

  lemma ConvertAt(j: nat, c: Cell, toFloat: string -> Option<real>)
    requires j < |TargetColumns|
    ensures Convert(TargetColumns[j], c, toFloat) ==
              if j == CrLimitAt then OptNum(CleanNumeric(c, toFloat)) else OptStr(CleanValue(c))
  {
    TextColumnAt(j);
  }

  function InsertQuery(): string {
    Sql.InsertQuery(Sql.Indented, TargetTable, TargetColumns, ExpectedColumns)
  }

  /**
   * The statement names the 33 target columns, double-quoted and in
   * order, followed by 33 placeholders: one per tuple element.
   */
  lemma InsertQueryMatchesTuples()
    ensures Sql.ParseInsert(Sql.Indented, TargetTable, InsertQuery()) == Some((TargetColumns, ExpectedColumns))
    ensures ExpectedColumns == 33
  {
    ColumnsQuoteFree();
  }

  /** No target column contains a double quote (checked eight columns at a time). */
  lemma ColumnsQuoteFree()
    ensures Sql.NoQuotes(TargetColumns)
  {
    QuoteFree0To8();
    QuoteFree8To16();
    QuoteFree16To24();
    QuoteFree24To32();
    QuoteFree32To33();
  }

  lemma QuoteFree0To8()
    ensures forall i :: 0 <= i < 8 ==> '"' !in TargetColumns[i]
  {
  }

  lemma QuoteFree8To16()
    ensures forall i :: 8 <= i < 16 ==> '"' !in TargetColumns[i]
  {
  }

  lemma QuoteFree16To24()
    ensures forall i :: 16 <= i < 24 ==> '"' !in TargetColumns[i]
  {
  }

  lemma QuoteFree24To32()
    ensures forall i :: 24 <= i < 32 ==> '"' !in TargetColumns[i]
  {
  }

  lemma QuoteFree32To33()
    ensures forall i :: 32 <= i < 33 ==> '"' !in TargetColumns[i]
  {
  }
}
