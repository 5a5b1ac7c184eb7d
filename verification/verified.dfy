/**
 * verifiedDealers.py: the verified-dealer register. Headers are renamed
 * to the table's columns, fifteen columns are cleaned as text,
 * `is_subdealer` is read as a yes/no flag, and one 16-element tuple per
 * row is inserted into `verified_dealers`.
 */
module Verified {
  import opened Wrappers
  import opened Clean
  import opened Records
  import opened Frame
  import Sql

  const TargetTable: string := "verified_dealers"

  /** The table's columns, in insert order (the serial id excluded). */
  const TargetColumns: seq<string> := [
    "dealer_code", "dealer_category", "is_subdealer", "dealer_party_name",
    "zone", "area", "contact_no1", "contact_no2", "email", "address",
    "pin_code", "related_sp_name", "owner_proprietor_name", "nature_of_firm",
    "gst_no", "pan_no"]

  const ExpectedColumns: nat := |TargetColumns|

  /** Where `is_subdealer` sits in the target order. */
  const FlagAt: nat := 2

  /** The header renames, in the order the script lists them. */
  const RenamePairs: seq<(string, string)> := [
    ("dealerCode", "dealer_code"),
    ("dealerCategory", "dealer_category"),
    ("isSubdealer", "is_subdealer"),
    ("dealerPartyName", "dealer_party_name"),
    ("contactNo1", "contact_no1"),
    ("contactNo2", "contact_no2"),
    ("pinCode", "pin_code"),
    ("relatedSpName", "related_sp_name"),
    ("ownerProprietorName", "owner_proprietor_name"),
    ("natureOfFirm", "nature_of_firm"),
    ("gstNo", "gst_no"),
    ("panNo", "pan_no")]

  /** Where each rename target sits among the target columns. */
  const RenameAt: seq<nat> := [0, 1, 2, 3, 6, 7, 10, 11, 12, 13, 14, 15]

  /** The rename dictionary. */
  const Renames: map<string, string> := RenameMap(RenamePairs)

  /** The columns cleaned as text, in the order the script lists them. */
  const StringColumns: seq<string> := [
    "dealer_code", "dealer_category", "dealer_party_name",
    "zone", "area", "contact_no1", "contact_no2",
    "email", "address", "pin_code", "related_sp_name",
    "owner_proprietor_name", "nature_of_firm",
    "gst_no", "pan_no"]

  /** Where each text column sits among the target columns. */
  const StringAt: seq<nat> := [0, 1, 3, 4, 5, 6, 7, 8, 9, 10, 11, 12, 13, 14, 15]

  /** The order the script cleans columns in: the text columns, then the flag. */
  const CleanOrder: seq<string> := StringColumns + ["is_subdealer"]

  /** The fields the tuple literal reads, in its order. */
  const TupleOrder: seq<string> := [
    "dealer_code", "dealer_category", "is_subdealer", "dealer_party_name",
    "zone", "area", "contact_no1", "contact_no2", "email", "address",
    "pin_code", "related_sp_name", "owner_proprietor_name", "nature_of_firm",
    "gst_no", "pan_no"]

  lemma TargetColumnKeys()
    ensures forall i, j :: 0 <= i < j < |TargetColumns| ==> LabelKey(TargetColumns[i]) != LabelKey(TargetColumns[j])
  {
  }

  lemma TargetColumnsDistinct()
    ensures Distinct(TargetColumns)
    ensures |TargetColumns| == 16 && TargetColumns[FlagAt] == "is_subdealer"
  {
    TargetColumnKeys();
    DistinctByKey(TargetColumns);
  }

  lemma StringListed()
    ensures ListedAt(StringColumns, TargetColumns, StringAt)
  {
  }

  /** The tuple literal reads the fields in exactly the target order. */
  lemma TupleOrderIsTargetOrder()
    ensures TupleOrder == TargetColumns
  {
  }

  /**
   * The text columns and `is_subdealer` partition the target columns: the
   * flag is not a text column, and together they are all 16 columns, each
   * listed once.
   */
  lemma StringColumnsAndFlagPartitionTargets()
    ensures "is_subdealer" !in StringColumns
    ensures forall c :: c in TargetColumns <==> c in StringColumns || c == "is_subdealer"
    ensures |StringColumns| + 1 == |TargetColumns|
    ensures forall c :: c in CleanOrder <==> c in TargetColumns
  {
    TargetColumnsDistinct();
    StringListed();
    assert FlagAt !in StringAt;
    MemberByPosition(TargetColumns, StringColumns, StringAt, FlagAt);
    forall c | c in TargetColumns ensures c in StringColumns || c == "is_subdealer" {
      var j :| 0 <= j < |TargetColumns| && TargetColumns[j] == c;
      MemberByPosition(TargetColumns, StringColumns, StringAt, j);
      assert j == FlagAt || j in StringAt;
    }
    forall c | c in StringColumns ensures c in TargetColumns {
      var k :| 0 <= k < |StringColumns| && StringColumns[k] == c;
      assert TargetColumns[StringAt[k]] == c;
    }
  }

  /** Positions other than the flag's hold text columns. */
  lemma TextColumnAt(j: nat)
    requires j < |TargetColumns|
    ensures TargetColumns[j] == "is_subdealer" <==> j == FlagAt
    ensures j != FlagAt ==> TargetColumns[j] in StringColumns
  {
    TargetColumnsDistinct();
    StringListed();
    MemberByPosition(TargetColumns, StringColumns, StringAt, j);
  }

  lemma RenameTargetsListed()
    ensures ValuesListedAt(RenamePairs, TargetColumns, RenameAt)
    ensures forall i, j :: 0 <= i < j < |RenameAt| ==> RenameAt[i] != RenameAt[j]
  {
  }

  lemma RenameSourcesDistinct()
    ensures DistinctKeys(RenamePairs)
  {
    assert forall i, j :: 0 <= i < j < |RenamePairs| ==> LabelKey(RenamePairs[i].0) != LabelKey(RenamePairs[j].0);
  }

  /**
   * The renames only ever produce target columns, and no two headers are
   * renamed to the same column.
   */
  lemma RenamesIntoTargets()
    ensures |Renames| == 12
    ensures forall k :: k in Renames ==> Renames[k] in TargetColumns
    ensures forall k1, k2 :: k1 in Renames && k2 in Renames && k1 != k2 ==> Renames[k1] != Renames[k2]
  {
    RenameSourcesDistinct();
    RenameMapOfDistinct(RenamePairs);
    RenamesLandInTargets();
  }

  lemma RenamesLandInTargets()
    ensures forall k :: k in Renames ==> Renames[k] in TargetColumns
    ensures forall k1, k2 :: k1 in Renames && k2 in Renames && k1 != k2 ==> Renames[k1] != Renames[k2]
  {
    RenameTargetsListed();
    TargetColumnsDistinct();
    RenamesLandIn(RenamePairs, TargetColumns, RenameAt);
    RenamesInjective(RenamePairs, TargetColumns, RenameAt);
  }

  /** `is_subdealer` as the driver receives it: a boolean or `None`. */
  function FlagValue(c: Cell): (v: Value)
    ensures v == Null <==> CleanBoolean(c).None?
    ensures CleanBoolean(c).Some? ==> v == Flag(CleanBoolean(c).value)
  {
    match CleanBoolean(c)
    case None => Null
    case Some(b) => Flag(b)
  }

  /** How each column is cleaned, by its name. */
  function Convert(name: string, c: Cell): Value {
    if name == "is_subdealer" then FlagValue(c) else OptStr(CleanValue(c))
  }

  /**
   * The records the script inserts: the sheet renamed, the text columns
   * and the flag looked up and cleaned, then one tuple per row in the
   * tuple literal's order.
   */
  function VerifiedRecords(sheet: Sheet): (r: Result<seq<Record>, FrameError>)
    ensures r.Success? ==> |r.value| == |sheet.rows|
    ensures r.Success? ==> forall i :: 0 <= i < |r.value| ==> |r.value[i]| == ExpectedColumns
    ensures r.Success? ==> ResolveColumns(Rename(Renames, sheet.header), TupleOrder).Success?
  {
    NamedRecords(sheet, Renames, CleanOrder, TupleOrder, Convert)
  }

  /**
   * The import fails exactly when, after renaming, some target column is
   * missing from the sheet or appears twice; otherwise it yields one
   * 16-element tuple per row, in row order.
   */
  lemma VerifiedRecordsSucceed(sheet: Sheet)
    ensures VerifiedRecords(sheet).Success? <==>
              ResolveColumns(Rename(Renames, sheet.header), TargetColumns).Success?
    ensures VerifiedRecords(sheet).Success? ==>
              && |VerifiedRecords(sheet).value| == |sheet.rows|
              && forall i :: 0 <= i < |sheet.rows| ==> |VerifiedRecords(sheet).value[i]| == 16
  {
    StringColumnsAndFlagPartitionTargets();
    TupleOrderIsTargetOrder();
    ResolveSameNames(Rename(Renames, sheet.header), CleanOrder, TargetColumns);
  }

  lemma ConvertAt(j: nat, c: Cell)
    requires j < |TargetColumns|
    ensures Convert(TargetColumns[j], c) == if j == FlagAt then FlagValue(c) else OptStr(CleanValue(c))
  {
    TextColumnAt(j);
  }

  /**
   * Element `j` of row `i`'s tuple is that row's cell under target column
   * `j`: `is_subdealer` as a flag or `None`, every other column cleaned
   * text or `None`.
   */
  lemma VerifiedRecordElement(sheet: Sheet, i: nat, j: nat)
    requires VerifiedRecords(sheet).Success?
    requires i < |sheet.rows| && j < |TargetColumns|
    ensures var ks := ResolveColumns(Rename(Renames, sheet.header), TargetColumns).value;
      var c := CellAt(sheet.rows[i], ks[j]);
      VerifiedRecords(sheet).value[i][j] == if j == FlagAt then FlagValue(c) else OptStr(CleanValue(c))
  {
    TupleOrderIsTargetOrder();
    var ks := ResolveColumns(Rename(Renames, sheet.header), TargetColumns).value;
    ConvertAt(j, CellAt(sheet.rows[i], ks[j]));
  }

  function InsertQuery(): string {
    Sql.InsertQuery(Sql.Indented, TargetTable, TargetColumns, ExpectedColumns)
  }

  /**
   * The statement names the 16 target columns, double-quoted and in
   * order, followed by 16 placeholders: one per tuple element.
   */
  lemma InsertQueryMatchesTuples()
    ensures Sql.ParseInsert(Sql.Indented, TargetTable, InsertQuery()) == Some((TargetColumns, ExpectedColumns))
    ensures ExpectedColumns == 16
  {
    ColumnsQuoteFree();
  }

  /** No target column contains a double quote (checked eight columns at a time). */
  lemma ColumnsQuoteFree()
    ensures Sql.NoQuotes(TargetColumns)
  {
    QuoteFree0To8();
    QuoteFree8To16();
  }

  lemma QuoteFree0To8()
    ensures forall i :: 0 <= i < 8 ==> '"' !in TargetColumns[i]
  {
  }

  lemma QuoteFree8To16()
    ensures forall i :: 8 <= i < 16 ==> '"' !in TargetColumns[i]
  {
  }
}
