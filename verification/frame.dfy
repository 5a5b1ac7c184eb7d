/**
 * The part of a pandas DataFrame the scripts touch: a header of column
 * labels, rows of cells, `rename(columns=...)` and `df[name]` lookups.
 */
module Frame {
  import opened Wrappers
  import opened Clean
  import opened Records

  /**
   * A sheet read with a header row: the labels as pandas gives them, a
   * repeated header cell already made unique ("crLimit", "crLimit.1"), and
   * the data rows below them, trailing empty rows already dropped.
   */
  datatype Sheet = Sheet(header: seq<string>, rows: seq<seq<Cell>>)

  /** The exceptions column handling raises. */
  datatype FrameError =
    | MissingColumn(name: string)     // KeyError from df[name]
    | DuplicateColumn(name: string)   // df[name] is a DataFrame, so cleaning it raises
    | WidthMismatch(expected: nat, actual: nat)  // assigning df.columns of the wrong length

  /** A short row is padded with missing cells, as `read_excel` pads to the sheet's width. */
  function CellAt(row: seq<Cell>, i: nat): (c: Cell)
    ensures i < |row| ==> c == row[i]
    ensures i >= |row| ==> c == Missing
  {
    if i < |row| then row[i] else Missing
  }

  /**
   * `df.rename(columns=m)`: every label that is a key of `m` is replaced
   * by its value, every other label is kept, and positions do not move.
   */
  function Rename(m: map<string, string>, header: seq<string>): (r: seq<string>)
    ensures |r| == |header|
    ensures forall i :: 0 <= i < |header| && header[i] in m ==> r[i] == m[header[i]]
    ensures forall i :: 0 <= i < |header| && header[i] !in m ==> r[i] == header[i]
  {
    seq(|header|, i requires 0 <= i < |header| => if header[i] in m then m[header[i]] else header[i])
  }

  /** How many labels of `header` equal `name`. */
  function Occurrences(header: seq<string>, name: string): (n: nat)
    ensures n == 0 <==> name !in header
    ensures n <= |header|
  {
    if header == [] then 0
    else (if header[0] == name then 1 else 0) + Occurrences(header[1..], name)
  }

  function FirstIndex(header: seq<string>, name: string): (i: nat)
    requires name in header
    ensures i < |header| && header[i] == name
    ensures forall j :: 0 <= j < i ==> header[j] != name
  {
    if header[0] == name then 0 else 1 + FirstIndex(header[1..], name)
  }

  lemma {:induction false} SingleOccurrence(header: seq<string>, name: string, i: nat, j: nat)
    requires Occurrences(header, name) == 1
    requires i < |header| && j < |header| && header[i] == name && header[j] == name
    ensures i == j
    decreases |header|
  {
    if i > 0 && j > 0 {
      SingleOccurrence(header[1..], name, i - 1, j - 1);
    }
  }

  /**
   * `df[name]` on a column that is about to be cleaned: the position of
   * the one column labelled `name`; a KeyError when there is none; and an
   * error when several columns share the label.
   */
  function ColumnIndex(header: seq<string>, name: string): (r: Result<nat, FrameError>)
    ensures r.Success? ==> r.value < |header| && header[r.value] == name
    ensures r.Success? ==> forall j :: 0 <= j < |header| && header[j] == name ==> j == r.value
    ensures r == Failure(MissingColumn(name)) <==> name !in header
    ensures r == Failure(DuplicateColumn(name)) <==>
              exists i, j :: 0 <= i < j < |header| && header[i] == name && header[j] == name
    ensures r.Success? || r == Failure(MissingColumn(name)) || r == Failure(DuplicateColumn(name))
  {
    var n := Occurrences(header, name);
    if n == 0 then Failure(MissingColumn(name))
    else if n == 1 then
      var i := FirstIndex(header, name);
      assert forall j :: 0 <= j < |header| && header[j] == name ==> j == i by {
        forall j | 0 <= j < |header| && header[j] == name {
          SingleOccurrence(header, name, i, j);
        }
      }
      Success(i)
    else
      var i := FirstIndex(header, name);
      assert exists j :: i < j < |header| && header[j] == name by {
        OccurrencesAfterFirst(header, name);
      }
      Failure(DuplicateColumn(name))
  }

  lemma {:induction false} OccurrencesAfterFirst(header: seq<string>, name: string)
    requires Occurrences(header, name) >= 2
    ensures exists j :: FirstIndex(header, name) < j < |header| && header[j] == name
    decreases |header|
  {
    if header[0] == name {
      var k := FirstIndex(header[1..], name);
      assert header[k + 1] == name;
    } else {
      OccurrencesAfterFirst(header[1..], name);
      var j :| FirstIndex(header[1..], name) < j < |header[1..]| && header[1..][j] == name;
      assert header[j + 1] == name;
    }
  }

  /**
   * Look up each name in turn, stopping at the first that fails, as the
   * scripts' column loops do.
   */
  function ResolveColumns(header: seq<string>, names: seq<string>): (r: Result<seq<nat>, FrameError>)
    ensures r.Success? <==> forall k :: 0 <= k < |names| ==> ColumnIndex(header, names[k]).Success?
    ensures r.Success? ==> |r.value| == |names|
    ensures r.Success? ==> forall k :: 0 <= k < |names| ==> ColumnIndex(header, names[k]) == Success(r.value[k])
    ensures r.Failure? ==> exists k :: 0 <= k < |names| && ColumnIndex(header, names[k]) == Failure(r.error)
  {
    if names == [] then Success([])
    else
      match ColumnIndex(header, names[0])
      case Failure(e) => Failure(e)
      case Success(i) =>
        match ResolveColumns(header, names[1..])
        case Failure(e) =>
          assert exists k :: 0 <= k < |names| && ColumnIndex(header, names[k]) == Failure(e) by {
            var k :| 0 <= k < |names[1..]| && ColumnIndex(header, names[1..][k]) == Failure(e);
            assert names[k + 1] == names[1..][k];
          }
          Failure(e)
        case Success(rest) =>
          assert forall k :: 1 <= k < |names| ==> names[k] == names[1..][k - 1];
          Success([i] + rest)
  }

  /**
   * The records a header-driven script builds: each name of `cleanOrder`
   * is looked up (and its column cleaned) in order, then every row becomes
   * the tuple of its cleaned cells in `tupleOrder`, and the length gate
   * keeps tuples of `|tupleOrder|` elements. `convert` is the cleaner the
   * script assigns to each column.
   */
  function NamedRecords(sheet: Sheet, renames: map<string, string>, cleanOrder: seq<string>,
                        tupleOrder: seq<string>, convert: (string, Cell) -> Value)
    : (r: Result<seq<Record>, FrameError>)
    ensures r.Success? ==> |r.value| == |sheet.rows|
    ensures r.Success? ==> forall i :: 0 <= i < |r.value| ==> |r.value[i]| == |tupleOrder|
    ensures r.Success? ==>
              && ResolveColumns(Rename(renames, sheet.header), cleanOrder).Success?
              && ResolveColumns(Rename(renames, sheet.header), tupleOrder).Success?
    ensures r.Success? ==>
              var ks := ResolveColumns(Rename(renames, sheet.header), tupleOrder).value;
              forall i, j :: 0 <= i < |sheet.rows| && 0 <= j < |tupleOrder| ==>
                r.value[i][j] == convert(tupleOrder[j], CellAt(sheet.rows[i], ks[j]))
    ensures r.Failure? ==>
              || ResolveColumns(Rename(renames, sheet.header), cleanOrder).Failure?
              || ResolveColumns(Rename(renames, sheet.header), tupleOrder).Failure?
  {
    var header := Rename(renames, sheet.header);
    match ResolveColumns(header, cleanOrder)
    case Failure(e) => Failure(e)
    case Success(_) =>
      match ResolveColumns(header, tupleOrder)
      case Failure(e) => Failure(e)
      case Success(ks) =>
        var tuples := Tuples(sheet.rows, ks, tupleOrder, convert);
        GateKeepsAll(tuples, |tupleOrder|);
        Success(Gate(tuples, |tupleOrder|))
  }

  /** One tuple per row: the converted cells at the columns `ks`, named by `tupleOrder`. */
  function Tuples(rows: seq<seq<Cell>>, ks: seq<nat>, tupleOrder: seq<string>,
                  convert: (string, Cell) -> Value): (r: seq<Record>)
    requires |ks| == |tupleOrder|
    ensures |r| == |rows|
    ensures forall i :: 0 <= i < |r| ==> |r[i]| == |tupleOrder|
    ensures forall i, j :: 0 <= i < |rows| && 0 <= j < |tupleOrder| ==>
              r[i][j] == convert(tupleOrder[j], CellAt(rows[i], ks[j]))
  {
    seq(|rows|, i requires 0 <= i < |rows| =>
      seq(|tupleOrder|, j requires 0 <= j < |tupleOrder| => convert(tupleOrder[j], CellAt(rows[i], ks[j]))))
  }

  /** No label occurs twice. */
  predicate Distinct(names: seq<string>) {
    forall i, j :: 0 <= i < j < |names| ==> names[i] != names[j]
  }

  /** A cheap fingerprint of a label: its length and its first and last characters. */
  function LabelKey(s: string): (int, char, char) {
    if s == [] then (0, ' ', ' ') else (|s|, s[0], s[|s| - 1])
  }

  /** Labels with pairwise different fingerprints are distinct. */
  lemma DistinctByKey(names: seq<string>)
    requires forall i, j :: 0 <= i < j < |names| ==> LabelKey(names[i]) != LabelKey(names[j])
    ensures Distinct(names)
  {
  }

  /** `list` is the labels of `cols` at the positions `at`, in that order. */
  predicate ListedAt(list: seq<string>, cols: seq<string>, at: seq<nat>) {
    && |list| == |at|
    && forall k :: 0 <= k < |at| ==> at[k] < |cols| && list[k] == cols[at[k]]
  }

  /** Over distinct labels, a name test on a column list is a position test. */
  lemma MemberByPosition(cols: seq<string>, list: seq<string>, at: seq<nat>, j: nat)
    requires Distinct(cols) && ListedAt(list, cols, at) && j < |cols|
    ensures cols[j] in list <==> j in at
  {
    if cols[j] in list {
      var k :| 0 <= k < |list| && list[k] == cols[j];
      assert cols[at[k]] == cols[j];
      assert at[k] == j;
    }
    if j in at {
      var k :| 0 <= k < |at| && at[k] == j;
      assert list[k] == cols[j];
    }
  }

  /** Looking up the same names in another order succeeds or fails alike. */
  lemma ResolveSameNames(header: seq<string>, a: seq<string>, b: seq<string>)
    requires forall x :: x in a <==> x in b
    ensures ResolveColumns(header, a).Success? <==> ResolveColumns(header, b).Success?
  {
    if ResolveColumns(header, a).Success? {
      forall k | 0 <= k < |b| ensures ColumnIndex(header, b[k]).Success? {
        assert b[k] in a;
      }
    }
    if ResolveColumns(header, b).Success? {
      forall k | 0 <= k < |a| ensures ColumnIndex(header, a[k]).Success? {
        assert a[k] in b;
      }
    }
  }

  /** In a list of distinct labels, the label at `i` occurs neither before nor after `i`. */
  lemma DistinctSplit(names: seq<string>, i: nat)
    requires Distinct(names) && i < |names|
    ensures names == names[..i] + [names[i]] + names[i + 1..]
    ensures names[i] !in names[..i] && names[i] !in names[i + 1..]
  {
    assert names == names[..i] + [names[i]] + names[i + 1..];
    var before := names[..i];
    forall k | 0 <= k < |before| ensures before[k] != names[i] {
      assert before[k] == names[k];
    }
    var after := names[i + 1..];
    forall k | 0 <= k < |after| ensures after[k] != names[i] {
      assert after[k] == names[i + 1 + k];
    }
  }

  /** No key is listed twice among the pairs. */
  predicate DistinctKeys(pairs: seq<(string, string)>) {
    forall i, j :: 0 <= i < j < |pairs| ==> pairs[i].0 != pairs[j].0
  }

  /** No pair after position `i` has key `k`. */
  predicate LastKeyAt(pairs: seq<(string, string)>, k: string, i: nat) {
    forall j :: i < j < |pairs| ==> pairs[j].0 != k
  }

  /**
   * A dictionary literal of label pairs: every listed key is in it, mapped
   * to the value of one of its pairs, and nothing else is (`RenameMapLast`
   * shows it is the last pair, as in Python).
   */
  function RenameMap(pairs: seq<(string, string)>): (m: map<string, string>)
    ensures forall k :: k in m <==> exists i :: 0 <= i < |pairs| && pairs[i].0 == k
    ensures forall k :: k in m ==> exists i :: 0 <= i < |pairs| && pairs[i] == (k, m[k])
  {
    if pairs == [] then map[]
    else
      var n := |pairs| - 1;
      assert forall i :: 0 <= i < n ==> pairs[..n][i] == pairs[i];
      RenameMap(pairs[..n])[pairs[n].0 := pairs[n].1]
  }

  /** A key repeated in the literal holds the value of its last pair. */
  lemma {:induction false} RenameMapLast(pairs: seq<(string, string)>, k: string)
    requires k in RenameMap(pairs)
    ensures exists i :: 0 <= i < |pairs| && pairs[i] == (k, RenameMap(pairs)[k]) && LastKeyAt(pairs, k, i)
    decreases |pairs|
  {
    var n := |pairs| - 1;
    if pairs[n].0 == k {
      assert pairs[n] == (k, RenameMap(pairs)[k]) && LastKeyAt(pairs, k, n);
    } else {
      var init := pairs[..n];
      assert RenameMap(pairs) == RenameMap(init)[pairs[n].0 := pairs[n].1];
      assert k in RenameMap(init);
      RenameMapLast(init, k);
      var i :| 0 <= i < |init| && init[i] == (k, RenameMap(init)[k]) && LastKeyAt(init, k, i);
      assert pairs[i] == init[i];
      assert forall j :: i < j < n ==> pairs[j] == init[j];
      assert LastKeyAt(pairs, k, i);
    }
  }

  /** With distinct keys, the dictionary has one entry per pair, each pair's value. */
  lemma {:induction false} RenameMapOfDistinct(pairs: seq<(string, string)>)
    requires DistinctKeys(pairs)
    ensures |RenameMap(pairs)| == |pairs|
    ensures forall i :: 0 <= i < |pairs| ==> RenameMap(pairs)[pairs[i].0] == pairs[i].1
    decreases |pairs|
  {
    if pairs != [] {
      var n := |pairs| - 1;
      var m := RenameMap(pairs[..n]);
      assert forall i :: 0 <= i < n ==> pairs[..n][i] == pairs[i];
      assert DistinctKeys(pairs[..n]);
      RenameMapOfDistinct(pairs[..n]);
      assert pairs[n].0 !in m;
    }
  }

  /** The pairs' values are the labels of `cols` at the positions `at`. */
  predicate ValuesListedAt(pairs: seq<(string, string)>, cols: seq<string>, at: seq<nat>) {
    && |pairs| == |at|
    && forall k :: 0 <= k < |at| ==> at[k] < |cols| && pairs[k].1 == cols[at[k]]
  }

  /** Renames whose targets are listed columns only produce those columns. */
  lemma RenamesLandIn(pairs: seq<(string, string)>, cols: seq<string>, at: seq<nat>)
    requires ValuesListedAt(pairs, cols, at)
    ensures forall k :: k in RenameMap(pairs) ==> RenameMap(pairs)[k] in cols
  {
    var m := RenameMap(pairs);
    forall k | k in m ensures m[k] in cols {
      var i :| 0 <= i < |pairs| && pairs[i] == (k, m[k]);
      assert cols[at[i]] == m[k];
    }
  }

  /** Renames onto different positions of distinct columns never merge two headers. */
  lemma RenamesInjective(pairs: seq<(string, string)>, cols: seq<string>, at: seq<nat>)
    requires ValuesListedAt(pairs, cols, at) && Distinct(cols)
    requires forall i, j :: 0 <= i < j < |at| ==> at[i] != at[j]
    ensures forall k1, k2 :: k1 in RenameMap(pairs) && k2 in RenameMap(pairs) && k1 != k2 ==>
              RenameMap(pairs)[k1] != RenameMap(pairs)[k2]
  {
    var m := RenameMap(pairs);
    forall k1, k2 | k1 in m && k2 in m && k1 != k2 ensures m[k1] != m[k2] {
      var i :| 0 <= i < |pairs| && pairs[i] == (k1, m[k1]);
      var j :| 0 <= j < |pairs| && pairs[j] == (k2, m[k2]);
      assert i != j;
      assert at[i] != at[j];
      assert cols[at[i]] != cols[at[j]];
    }
  }
}
