/**
 * Values the scripts place in an insert tuple, and the length gate every
 * script applies before a tuple joins `records_to_insert`.
 */
module Records {
  import opened Wrappers

  datatype Date = Date(year: int, month: int, day: int)

  /** One element of an insert tuple (the Python object handed to the driver). */
  datatype Value =
    | Null                         // None
    | Str(s: string)
    | Int(n: int)
    | Num(x: real)                 // a float; its binary rounding is not modelled
    | Flag(b: bool)
    | Day(d: Date)                 // a `datetime.date`
    | StrList(items: seq<string>)  // a Python list of strings (a text[] column)

  type Record = seq<Value>

  function OptStr(o: Option<string>): Value {
    match o
    case None => Null
    case Some(s) => Str(s)
  }

  function OptNum(o: Option<real>): Value {
    match o
    case None => Null
    case Some(x) => Num(x)
  }

  /**
   * The tuple length gate: keep, in their original order, exactly the
   * tuples whose length is `n`.
   */
  function Gate(rows: seq<Record>, n: nat): (r: seq<Record>)
    ensures |r| <= |rows|
    ensures forall t :: t in r <==> t in rows && |t| == n
  {
    if rows == [] then []
    else (if |rows[0]| == n then [rows[0]] else []) + Gate(rows[1..], n)
  }

  /** The gate works row by row, so it preserves the order of the rows it keeps. */
  lemma {:induction false} GateAppend(a: seq<Record>, b: seq<Record>, n: nat)
    ensures Gate(a + b, n) == Gate(a, n) + Gate(b, n)
    decreases |a|
  {
    if a == [] {
      assert a + b == b;
    } else {
      assert (a + b)[0] == a[0];
      assert (a + b)[1..] == a[1..] + b;
      GateAppend(a[1..], b, n);
    }
  }

  /** When every tuple already has length `n`, nothing is dropped. */
  lemma {:induction false} GateKeepsAll(rows: seq<Record>, n: nat)
    requires forall i :: 0 <= i < |rows| ==> |rows[i]| == n
    ensures Gate(rows, n) == rows
    decreases |rows|
  {
    if rows != [] {
      GateKeepsAll(rows[1..], n);
    }
  }

  /** When no tuple has length `n`, everything is dropped. */
  lemma {:induction false} GateDropsAll(rows: seq<Record>, n: nat)
    requires forall i :: 0 <= i < |rows| ==> |rows[i]| != n
    ensures Gate(rows, n) == []
    decreases |rows|
  {
    if rows != [] {
      GateDropsAll(rows[1..], n);
    }
  }

  /** One element of a pandas float column: `None`, NaN or a number. */
  datatype PandasFloat = PyNone | NaN | Finite(x: real)

  /**
   * The column `Series.apply` builds from per-cell results that are a
   * float or `None`: it re-infers the column's type from the results, and
   * a mixture of floats and `None` becomes a float column in which every
   * `None` is NaN. Only a column without a single number keeps its `None`s.
   */
  function ApplyFloatColumn(results: seq<Option<real>>): (r: seq<PandasFloat>)
    ensures |r| == |results|
    ensures forall i :: 0 <= i < |results| && results[i].Some? ==> r[i] == Finite(results[i].value)
    ensures (exists k :: 0 <= k < |results| && results[k].Some?) ==>
              forall i :: 0 <= i < |results| && results[i].None? ==> r[i] == NaN
    ensures (forall k :: 0 <= k < |results| ==> results[k].None?) ==>
              forall i :: 0 <= i < |results| ==> r[i] == PyNone
  {
    var anyNumber := exists k :: 0 <= k < |results| && results[k].Some?;
    seq(|results|, i requires 0 <= i < |results| =>
      match results[i]
      case Some(x) => Finite(x)
      case None => if anyNumber then NaN else PyNone)
  }
}
