/**
 * The INSERT statement every script builds from its `TARGET_COLUMNS`:
 * each column double-quoted and joined with ", ", then one `%s`
 * placeholder per expected column. A reference parser reads a statement
 * back, and the round-trip lemma shows the text lists exactly the given
 * columns, in order, followed by exactly the given number of placeholders.
 */
module Sql {
  import opened Wrappers
  import opened PyText

  /** `sep.join(xs)`. */
  function Join(sep: string, xs: seq<string>): string {
    if |xs| == 0 then ""
    else if |xs| == 1 then xs[0]
    else xs[0] + sep + Join(sep, xs[1..])
  }

  /** `f'"{col}"'`. */
  function Quote(col: string): string {
    "\"" + col + "\""
  }

  /** `", ".join([f'"{col}"' for col in cols])`. */
  function ColumnList(cols: seq<string>): string {
    Join(", ", seq(|cols|, i requires 0 <= i < |cols| => Quote(cols[i])))
  }

  /** `', '.join(['%s'] * n)`. */
  function Placeholders(n: nat): string {
    Join(", ", seq(n, _ => "%s"))
  }

  /**
   * The fixed text around the table name, the column list and the
   * placeholders. main.py and mainWithRadar.py write the statement on one
   * line; tallyDealers.py and verifiedDealers.py use a triple-quoted
   * f-string, so their statement carries the newlines and indentation of
   * the source.
   */
  datatype Layout = OneLine | Indented

  function Lead(layout: Layout): string {
    match layout
    case OneLine => "INSERT INTO "
    case Indented => "\n        INSERT INTO "
  }

  function Middle(layout: Layout): string {
    match layout
    case OneLine => ") VALUES ("
    case Indented => ")\n        VALUES ("
  }

  function Tail(layout: Layout): string {
    match layout
    case OneLine => ")"
    case Indented => ")\n        "
  }

  predicate NoQuotes(cols: seq<string>) {
    forall i :: 0 <= i < |cols| ==> '"' !in cols[i]
  }

  /**
   * Reads `name"` (the closing quote included) off the front of `s`:
   * the name and the text after the quote, or `None` when no quote closes it.
   */
  function ReadName(s: string): (r: Option<(string, string)>)
    ensures r.Some? ==> |r.value.1| < |s|
  {
    if s == [] then None
    else if s[0] == '"' then Some(([], s[1..]))
    else
      match ReadName(s[1..])
      case None => None
      case Some((name, rest)) => Some(([s[0]] + name, rest))
  }

  /** Reads a list of `"name"` items separated by ", " off the front of `s`. */
  function ParseColumns(s: string): (r: Option<(seq<string>, string)>)
    ensures r.Some? ==> |r.value.1| <= |s|
    decreases |s|
  {
    if |s| > 0 && s[0] == '"' then
      match ReadName(s[1..])
      case None => None
      case Some((name, after)) =>
        if StartsWith(after, ", \"") then
          match ParseColumns(after[2..])
          case None => None
          case Some((more, rest)) => Some(([name] + more, rest))
        else Some(([name], after))
    else Some(([], s))
  }

  /** Reads a list of `%s` items separated by ", " off the front of `s` and counts them. */
  function ParsePlaceholders(s: string): (r: (nat, string))
    ensures |r.1| <= |s|
    decreases |s|
  {
    if StartsWith(s, "%s, %s") then
      var (n, rest) := ParsePlaceholders(s[4..]);
      (n + 1, rest)
    else if StartsWith(s, "%s") then (1, s[2..])
    else (0, s)
  }

  /**
   * Reads `head`, a column list, `middle`, placeholders and then exactly
   * `tail`: the column names and the placeholder count, or `None`.
   */
  function ParseStatement(head: string, middle: string, tail: string, q: string): Option<(seq<string>, nat)> {
    if !StartsWith(q, head) then None
    else
      match ParseColumns(q[|head|..])
      case None => None
      case Some((cols, rest)) =>
        if !StartsWith(rest, middle) then None
        else
          var (n, left) := ParsePlaceholders(rest[|middle|..]);
          if left == tail then Some((cols, n)) else None
  }

  /**
   * Reads an INSERT statement for `table` in the given layout back into its
   * column names and its placeholder count; `None` for any other text.
   */
  function ParseInsert(layout: Layout, table: string, q: string): Option<(seq<string>, nat)> {
    ParseStatement(Lead(layout) + table + " (", Middle(layout), Tail(layout), q)
  }

  lemma {:induction false} ReadNameAppend(name: string, rest: string)
    requires forall k :: 0 <= k < |name| ==> name[k] != '"'
    ensures ReadName(name + "\"" + rest) == Some((name, rest))
    decreases |name|
  {
    var s := name + "\"" + rest;
    if name == [] {
      assert s == "\"" + rest;
      assert s[1..] == rest;
    } else {
      assert s[0] == name[0];
      assert s[1..] == name[1..] + "\"" + rest;
      ReadNameAppend(name[1..], rest);
      assert [name[0]] + name[1..] == name;
    }
  }

  lemma ColumnListCons(cols: seq<string>)
    requires |cols| >= 2
    ensures ColumnList(cols) == Quote(cols[0]) + ", " + ColumnList(cols[1..])
  {
    var quoted := seq(|cols|, i requires 0 <= i < |cols| => Quote(cols[i]));
    var tailCols := cols[1..];
    assert seq(|tailCols|, i requires 0 <= i < |tailCols| => Quote(tailCols[i])) == quoted[1..];
  }

  lemma ColumnListSingle(col: string)
    ensures ColumnList([col]) == Quote(col)
  {
  }

  lemma ColumnListStartsWithQuote(cols: seq<string>)
    requires |cols| >= 1
    ensures |ColumnList(cols)| > 0 && ColumnList(cols)[0] == '"'
  {
    if |cols| == 1 {
      ColumnListSingle(cols[0]);
      assert cols == [cols[0]];
    } else {
      ColumnListCons(cols);
    }
  }

  lemma ParseOneColumn(col: string, after: string)
    requires '"' !in col
    ensures var s := Quote(col) + after;
            |s| > 0 && s[0] == '"' && ReadName(s[1..]) == Some((col, after))
  {
    var s := Quote(col) + after;
    assert s == "\"" + (col + "\"" + after);
    assert s[1..] == col + "\"" + after;
    ReadNameAppend(col, after);
  }

  lemma {:induction false} ParseColumnsAppend(cols: seq<string>, rest: string)
    requires NoQuotes(cols)
    requires !StartsWith(rest, "\"") && !StartsWith(rest, ", ")
    ensures ParseColumns(ColumnList(cols) + rest) == Some((cols, rest))
    decreases |cols|
  {
    if |cols| == 0 {
      assert ColumnList(cols) + rest == rest;
      if |rest| > 0 {
        assert rest[..1] == [rest[0]];
      }
    } else if |cols| == 1 {
      ColumnListSingle(cols[0]);
      assert cols == [cols[0]];
      assert '"' !in cols[0];
      ParseOneColumn(cols[0], rest);
    } else {
      var tailCols := cols[1..];
      assert NoQuotes(tailCols) by {
        forall i | 0 <= i < |tailCols| ensures '"' !in tailCols[i] {
          assert tailCols[i] == cols[i + 1];
        }
      }
      ParseColumnsAppend(tailCols, rest);
      ParseColumnsCons(cols, rest);
    }
  }

  /** One more column in front of a list that parses. */
  lemma ParseColumnsCons(cols: seq<string>, rest: string)
    requires |cols| >= 2 && '"' !in cols[0]
    requires ParseColumns(ColumnList(cols[1..]) + rest) == Some((cols[1..], rest))
    ensures ParseColumns(ColumnList(cols) + rest) == Some((cols, rest))
  {
    var tailCols := cols[1..];
    var tailList := ColumnList(tailCols);
    ColumnListCons(cols);
    var after := ", " + tailList + rest;
    assert ColumnList(cols) + rest == Quote(cols[0]) + after;
    ParseOneColumn(cols[0], after);
    ColumnListStartsWithQuote(tailCols);
    assert StartsWith(after, ", \"");
    assert after[2..] == tailList + rest;
    assert [cols[0]] + tailCols == cols;
  }

  lemma {:induction false} ParsePlaceholdersAppend(n: nat, rest: string)
    requires !StartsWith(rest, "%s") && !StartsWith(rest, ", ")
    ensures ParsePlaceholders(Placeholders(n) + rest) == (n, rest)
    decreases n
  {
    var s := Placeholders(n) + rest;
    if n == 0 {
      assert s == rest;
    } else if n == 1 {
      assert Placeholders(1) == "%s";
      assert s[2..] == rest;
    } else {
      assert seq(n - 1, _ => "%s") == seq(n, _ => "%s")[1..];
      assert Placeholders(n) == "%s" + ", " + Placeholders(n - 1);
      assert Placeholders(n - 1)[..2] == "%s" by {
        if n - 1 > 1 {
          assert seq(n - 2, _ => "%s") == seq(n - 1, _ => "%s")[1..];
          assert Placeholders(n - 1) == "%s" + ", " + Placeholders(n - 2);
        }
      }
      assert s[4..] == Placeholders(n - 1) + rest;
      assert s[..6] == "%s, %s";
      ParsePlaceholdersAppend(n - 1, rest);
    }
  }

  /**
   * The statement `insert_data_to_neon` executes. Whatever the columns,
   * when none of them contains a double quote the statement reads back as
   * exactly those columns, double-quoted and in order, followed by exactly
   * `n` placeholders.
   */
  function InsertQuery(layout: Layout, table: string, cols: seq<string>, n: nat): (q: string)
    ensures StartsWith(q, Lead(layout) + table + " (")
    ensures NoQuotes(cols) ==> ParseInsert(layout, table, q) == Some((cols, n))
  {
    var head := Lead(layout) + table + " (";
    var q := head + ColumnList(cols) + Middle(layout) + Placeholders(n) + Tail(layout);
    assert q[..|head|] == head;
    if NoQuotes(cols) then
      InsertQueryParses(layout, table, cols, n);
      q
    else q
  }

  lemma InsertQueryParses(layout: Layout, table: string, cols: seq<string>, n: nat)
    requires NoQuotes(cols)
    ensures var head := Lead(layout) + table + " (";
            ParseInsert(layout, table, head + ColumnList(cols) + Middle(layout) + Placeholders(n) + Tail(layout))
              == Some((cols, n))
  {
    assert Middle(layout)[0] == ')' && Tail(layout)[0] == ')';
    StatementParses(Lead(layout) + table + " (", Middle(layout), Tail(layout), cols, n);
  }

  lemma StatementParses(head: string, middle: string, tail: string, cols: seq<string>, n: nat)
    requires NoQuotes(cols)
    requires |middle| > 0 && middle[0] == ')' && |tail| > 0 && tail[0] == ')'
    ensures ParseStatement(head, middle, tail, head + ColumnList(cols) + middle + Placeholders(n) + tail)
              == Some((cols, n))
  {
    ColumnsPartParses(head, middle, tail, cols, n);
    PlaceholdersPartParses(middle, tail, n);
  }

  lemma ColumnsPartParses(head: string, middle: string, tail: string, cols: seq<string>, n: nat)
    requires NoQuotes(cols)
    requires |middle| > 0 && middle[0] == ')'
    ensures var q := head + ColumnList(cols) + middle + Placeholders(n) + tail;
            StartsWith(q, head) && ParseColumns(q[|head|..]) == Some((cols, middle + Placeholders(n) + tail))
  {
    var x := ColumnList(cols);
    var afterCols := middle + Placeholders(n) + tail;
    var q := head + x + middle + Placeholders(n) + tail;
    assert q == head + (x + afterCols);
    assert q[|head|..] == x + afterCols;
    assert afterCols[0] == ')';
    assert !StartsWith(afterCols, "\"") && !StartsWith(afterCols, ", ") by {
      assert afterCols[..1] != "\"";
      assert |afterCols| >= 2 ==> afterCols[..2] != ", ";
    }
    ParseColumnsAppend(cols, afterCols);
  }

  lemma PlaceholdersPartParses(middle: string, tail: string, n: nat)
    requires |tail| > 0 && tail[0] == ')'
    ensures var a := middle + Placeholders(n) + tail;
            StartsWith(a, middle) && ParsePlaceholders(a[|middle|..]) == (n, tail)
  {
    var a := middle + Placeholders(n) + tail;
    assert a[..|middle|] == middle;
    assert a[|middle|..] == Placeholders(n) + tail;
    assert !StartsWith(tail, "%s") && !StartsWith(tail, ", ") by {
      assert tail[..1] == [')'];
      assert |tail| >= 2 ==> tail[..2][0] == ')';
    }
    ParsePlaceholdersAppend(n, tail);
  }
}
