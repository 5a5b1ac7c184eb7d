/**
 * The cell cleaners the four import scripts copy from one another:
 * `clean_value` (all four), the `brand_selling` rule (main.py and
 * mainWithRadar.py), `clean_boolean` (verifiedDealers.py) and the integer
 * default of the numeric columns (main.py and mainWithRadar.py).
 */
module Clean {
  import opened Wrappers
  import opened PyText

  /**
   * A spreadsheet cell as pandas hands it over: `Missing` for anything
   * `pd.isna` accepts (NaN, None, NaT), otherwise the text `str(value)`.
   */
  datatype Cell = Missing | Text(text: string)

  /** Any case variant of "nan", such as "NaN" or "NAN". */
  predicate IsNanWord(t: string) {
    && |t| == 3
    && (t[0] == 'n' || t[0] == 'N')
    && (t[1] == 'a' || t[1] == 'A')
    && (t[2] == 'n' || t[2] == 'N')
  }

  /** `t.lower() == "nan"` holds exactly for the case variants of "nan". */
  lemma LowerIsNan(t: string)
    ensures Lower(t) == "nan" <==> IsNanWord(t)
  {
    if Lower(t) == "nan" {
      assert LowerChar(t[0]) == 'n' && LowerChar(t[1]) == 'a' && LowerChar(t[2]) == 'n';
    }
    if IsNanWord(t) {
      assert Lower(t)[0] == 'n' && Lower(t)[1] == 'a' && Lower(t)[2] == 'n';
    }
  }

  /**
   * Python's `re.sub(r'\.0$', '', s)`. Without MULTILINE, `$` matches at
   * the end of the string and also just before a final newline, so a
   * ".0" followed by one trailing newline is removed too; at most one
   * match exists.
   */
  function RegexDropDotZero(s: string): (r: string)
    ensures EndsWith(s, ".0") ==> r + ".0" == s
    ensures !EndsWith(s, ".0") && EndsWith(s, ".0\n") ==> |r| + 2 == |s| && r[..|r| - 1] + ".0\n" == s && r[|r| - 1] == '\n'
    ensures !EndsWith(s, ".0") && !EndsWith(s, ".0\n") ==> r == s
  {
    if EndsWith(s, ".0") then s[..|s| - 2]
    else if EndsWith(s, ".0\n") then s[..|s| - 3] + "\n"
    else s
  }

  /** On text that `strip()` produced the regex is plain removal of one trailing ".0". */
  lemma DropDotZeroOnTrimmed(t: string)
    requires IsTrimmed(t)
    ensures EndsWith(t, ".0") ==> RegexDropDotZero(t) + ".0" == t
    ensures !EndsWith(t, ".0") ==> RegexDropDotZero(t) == t
  {
  }

  /**
   * `clean_value`: `None` exactly for a missing cell, whitespace-only text
   * and any case variant of "nan" once trimmed; otherwise the trimmed text
   * with one trailing ".0" removed when it has one, and unchanged when not.
   */
  function CleanValue(c: Cell): (r: Option<string>)
    ensures r.None? <==> (c.Missing? || AllSpace(c.text) || IsNanWord(Strip(c.text)))
    ensures c.Text? && r.Some? && EndsWith(Strip(c.text), ".0") ==> r.value + ".0" == Strip(c.text)
    ensures c.Text? && r.Some? && !EndsWith(Strip(c.text), ".0") ==> r.value == Strip(c.text)
  {
    match c
    case Missing => None
    case Text(s) =>
      var t := Strip(s);
      StripEmptyIffBlank(s);
      LowerIsNan(t);
      if t == "" || Lower(t) == "nan" then None
      else
        DropDotZeroOnTrimmed(t);
        Some(RegexDropDotZero(t))
  }

  /** A cleaned string is never longer than the trimmed input and differs from it by at most ".0". */
  lemma CleanValueShape(c: Cell)
    ensures CleanValue(c).Some? ==> c.Text? && |Strip(c.text)| - 2 <= |CleanValue(c).value| <= |Strip(c.text)|
    ensures CleanValue(c).Some? ==> c.Text? && StartsWith(Strip(c.text), CleanValue(c).value)
  {
    if CleanValue(c).Some? {
      var t := Strip(c.text);
      var v := CleanValue(c).value;
      if EndsWith(t, ".0") {
        assert t[..|v|] == v;
      }
    }
  }

  /** A lone ".0", however padded with whitespace, cleans to the empty string, not to `None`. */
  lemma DotZeroCleansToEmpty(w1: string, w2: string)
    requires AllSpace(w1) && AllSpace(w2)
    ensures CleanValue(Text(w1 + ".0" + w2)) == Some("")
  {
    var t := ".0";
    assert t[0] == '.' && t[1] == '0';
    StripPadded(w1, t, w2);
    CleanValueOfTrimmed(w1 + t + w2, t);
    assert t[..0] == "";
  }

  /**
   * Only one ".0" is removed, so cleaning is not idempotent: a trimmed
   * text followed by ".0.0" cleans to the text plus ".0", which cleans
   * again to the text alone ("1.0.0" gives "1.0", then "1").
   */
  lemma CleanValueNotIdempotent(v: string)
    requires IsTrimmed(v)
    ensures CleanValue(Text(v + ".0.0")) == Some(v + ".0")
    ensures CleanValue(Text(v + ".0")) == Some(v)
  {
    assert v + ".0.0" == (v + ".0") + ".0";
    CleanValueDropsAppendedDotZero(v + ".0");
    CleanValueDropsAppendedDotZero(v);
  }

  /**
   * A text is a fixed point of `clean_value` exactly when it is already
   * trimmed, non-empty, not a variant of "nan" and has no trailing ".0".
   */
  lemma CleanValueFixedPoint(v: string)
    ensures CleanValue(Text(v)) == Some(v) <==>
              (IsTrimmed(v) && v != [] && !IsNanWord(v) && !EndsWith(v, ".0"))
  {
    if IsTrimmed(v) {
      StripPadded([], v, []);
      assert [] + v + [] == v;
      StripEmptyIffBlank(v);
    }
    if CleanValue(Text(v)) == Some(v) {
      var t := Strip(v);
      if EndsWith(t, ".0") {
        assert false;
      }
      assert v == t;
      StripEmptyIffBlank(v);
    }
  }

  /**
   * `clean_value` of text whose `strip()` is `t`, when `t` is neither empty
   * nor a variant of "nan": `t` with one trailing ".0" removed.
   */
  lemma CleanValueOfTrimmed(s: string, t: string)
    requires Strip(s) == t && t != [] && !IsNanWord(t)
    ensures EndsWith(t, ".0") ==> CleanValue(Text(s)) == Some(t[..|t| - 2])
    ensures !EndsWith(t, ".0") ==> CleanValue(Text(s)) == Some(t)
  {
    StripEmptyIffBlank(s);
    var r := CleanValue(Text(s));
    assert r.Some?;
    if EndsWith(t, ".0") {
      assert r.value + ".0" == t;
      assert t[..|t| - 2] == r.value;
    }
  }

  /** The cleaning of any text is determined by its stripped form alone. */
  lemma CleanValueOfStripped(s: string)
    ensures CleanValue(Text(s)) == CleanValue(Text(Strip(s)))
  {
    var t := Strip(s);
    StripIdempotent(s);
    if t == [] || IsNanWord(t) {
      StrippedRejected(s);
    } else {
      CleanValueOfTrimmed(s, t);
      CleanValueOfTrimmed(t, t);
    }
  }

  /** Text that strips to nothing or to "nan" is rejected, and so is its stripped form. */
  lemma StrippedRejected(s: string)
    requires Strip(s) == [] || IsNanWord(Strip(s))
    ensures CleanValue(Text(s)) == None && CleanValue(Text(Strip(s))) == None
  {
    StripIdempotent(s);
    StripEmptyIffBlank(s);
    StripEmptyIffBlank(Strip(s));
  }

  /** Appending ".0" to trimmed text is undone by cleaning ("NaN.0" gives "NaN", "" + ".0" gives ""). */
  lemma CleanValueDropsAppendedDotZero(v: string)
    requires IsTrimmed(v)
    ensures CleanValue(Text(v + ".0")) == Some(v)
  {
    var t := v + ".0";
    AppendedDotZero(v);
    StripTrimmed(t);
    CleanValueOfTrimmed(t, t);
  }

  lemma AppendedDotZero(v: string)
    requires IsTrimmed(v)
    ensures IsTrimmed(v + ".0") && v + ".0" != [] && !IsNanWord(v + ".0")
    ensures EndsWith(v + ".0", ".0") && (v + ".0")[..|v|] == v
  {
    var t := v + ".0";
    assert t[|t| - 2] == '.' && t[|t| - 1] == '0';
    if v != [] {
      assert t[0] == v[0] && !IsSpace(v[0]);
    } else {
      assert t[0] == '.';
    }
    assert !IsSpace(t[0]) && !IsSpace(t[|t| - 1]);
    assert |t| == 3 ==> t[1] == '.';
    assert t[|t| - 2..] == ".0";
  }

  /**
   * The `brand_selling` rule: `None` for a missing cell and for any case
   * variant of "nan" after trimming; otherwise a one-element list holding
   * the trimmed text (kept even when it is empty, and with no ".0" removal).
   */
  function BrandSelling(c: Cell): (r: Option<seq<string>>)
    ensures r.None? <==> (c.Missing? || IsNanWord(Strip(c.text)))
    ensures r.Some? ==> c.Text? && r.value == [Strip(c.text)]
  {
    match c
    case Missing => None
    case Text(s) =>
      LowerIsNan(Strip(s));
      if Lower(Strip(s)) == "nan" then None else Some([Strip(s)])
  }

  /**
   * How the brand rule relates to `clean_value`: whenever `clean_value`
   * keeps a cell, the brand rule keeps the trimmed text it came from;
   * whenever the brand rule drops a cell, so does `clean_value`; and a
   * blank cell is the one case they disagree on.
   */
  lemma BrandSellingVersusCleanValue(c: Cell)
    ensures BrandSelling(c).None? ==> CleanValue(c).None?
    ensures CleanValue(c).Some? ==> BrandSelling(c) == Some([Strip(c.text)])
    ensures c.Text? && AllSpace(c.text) ==> CleanValue(c).None? && BrandSelling(c) == Some([""])
  {
    if c.Text? && AllSpace(c.text) {
      StripEmptyIffBlank(c.text);
    }
  }

  /** `clean_boolean`'s accepted spellings once trimmed and lower-cased. */
  const TrueTokens: seq<string> := ["true", "yes", "1"]
  const FalseTokens: seq<string> := ["false", "no", "0"]

  /**
   * `clean_boolean`: true for "true"/"yes"/"1", false for "false"/"no"/"0"
   * (after trimming, in any letter case), `None` for a missing cell and for
   * every other text.
   */
  function CleanBoolean(c: Cell): (r: Option<bool>)
    ensures r == Some(true) <==> c.Text? && Lower(Strip(c.text)) in TrueTokens
    ensures r == Some(false) <==> c.Text? && Lower(Strip(c.text)) in FalseTokens
    ensures r.None? <==> c.Missing? || (Lower(Strip(c.text)) !in TrueTokens && Lower(Strip(c.text)) !in FalseTokens)
  {
    match c
    case Missing => None
    case Text(s) => BooleanToken(Lower(Strip(s)))
  }

  /** The reading of one trimmed, lower-cased text. */
  function BooleanToken(v: string): (r: Option<bool>)
    ensures r == Some(true) <==> v in TrueTokens
    ensures r == Some(false) <==> v in FalseTokens
  {
    if v in TrueTokens then Some(true)
    else if v in FalseTokens then Some(false)
    else None
  }

  /** Python's `str(b)` for a boolean. */
  function PyBool(b: bool): string {
    if b then "True" else "False"
  }

  /** A boolean written by Python (or Excel's TRUE/FALSE), padded with whitespace, reads back as itself. */
  lemma CleanBooleanReadsPyBool(b: bool, w1: string, w2: string)
    requires AllSpace(w1) && AllSpace(w2)
    ensures CleanBoolean(Text(w1 + PyBool(b) + w2)) == Some(b)
  {
    var s := w1 + PyBool(b) + w2;
    StripPaddedPyBool(b, w1, w2);
    LowerPyBool(b);
    assert Lower(Strip(s)) == if b then "true" else "false";
  }

  lemma StripPaddedPyBool(b: bool, w1: string, w2: string)
    requires AllSpace(w1) && AllSpace(w2)
    ensures Strip(w1 + PyBool(b) + w2) == PyBool(b)
  {
    var p := PyBool(b);
    assert IsTrimmed(p) by {
      assert p[0] == (if b then 'T' else 'F');
      assert p[|p| - 1] == 'e';
    }
    StripPadded(w1, p, w2);
  }

  lemma LowerPyBool(b: bool)
    ensures Lower(PyBool(b)) == if b then "true" else "false"
  {
    var l := Lower(PyBool(b));
    if b {
      assert l[0] == 't' && l[1] == 'r' && l[2] == 'u' && l[3] == 'e';
    } else {
      assert l[0] == 'f' && l[1] == 'a' && l[2] == 'l' && l[3] == 's' && l[4] == 'e';
    }
  }

  /** The accepted token sets are disjoint, so no text is both true and false. */
  lemma BooleanTokensDisjoint()
    ensures forall t :: t in TrueTokens ==> t !in FalseTokens
  {
  }

  /** A cell `clean_value` rejects as missing, blank or "nan" is `None` for `clean_boolean` too. */
  lemma CleanBooleanRejectsWhatCleanValueRejects(c: Cell)
    requires CleanValue(c).None?
    ensures CleanBoolean(c).None?
  {
    if c.Text? {
      var t := Strip(c.text);
      StripEmptyIffBlank(c.text);
      LowerIsNan(t);
      if IsNanWord(t) {
        NanIsNoToken(Lower(t));
      } else {
        assert t == [];
        NanIsNoToken(Lower(t));
      }
    }
  }

  lemma NanIsNoToken(v: string)
    requires v == "nan" || v == []
    ensures v !in TrueTokens && v !in FalseTokens
  {
    assert "nan"[0] == 'n' && "nan"[1] == 'a';
  }

  /**
   * A number rendered as a float ("1.0", "0.0") is never read as a
   * boolean: no accepted spelling ends in ".0".
   */
  lemma FloatTextIsNoBoolean(s: string)
    requires EndsWith(Strip(s), ".0")
    ensures CleanBoolean(Text(s)).None?
  {
    var t := Strip(s);
    var v := Lower(t);
    assert v[|v| - 2] == '.';
    assert |v| >= 2;
    TokensHaveNoDot(v);
  }

  lemma TokensHaveNoDot(v: string)
    requires |v| >= 2 && v[|v| - 2] == '.'
    ensures v !in TrueTokens && v !in FalseTokens
  {
  }

  /** `astype(int)` on a float: truncation toward zero. */
  function Truncate(x: real): (n: int)
    ensures x >= 0.0 ==> n as real <= x < n as real + 1.0
    ensures x < 0.0 ==> n as real - 1.0 < x <= n as real
  {
    if x >= 0.0 then x.Floor else -((-x).Floor)
  }

  /**
   * `pd.to_numeric(errors='coerce').fillna(0).astype(int)` for one cell,
   * given what `to_numeric` made of it (`None` when it could not parse):
   * 0 for an unparseable or missing value, otherwise the value truncated
   * toward zero.
   */
  function IntOrZero(parsed: Option<real>): (n: int)
    ensures parsed.None? ==> n == 0
    ensures parsed.Some? ==> -1.0 < parsed.value - n as real < 1.0
    ensures parsed.Some? && parsed.value >= 0.0 ==> 0 <= n
    ensures parsed.Some? && parsed.value <= 0.0 ==> n <= 0
    ensures parsed.Some? ==> n == Truncate(parsed.value)
  {
    match parsed
    case None => 0
    case Some(x) => Truncate(x)
  }
}
