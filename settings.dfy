/**
 * The settings screen: two text fields preloaded with the stored minutes,
 * Save (parse both fields, falling back to the defaults, and store them
 * through the clamping setters), and Cancel / toolbar back (leave without
 * writing anything).
 */
module Settings {
  import opened JavaLang
  import Prefs

  /**
   * `parseIntOrDefault(s, def)`: the empty string gives `def`; otherwise the
   * trimmed text is handed to `Integer.parseInt`, and any exception gives `def`.
   */
  function ParseIntOrDefault(s: string, def: int32): (r: int32)
    ensures s == [] ==> r == def
    ensures r == def || (IsDecimalLiteral(Trim(s)) && r == LiteralValue(Trim(s)))
  {
    if s == [] then def
    else
      match ParseInt(Trim(s))
      case Some(v) => v
      case None => def
  }

  /** A literal with an optional sign that fits in an `int`, with any padding around it, parses to its value. */
  lemma ParseIntOrDefaultAccepts(pre: string, lit: string, post: string, def: int32)
    requires AllTrimmable(pre) && AllTrimmable(post)
    requires IsDecimalLiteral(lit) && IntMin <= LiteralValue(lit) <= IntMax
    ensures ParseIntOrDefault(pre + lit + post, def) == LiteralValue(lit)
  {
    assert IsDigit(lit[|lit| - 1]) by {
      if lit[0] == '-' || lit[0] == '+' {
        assert lit[|lit| - 1] == lit[1..][|lit| - 2];
      }
    }
    assert !IsTrimmable(lit[0]);
    TrimPadded(pre, lit, post);
    ParseIntCorrect(lit);
  }

  /**
   * Every input that `Integer.parseInt` rejects after trimming gives the
   * default: blank text, a stray sign, any non-digit, a value outside the
   * `int` range.
   */
  lemma ParseIntOrDefaultRejects(s: string, def: int32)
    requires !(IsDecimalLiteral(Trim(s)) && IntMin <= LiteralValue(Trim(s)) <= IntMax)
    ensures ParseIntOrDefault(s, def) == def
  {
    ParseIntCorrect(Trim(s));
  }

  /** Text made only of characters at or below U+0020 gives the default. */
  lemma WhitespaceGivesDefault(s: string, def: int32)
    requires AllTrimmable(s)
    ensures ParseIntOrDefault(s, def) == def
  {
    assert s == s + [] + [];
    TrimPadded(s, [], []);
    assert Trim(s) == [];
    ParseIntOrDefaultRejects(s, def);
  }

  /** The text the screen preloads (`String.valueOf(n)`) parses back to `n`. */
  lemma ParseIntOrDefaultOfValueOf(n: int32, def: int32)
    ensures ParseIntOrDefault(ToDecimal(n), def) == n
  {
    var s := ToDecimal(n);
    ParseIntToDecimal(n);
    assert !IsTrimmable(s[0]);
    assert IsDigit(s[|s| - 1]) by {
      var ds := NatToDigits(if n < 0 then -(n as int) else n);
      assert s[|s| - 1] == ds[|ds| - 1];
    }
    assert s == [] + s + [];
    TrimPadded([], s, []);
  }

  /** Saving the preloaded text unedited writes back the values that were stored. */
  lemma UneditedSaveKeepsValue(stored: int32, def: int32)
    requires stored >= 1
    ensures Max(1, ParseIntOrDefault(ToDecimal(stored), def)) == stored
  {
    ParseIntOrDefaultOfValueOf(stored, def);
  }

  datatype ActivityResult = ResultOk | ResultCanceled

  class SettingsScreen {
    const prefs: Prefs.PrefStore
    var focusInput: string
    var breakInput: string
    var origFocus: int32
    var origBreak: int32
    /** What `setResult` recorded before `finish()`; `None` while the screen is open. */
    var result: Option<ActivityResult>

    /** `onCreate`: preload both fields with the stored minutes. */
    constructor (prefs: Prefs.PrefStore)
      ensures this.prefs == prefs
      ensures origFocus == prefs.GetFocusMin() && origBreak == prefs.GetBreakMin()
      ensures focusInput == ToDecimal(origFocus) && breakInput == ToDecimal(origBreak)
      ensures result == None
    {
      this.prefs := prefs;
      origFocus := prefs.GetFocusMin();
      origBreak := prefs.GetBreakMin();
      focusInput := ToDecimal(prefs.GetFocusMin());
      breakInput := ToDecimal(prefs.GetBreakMin());
      result := None;
    }

    /** The user replaces the focus field's text. */
    method EditFocusInput(text: string)
      modifies this
      ensures focusInput == text
      ensures breakInput == old(breakInput) && result == old(result)
      ensures origFocus == old(origFocus) && origBreak == old(origBreak)
    {
      focusInput := text;
    }

    /** The user replaces the break field's text. */
    method EditBreakInput(text: string)
      modifies this
      ensures breakInput == text
      ensures focusInput == old(focusInput) && result == old(result)
      ensures origFocus == old(origFocus) && origBreak == old(origBreak)
    {
      breakInput := text;
    }

    /** Save: parse both fields (defaults 25 and 5), store them through the setters, finish with OK. */
    method OnSaveClicked()
      modifies prefs, this
      ensures prefs.values == old(prefs.values)
        [Prefs.KeyFocusMin := Max(1, ParseIntOrDefault(focusInput, Prefs.DefaultFocusMin))]
        [Prefs.KeyBreakMin := Max(1, ParseIntOrDefault(breakInput, Prefs.DefaultBreakMin))]
      ensures prefs.GetFocusMin() == Max(1, ParseIntOrDefault(focusInput, Prefs.DefaultFocusMin))
      ensures prefs.GetBreakMin() == Max(1, ParseIntOrDefault(breakInput, Prefs.DefaultBreakMin))
      ensures old(prefs.Valid()) ==> prefs.Valid()
      ensures focusInput == old(focusInput) && breakInput == old(breakInput)
      ensures origFocus == old(origFocus) && origBreak == old(origBreak)
      ensures result == Some(ResultOk)
    {
      var f := ParseIntOrDefault(focusInput, Prefs.DefaultFocusMin);
      var b := ParseIntOrDefault(breakInput, Prefs.DefaultBreakMin);
      prefs.SetFocusMin(f);
      prefs.SetBreakMin(b);
      result := Some(ResultOk);
    }

    /** Cancel: finish without writing preferences. */
    method OnCancelClicked()
      modifies this
      ensures result == Some(ResultCanceled)
      ensures prefs.values == old(prefs.values)
      ensures focusInput == old(focusInput) && breakInput == old(breakInput)
      ensures origFocus == old(origFocus) && origBreak == old(origBreak)
    {
      result := Some(ResultCanceled);
    }

    /** Toolbar back arrow: behaves like Cancel. */
    method OnNavigateBack()
      modifies this
      ensures result == Some(ResultCanceled)
      ensures prefs.values == old(prefs.values)
      ensures focusInput == old(focusInput) && breakInput == old(breakInput)
      ensures origFocus == old(origFocus) && origBreak == old(origBreak)
    {
      result := Some(ResultCanceled);
    }
  }
}
