/**
 * The bounce codes of an email, searched with `\b` in the folded text. There the two implementations
 * read accents differently: to Python's `\w` a combining accent is no word character, to Java's `\b`
 * it belongs to the letter or digit it stands on. A code that touches such an accent is a code to the
 * reference and none to the port.
 */
module ErrorCodes {
  import opened Common
  import opened Strings
  import opened TextFolding
  import opened Guardrails

  // --- the port's words ------------------------------------------------------------

  /** Before `i`, and before any accents right before it, stands a letter or digit. */
  predicate OnBase(s: string, i: int)
    requires i <= |s|
    decreases i
  {
    i > 0 && if s[i - 1] == ACUTE then OnBase(s, i - 1) else WordCharacter(s[i - 1]) && s[i - 1] != '_'
  }

  predicate AccentOnBase(s: string, i: int) { 0 <= i < |s| && s[i] == ACUTE && OnBase(s, i) }

  /** The port's word test: letters, digits and `_`, and an accent on a letter or digit. */
  predicate JavaWord(s: string, i: int) { PythonWord(s, i) || AccentOnBase(s, i) }

  lemma AccentIsNoWord(s: string, i: int)
    requires AccentOnBase(s, i)
    ensures !PythonWord(s, i)
  {
  }

  lemma WordsAlike(s: string, i: int)
    requires ACUTE !in s
    ensures JavaWord(s, i) == PythonWord(s, i)
  {
  }

  // --- codes next to accents ---------------------------------------------------------

  /** The `n` characters at `i` stand right after an accent of a letter or digit, or right before any. */
  predicate Touched(s: string, i: nat, n: nat) {
    AccentOnBase(s, i - 1) || (i + n < |s| && s[i + n] == ACUTE)
  }

  /** What the reference reads at `i`, unless an accent touches it. */
  function UntouchedAt(code: Code, s: string, i: nat): Option<string>
    requires i <= |s|
  {
    match CodeAt(PythonWord, code, s, i)
    case Some(text) => if Touched(s, i, |text|) then None else Some(text)
    case None => None
  }

  lemma DigitIsWord(s: string, i: nat)
    requires i < |s| && Digit(s[i])
    ensures PythonWord(s, i) && JavaWord(s, i) && !AccentOnBase(s, i)
  {
  }

  /** Before a digit the port has a boundary exactly where the reference has one and no accent stands. */
  lemma BoundaryBefore(s: string, i: nat)
    requires i < |s| && Digit(s[i])
    ensures Boundary(JavaWord, s, i) <==> Boundary(PythonWord, s, i) && !AccentOnBase(s, i - 1)
  {
    DigitIsWord(s, i);
    if AccentOnBase(s, i - 1) { AccentIsNoWord(s, i - 1); }
  }

  /** After a digit, too: any accent right there stands on it. */
  lemma BoundaryAfter(s: string, i: nat)
    requires 0 < i <= |s| && Digit(s[i - 1])
    ensures Boundary(JavaWord, s, i) <==> Boundary(PythonWord, s, i) && !(i < |s| && s[i] == ACUTE)
  {
    DigitIsWord(s, i - 1);
    if i < |s| && s[i] == ACUTE {
      assert AccentOnBase(s, i);
      AccentIsNoWord(s, i);
    }
  }

  lemma {:induction false} RunIsDigits(s: string, i: nat, most: nat)
    requires i <= |s|
    ensures DigitRun(s, i, most) > 0 ==> Digit(s[i + DigitRun(s, i, most) - 1])
    decreases most
  {
    if most == 0 || i == |s| || !Digit(s[i]) {
    } else {
      RunIsDigits(s, i + 1, most - 1);
    }
  }

  lemma PortReadsDsn(s: string, i: nat)
    requires i <= |s|
    ensures DsnCodeAt(JavaWord, s, i) == UntouchedAt(Dsn, s, i)
  {
    if i + 4 < |s| && s[i] == '5' && s[i + 1] == '.' && Digit(s[i + 2]) && s[i + 3] == '.' {
      var n := DigitRun(s, i + 4, 3);
      RunIsDigits(s, i + 4, 3);
      BoundaryBefore(s, i);
      if n > 0 { BoundaryAfter(s, i + 4 + n); }
    }
  }

  lemma PortReadsSmtp(s: string, i: nat)
    requires i <= |s|
    ensures SmtpCodeAt(JavaWord, s, i) == UntouchedAt(Smtp, s, i)
  {
    if i + 3 <= |s| && s[i] == '5' && s[i + 1] == '5' && '0' <= s[i + 2] <= '4' {
      BoundaryBefore(s, i);
      BoundaryAfter(s, i + 3);
    }
  }

  /** The port reads exactly the reference's codes that no accent touches. */
  lemma PortReadsUntouched(code: Code, s: string, i: nat)
    requires i <= |s|
    ensures CodeAt(JavaWord, code, s, i) == UntouchedAt(code, s, i)
  {
    match code
    case Dsn => PortReadsDsn(s, i);
    case Smtp => PortReadsSmtp(s, i);
  }

  // --- searching -------------------------------------------------------------------------

  predicate HasCode(code: Code, s: string, from: nat) {
    exists i | from <= i <= |s| :: CodeAt(PythonWord, code, s, i).Some?
  }

  predicate HasUntouched(code: Code, s: string, from: nat) {
    exists i | from <= i <= |s| :: UntouchedAt(code, s, i).Some?
  }

  lemma {:induction false} SearchesFind(code: Code, s: string, i: nat)
    requires i <= |s|
    ensures Search(PythonWord, code, s, i).Some? <==> HasCode(code, s, i)
    ensures Search(JavaWord, code, s, i).Some? <==> HasUntouched(code, s, i)
    decreases |s| - i
  {
    PortReadsUntouched(code, s, i);
    if i == |s| {
    } else {
      SearchesFind(code, s, i + 1);
    }
  }

  /** The first code in the reference's order, codes an accent touches left out. */
  function FirstUntouchedFrom(code: Code, s: string, i: nat): Option<string>
    requires i <= |s|
    decreases |s| - i
  {
    if UntouchedAt(code, s, i).Some? then UntouchedAt(code, s, i)
    else if i == |s| then None
    else FirstUntouchedFrom(code, s, i + 1)
  }

  function FirstUntouchedCode(s: string): Option<string> {
    var dsn := FirstUntouchedFrom(Dsn, s, 0);
    if dsn.Some? then dsn else FirstUntouchedFrom(Smtp, s, 0)
  }

  lemma {:induction false} PortFindsUntouched(code: Code, s: string, i: nat)
    requires i <= |s|
    ensures Search(JavaWord, code, s, i) == FirstUntouchedFrom(code, s, i)
    decreases |s| - i
  {
    PortReadsUntouched(code, s, i);
    if i == |s| {
    } else {
      PortFindsUntouched(code, s, i + 1);
    }
  }

  predicate AnyCode(s: string) { HasCode(Dsn, s, 0) || HasCode(Smtp, s, 0) }

  predicate AnyUntouchedCode(s: string) { HasUntouched(Dsn, s, 0) || HasUntouched(Smtp, s, 0) }

  /** What the port finds, and when each side finds anything at all. */
  lemma CodesFound(s: string)
    ensures FirstCode(JavaWord, s) == FirstUntouchedCode(s)
    ensures FirstCode(PythonWord, s).Some? <==> AnyCode(s)
    ensures FirstCode(JavaWord, s).Some? <==> AnyUntouchedCode(s)
  {
    PortFindsUntouched(Dsn, s, 0);
    PortFindsUntouched(Smtp, s, 0);
    SearchesFind(Dsn, s, 0);
    SearchesFind(Smtp, s, 0);
  }

  lemma {:induction false} NothingTouched(code: Code, s: string, i: nat)
    requires ACUTE !in s && i <= |s|
    ensures FirstUntouchedFrom(code, s, i) == Search(PythonWord, code, s, i)
    decreases |s| - i
  {
    if i == |s| {
    } else {
      NothingTouched(code, s, i + 1);
    }
  }

  lemma PlainCodesAlike(s: string)
    requires ACUTE !in s
    ensures FirstUntouchedCode(s) == FirstCode(PythonWord, s)
  {
    NothingTouched(Dsn, s, 0);
    NothingTouched(Smtp, s, 0);
  }
}
