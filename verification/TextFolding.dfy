/**
 * Text canonicalization for guardrail matching: the reference pipeline of guardrails/text.py
 * and the one-pass fold of the Apex port, over the alphabet both of them name.
 */
module TextFolding {
  import opened Common
  import opened Strings

  // --- character classes ----------------------------------------------------

  predicate LowerLetter(c: char) { 'a' <= c <= 'z' }

  predicate UpperLetter(c: char) { 'A' <= c <= 'Z' }

  /** The characters `canonicalize` keeps. */
  predicate Alphanumeric(c: char) { LowerLetter(c) || Digit(c) }

  /** Regular-expression `\w` among the ASCII characters. */
  predicate AsciiWord(c: char) { Alphanumeric(c) || UpperLetter(c) || c == '_' }

  predicate Fullwidth(c: char) { '\U{FF01}' <= c <= '\U{FF5E}' }

  predicate FullwidthCapital(c: char) { '\U{FF21}' <= c <= '\U{FF3A}' }

  predicate WideSpace(c: char) { c == '\U{A0}' || c == '\U{3000}' }

  /** What `strip`, `split` and `isspace` take for white space. */
  predicate White(c: char) {
    || c == ' ' || '\t' <= c <= '\r' || '\U{1C}' <= c <= '\U{1F}' || c == '\U{85}' || c == '\U{A0}' || c == '\U{1680}'
    || '\U{2000}' <= c <= '\U{200A}' || c == '\U{2028}' || c == '\U{2029}' || c == '\U{202F}'
    || c == '\U{205F}' || c == '\U{3000}'
  }

  predicate ZeroWidth(c: char) {
    c in {'\U{200B}', '\U{200C}', '\U{200D}', '\U{2060}', '\U{FEFF}'}
  }

  /** The Cyrillic and Greek lookalikes of the explicit table. */
  function Lookalike(c: char): Option<char> {
    if c < '\U{3B1}' || '\U{458}' < c then None else
      match c
      case '\U{430}' => Some('a')
      case '\U{432}' => Some('b')
      case '\U{435}' => Some('e')
      case '\U{43A}' => Some('k')
      case '\U{43C}' => Some('m')
      case '\U{43E}' => Some('o')
      case '\U{440}' => Some('p')
      case '\U{441}' => Some('c')
      case '\U{455}' => Some('s')
      case '\U{442}' => Some('t')
      case '\U{443}' => Some('y')
      case '\U{445}' => Some('x')
      case '\U{456}' => Some('i')
      case '\U{458}' => Some('j')
      case '\U{3B1}' => Some('a')
      case '\U{3BF}' => Some('o')
      case '\U{3BD}' => Some('v')
      case _ => None
  }

  /** The lower-case form of the capitals that case folding brings into the table. */
  function LowerLookalike(c: char): Option<char> {
    if c < '\U{391}' || '\U{425}' < c then None else
      match c
      case '\U{410}' => Some('\U{430}')
      case '\U{412}' => Some('\U{432}')
      case '\U{415}' => Some('\U{435}')
      case '\U{41A}' => Some('\U{43A}')
      case '\U{41C}' => Some('\U{43C}')
      case '\U{41E}' => Some('\U{43E}')
      case '\U{420}' => Some('\U{440}')
      case '\U{421}' => Some('\U{441}')
      case '\U{405}' => Some('\U{455}')
      case '\U{422}' => Some('\U{442}')
      case '\U{423}' => Some('\U{443}')
      case '\U{425}' => Some('\U{445}')
      case '\U{406}' => Some('\U{456}')
      case '\U{408}' => Some('\U{458}')
      case '\U{391}' => Some('\U{3B1}')
      case '\U{39F}' => Some('\U{3BF}')
      case '\U{39D}' => Some('\U{3BD}')
      case _ => None
  }

  /** The combining acute accent: the one mark of the alphabet that NFKC composes. */
  const ACUTE := '\U{301}'

  /** The single character a letter and the accent after it compose to. */
  function Accented(c: char): Option<char> {
    if c < 'A' || '\U{43A}' < c || 'z' < c < '\U{391}' then None else
      match c
      case 'a' => Some('\U{E1}')
      case 'c' => Some('\U{107}')
      case 'e' => Some('\U{E9}')
      case 'g' => Some('\U{1F5}')
      case 'i' => Some('\U{ED}')
      case 'k' => Some('\U{1E31}')
      case 'l' => Some('\U{13A}')
      case 'm' => Some('\U{1E3F}')
      case 'n' => Some('\U{144}')
      case 'o' => Some('\U{F3}')
      case 'p' => Some('\U{1E55}')
      case 'r' => Some('\U{155}')
      case 's' => Some('\U{15B}')
      case 'u' => Some('\U{FA}')
      case 'w' => Some('\U{1E83}')
      case 'y' => Some('\U{FD}')
      case 'z' => Some('\U{17A}')
      case 'A' => Some('\U{C1}')
      case 'C' => Some('\U{106}')
      case 'E' => Some('\U{C9}')
      case 'G' => Some('\U{1F4}')
      case 'I' => Some('\U{CD}')
      case 'K' => Some('\U{1E30}')
      case 'L' => Some('\U{139}')
      case 'M' => Some('\U{1E3E}')
      case 'N' => Some('\U{143}')
      case 'O' => Some('\U{D3}')
      case 'P' => Some('\U{1E54}')
      case 'R' => Some('\U{154}')
      case 'S' => Some('\U{15A}')
      case 'U' => Some('\U{DA}')
      case 'W' => Some('\U{1E82}')
      case 'Y' => Some('\U{DD}')
      case 'Z' => Some('\U{179}')
      case '\U{43A}' => Some('\U{45C}')
      case '\U{41A}' => Some('\U{40C}')
      case '\U{3B1}' => Some('\U{3AC}')
      case '\U{391}' => Some('\U{386}')
      case '\U{3BF}' => Some('\U{3CC}')
      case '\U{39F}' => Some('\U{38C}')
      case _ => None
  }

  function LowerAccented(c: char): Option<char> {
    if c < '\U{C1}' || '\U{1E82}' < c then None else
      match c
      case '\U{C1}' => Some('\U{E1}')
      case '\U{106}' => Some('\U{107}')
      case '\U{C9}' => Some('\U{E9}')
      case '\U{1F4}' => Some('\U{1F5}')
      case '\U{CD}' => Some('\U{ED}')
      case '\U{1E30}' => Some('\U{1E31}')
      case '\U{139}' => Some('\U{13A}')
      case '\U{1E3E}' => Some('\U{1E3F}')
      case '\U{143}' => Some('\U{144}')
      case '\U{D3}' => Some('\U{F3}')
      case '\U{1E54}' => Some('\U{1E55}')
      case '\U{154}' => Some('\U{155}')
      case '\U{15A}' => Some('\U{15B}')
      case '\U{DA}' => Some('\U{FA}')
      case '\U{1E82}' => Some('\U{1E83}')
      case '\U{DD}' => Some('\U{FD}')
      case '\U{179}' => Some('\U{17A}')
      case '\U{40C}' => Some('\U{45C}')
      case '\U{386}' => Some('\U{3AC}')
      case '\U{38C}' => Some('\U{3CC}')
      case _ => None
  }

  /** The small letters of the table: what composition and case folding leave of an accented letter. */
  predicate SmallAccented(c: char) {
    '\U{E1}' <= c && c in {
      '\U{E1}', '\U{E9}', '\U{ED}', '\U{F3}', '\U{FA}', '\U{FD}', '\U{107}', '\U{13A}', '\U{144}', '\U{155}',
      '\U{15B}', '\U{17A}', '\U{1F5}', '\U{3AC}', '\U{3CC}', '\U{45C}', '\U{1E31}', '\U{1E3F}', '\U{1E55}', '\U{1E83}'
    }
  }

  /** Regular-expression `\w` on folded text, in which accented letters can stand. */
  predicate WordCharacter(c: char) { AsciiWord(c) || SmallAccented(c) }

  /** ASCII, fullwidth forms, wide spaces, zero-width characters, lookalikes and their capitals. */
  predicate InAlphabet(c: char) {
    c < '\U{80}' || Fullwidth(c) || WideSpace(c) || ZeroWidth(c) || Lookalike(c).Some? || LowerLookalike(c).Some?
  }

  predicate OverAlphabet(s: string) { forall i :: 0 <= i < |s| ==> InAlphabet(s[i]) }

  /** The alphabet with the accent, and with the letters it composes to. */
  predicate InAccentedAlphabet(c: char) {
    InAlphabet(c) || c == ACUTE || LowerAccented(c).Some? || exists d :: Accented(d) == Some(c)
  }

  predicate OverAccentedAlphabet(s: string) { forall i :: 0 <= i < |s| ==> InAccentedAlphabet(s[i]) }

  // --- the reference fold: four passes ----------------------------------------

  function Compatibility(c: char): char {
    if Fullwidth(c) then (c as int - 0xFEE0) as char
    else if WideSpace(c) then ' '
    else c
  }

  function CaseFold(c: char): char {
    if UpperLetter(c) then (c as int + 32) as char
    else if LowerLookalike(c).Some? then LowerLookalike(c).value
    else if LowerAccented(c).Some? then LowerAccented(c).value
    else c
  }

  function Unconfuse(c: char): char {
    if Lookalike(c).Some? then Lookalike(c).value else c
  }

  function MapText(f: char -> char, s: string): (r: string)
    ensures |r| == |s|
    ensures forall i :: 0 <= i < |s| ==> r[i] == f(s[i])
  {
    seq(|s|, i requires 0 <= i < |s| => f(s[i]))
  }

  function DropZeroWidth(s: string): string {
    if s == [] then []
    else (if ZeroWidth(s[0]) then [] else [s[0]]) + DropZeroWidth(s[1..])
  }

  /** Composition from the left: a letter the table knows takes the accent right after it. */
  function ComposeBy(table: char -> Option<char>, s: string): string {
    if |s| >= 2 && s[1] == ACUTE && table(s[0]).Some? then [table(s[0]).value] + ComposeBy(table, s[2..])
    else if s == [] then []
    else [s[0]] + ComposeBy(table, s[1..])
  }

  function Compose(s: string): string { ComposeBy(Accented, s) }

  function Nfkc(s: string): string { Compose(MapText(Compatibility, s)) }

  /** What follows NFKC: case folding, then the lookalike table, then zero-width removal. */
  function FoldPasses(s: string): string { DropZeroWidth(MapText(Unconfuse, MapText(CaseFold, s))) }

  function Fold(s: string): string { FoldPasses(Nfkc(s)) }

  // --- the Apex fold: lower-case, then one pass ---------------------------------

  function ApexLower(c: char): char {
    if UpperLetter(c) || FullwidthCapital(c) then (c as int + 32) as char
    else if LowerLookalike(c).Some? then LowerLookalike(c).value
    else if LowerAccented(c).Some? then LowerAccented(c).value
    else c
  }

  function CodePoint(n: nat): char
    requires n < 0xD800
  {
    n as char
  }

  /** The port's own table of lookalikes, by code point. */
  function Confusable(c: char): Option<char> {
    if c < '\U{3B1}' || '\U{458}' < c then None else
      match c as int
      case 1072 => Some(CodePoint(97))
      case 1074 => Some(CodePoint(98))
      case 1077 => Some(CodePoint(101))
      case 1082 => Some(CodePoint(107))
      case 1084 => Some(CodePoint(109))
      case 1086 => Some(CodePoint(111))
      case 1088 => Some(CodePoint(112))
      case 1089 => Some(CodePoint(99))
      case 1109 => Some(CodePoint(115))
      case 1090 => Some(CodePoint(116))
      case 1091 => Some(CodePoint(121))
      case 1093 => Some(CodePoint(120))
      case 1110 => Some(CodePoint(105))
      case 1112 => Some(CodePoint(106))
      case 945 => Some(CodePoint(97))
      case 959 => Some(CodePoint(111))
      case 957 => Some(CodePoint(118))
      case _ => None
  }

  /** The port's own zero-width characters. */
  predicate PortZeroWidth(c: char) { c as int in {8203, 8204, 8205, 8288, 65279} }

  /** One branch of the pass per character: what it appends to the output. */
  function ApexEmit(c: char): string {
    if Fullwidth(c) then [(c as int - 65248) as char]
    else if WideSpace(c) then " "
    else if PortZeroWidth(c) then ""
    else if Confusable(c).Some? then [Confusable(c).value]
    else [c]
  }

  function ApexEmitAll(s: string): string {
    if s == [] then [] else ApexEmit(s[0]) + ApexEmitAll(s[1..])
  }

  lemma {:induction false} ApexEmitAppend(s: string, c: char)
    ensures ApexEmitAll(s + [c]) == ApexEmitAll(s) + ApexEmit(c)
  {
    if s == [] {
      assert s + [c] == [c];
    } else {
      assert (s + [c])[1..] == s[1..] + [c];
      ApexEmitAppend(s[1..], c);
    }
  }

  function ApexFold(s: string): string { ApexEmitAll(MapText(ApexLower, s)) }

  /** The pass as the port runs it: a growing list and a branch per character. */
  method ComputeApexFold(text: string) returns (mapped: string)
    ensures mapped == ApexFold(text)
  {
    var lowered := MapText(ApexLower, text);
    mapped := [];
    for i := 0 to |lowered|
      invariant mapped == ApexEmitAll(lowered[..i])
    {
      var c := lowered[i];
      var confusable := Confusable(c);
      assert lowered[..i + 1] == lowered[..i] + [c];
      ApexEmitAppend(lowered[..i], c);
      if Fullwidth(c) {
        mapped := mapped + [(c as int - 65248) as char];
      } else if WideSpace(c) {
        mapped := mapped + [' '];
      } else if PortZeroWidth(c) {
        continue;
      } else if confusable.Some? {
        mapped := mapped + [confusable.value];
      } else {
        mapped := mapped + [c];
      }
    }
    assert lowered[..|lowered|] == lowered;
  }

  // --- composition ------------------------------------------------------------

  /** A letter stands right before an accent it composes with. */
  predicate Composable(s: string) { exists i :: 0 <= i < |s| - 1 && PairAt(s, i) }

  predicate PairAt(s: string, i: int)
    requires 0 <= i < |s| - 1
  {
    s[i + 1] == ACUTE && Accented(s[i]).Some?
  }

  /** Composition reaches across the seam of two texts. */
  predicate Joins(before: string, after: string) {
    before != [] && after != [] && after[0] == ACUTE && Accented(Compatibility(before[|before| - 1])).Some?
  }

  lemma PairAtFront(s: string)
    requires |s| >= 2
    ensures Composable(s) <==> PairAt(s, 0) || Composable(s[1..])
  {
    if Composable(s) && !PairAt(s, 0) {
      var i :| 0 <= i < |s| - 1 && PairAt(s, i);
      assert PairAt(s[1..], i - 1);
    }
    if Composable(s[1..]) {
      var i :| 0 <= i < |s[1..]| - 1 && PairAt(s[1..], i);
      assert PairAt(s, i + 1);
    }
  }

  lemma {:induction false} ComposeStable(s: string)
    requires !Composable(s)
    ensures Compose(s) == s
  {
    if s == [] {
    } else if |s| == 1 {
      assert s[1..] == [] && Compose(s) == [s[0]] + Compose(s[1..]);
    } else {
      PairAtFront(s);
      ComposeStable(s[1..]);
    }
  }

  lemma NoAccentNoPair(s: string)
    requires ACUTE !in s
    ensures !Composable(s)
  {
  }

  lemma AccentsDoNotCompose(c: char)
    requires c == ACUTE || ZeroWidth(c)
    ensures Accented(c).None? && Compatibility(c) == c
  {
  }

  lemma ComposeByOne(table: char -> Option<char>, c: char, rest: string)
    requires rest != [] && rest[0] == ACUTE ==> table(c).None?
    ensures ComposeBy(table, [c] + rest) == [c] + ComposeBy(table, rest)
  {
    assert ([c] + rest)[1..] == rest;
  }

  lemma {:induction false} ComposeByAppend(table: char -> Option<char>, a: string, b: string)
    requires a != [] && b != [] && b[0] == ACUTE ==> table(a[|a| - 1]).None?
    ensures ComposeBy(table, a + b) == ComposeBy(table, a) + ComposeBy(table, b)
  {
    var s := a + b;
    if a == [] {
      assert s == b;
    } else if |a| == 1 {
      assert s == [a[0]] + b && a == [a[0]] + [];
      ComposeByOne(table, a[0], b);
      ComposeByOne(table, a[0], []);
    } else {
      assert s[0] == a[0] && s[1] == a[1] && s[1..] == a[1..] + b && s[2..] == a[2..] + b;
      if a[1] == ACUTE && table(a[0]).Some? {
        ComposeByAppend(table, a[2..], b);
      } else {
        ComposeByAppend(table, a[1..], b);
      }
    }
  }

  lemma ComposeAppend(a: string, b: string)
    requires a != [] && b != [] && b[0] == ACUTE ==> Accented(a[|a| - 1]).None?
    ensures Compose(a + b) == Compose(a) + Compose(b)
  {
    ComposeByAppend(Accented, a, b);
  }

  lemma {:induction false} ComposeLeavesNoPair(s: string)
    requires forall i :: 0 <= i < |s| ==> Accented(s[i]).Some? ==> Accented(Accented(s[i]).value).None?
    ensures !Composable(Compose(s))
    ensures Compose(s) != [] && Compose(s)[0] == ACUTE ==> s[0] == ACUTE
  {
    if s == [] {
    } else {
      var rest := if |s| >= 2 && PairAt(s, 0) then s[2..] else s[1..];
      ComposeLeavesNoPair(rest);
      var t := Compose(s);
      assert t[1..] == Compose(rest);
      if |t| >= 2 {
        PairAtFront(t);
      }
    }
  }

  lemma AccentedTakesNoAccent(c: char)
    requires Accented(c).Some?
    ensures Accented(Accented(c).value).None?
  {
  }

  lemma NfkcHasNoPair(s: string)
    ensures !Composable(Nfkc(s))
  {
    var m := MapText(Compatibility, s);
    forall i | 0 <= i < |m| && Accented(m[i]).Some? ensures Accented(Accented(m[i]).value).None? {
      AccentedTakesNoAccent(m[i]);
    }
    ComposeLeavesNoPair(m);
  }

  // --- the fold in pieces -------------------------------------------------------

  lemma MapAppend(f: char -> char, a: string, b: string)
    ensures MapText(f, a + b) == MapText(f, a) + MapText(f, b)
  {
  }

  lemma {:induction false} DropAppend(a: string, b: string)
    ensures DropZeroWidth(a + b) == DropZeroWidth(a) + DropZeroWidth(b)
  {
    if a == [] {
      assert a + b == b;
    } else {
      assert (a + b)[1..] == a[1..] + b;
      DropAppend(a[1..], b);
    }
  }

  lemma PassesAppend(a: string, b: string)
    ensures FoldPasses(a + b) == FoldPasses(a) + FoldPasses(b)
  {
    MapAppend(CaseFold, a, b);
    MapAppend(Unconfuse, MapText(CaseFold, a), MapText(CaseFold, b));
    DropAppend(MapText(Unconfuse, MapText(CaseFold, a)), MapText(Unconfuse, MapText(CaseFold, b)));
  }

  /** What one character contributes to the passes after NFKC. */
  function PassStep(c: char): string {
    if ZeroWidth(Unconfuse(CaseFold(c))) then [] else [Unconfuse(CaseFold(c))]
  }

  lemma PassesOfOne(c: char)
    ensures FoldPasses([c]) == PassStep(c)
  {
    var u := MapText(Unconfuse, MapText(CaseFold, [c]));
    assert u == [Unconfuse(CaseFold(c))] && u[1..] == [];
    assert DropZeroWidth(u[1..]) == [];
  }

  lemma CompatibilityIsNoAccent(c: char)
    ensures Compatibility(c) == ACUTE <==> c == ACUTE
  {
  }

  lemma FoldAppend(a: string, b: string)
    requires !Joins(a, b)
    ensures Fold(a + b) == Fold(a) + Fold(b)
  {
    MapAppend(Compatibility, a, b);
    if b != [] { CompatibilityIsNoAccent(b[0]); }
    ComposeAppend(MapText(Compatibility, a), MapText(Compatibility, b));
    PassesAppend(Nfkc(a), Nfkc(b));
  }

  /** What one character contributes to the fold of a text without the accent. */
  function FoldStep(c: char): string { PassStep(Compatibility(c)) }

  lemma FoldOfOne(c: char)
    ensures Fold([c]) == FoldStep(c)
  {
    assert MapText(Compatibility, [c]) == [Compatibility(c)];
    assert Compose([Compatibility(c)]) == [Compatibility(c)] + Compose([Compatibility(c)][1..]);
    assert [Compatibility(c)][1..] == [] && [Compatibility(c)] + [] == [Compatibility(c)];
    PassesOfOne(Compatibility(c));
  }

  lemma FoldCons(s: string)
    requires s != [] && (|s| > 1 ==> s[1] != ACUTE)
    ensures Fold(s) == FoldStep(s[0]) + Fold(s[1..])
  {
    assert s == [s[0]] + s[1..];
    FoldAppend([s[0]], s[1..]);
    FoldOfOne(s[0]);
  }

  // --- zero-width characters -----------------------------------------------------

  lemma ZeroWidthStep(c: char)
    requires ZeroWidth(c)
    ensures FoldStep(c) == []
  {
  }

  lemma LetterStays(c: char)
    requires Accented(c).Some?
    ensures |PassStep(c)| == 1
  {
  }

  lemma AccentStays()
    ensures |PassStep(ACUTE)| == 1
  {
  }

  lemma AccentedLetterStays(c: char)
    requires Accented(c).Some?
    ensures |PassStep(Accented(c).value)| == 1
  {
  }

  lemma FoldBeforePlain(a: string, b: string)
    requires b != [] ==> b[0] != ACUTE
    ensures Fold(a + b) == Fold(a) + Fold(b)
  {
    FoldAppend(a, b);
  }

  lemma FoldAfterUnaccentable(a: string, c: char, b: string)
    requires Accented(Compatibility(c)).None?
    ensures Fold(a + [c] + b) == Fold(a + [c]) + Fold(b)
  {
    FoldAppend(a + [c], b);
  }

  lemma PairShortens(x: char, q: string)
    requires Accented(Compatibility(x)).Some?
    ensures |Fold([x, ACUTE] + q)| == |Fold([x])| + |Fold([ACUTE] + q)| - 1
  {
    var y := Compatibility(x);
    LetterStays(y);
    AccentedLetterStays(y);
    FoldOfOne(x);
    FoldFromAccent(q);
    ComposedPair(x, q);
  }

  /** Across a seam that composes, one character fewer is left. */
  lemma JoinShortens(before: string, after: string)
    requires Joins(before, after)
    ensures |Fold(before + after)| == |Fold(before)| + |Fold(after)| - 1
  {
    var n := |before| - 1;
    var p, x, q := before[..n], before[n], after[1..];
    assert before == p + [x] && after == [ACUTE] + q && before + after == p + ([x, ACUTE] + q);
    BaseIsNoAccent(x);
    FoldBeforePlain(p, [x]);
    FoldBeforePlain(p, [x, ACUTE] + q);
    PairShortens(x, q);
  }

  lemma BaseIsNoAccent(x: char)
    requires Accented(Compatibility(x)).Some?
    ensures x != ACUTE
  {
    CompatibilityIsNoAccent(x);
    AccentsDoNotCompose(ACUTE);
  }

  lemma FoldFromAccent(q: string)
    ensures |Fold([ACUTE] + q)| == 1 + |Fold(q)|
  {
    AccentsDoNotCompose(ACUTE);
    AccentStays();
    assert [] + [ACUTE] == [ACUTE];
    FoldAfterUnaccentable([], ACUTE, q);
    FoldOfOne(ACUTE);
  }

  lemma ComposedPair(x: char, q: string)
    requires Accented(Compatibility(x)).Some?
    ensures Fold([x, ACUTE] + q) == PassStep(Accented(Compatibility(x)).value) + Fold(q)
  {
    var y, m := Compatibility(x), MapText(Compatibility, q);
    AccentsDoNotCompose(ACUTE);
    assert MapText(Compatibility, [x, ACUTE] + q) == [y, ACUTE] + m;
    assert ([y, ACUTE] + m)[2..] == m;
    assert Nfkc([x, ACUTE] + q) == [Accented(y).value] + Nfkc(q);
    PassesAppend([Accented(y).value], Nfkc(q));
    PassesOfOne(Accented(y).value);
  }

  lemma ZeroWidthParts(before: string, c: char, after: string)
    requires ZeroWidth(c)
    ensures Fold(before + [c] + after) == Fold(before) + Fold(after)
  {
    AccentsDoNotCompose(c);
    ZeroWidthStep(c);
    FoldOfOne(c);
    FoldBeforePlain(before, [c]);
    FoldAfterUnaccentable(before, c, after);
  }

  /**
   * A zero-width character leaves the folded text alone exactly when it does not keep a letter from
   * an accent: NFKC runs before zero-width removal, so there it blocks the composition for good.
   */
  lemma FoldSkipsZeroWidth(before: string, c: char, after: string)
    requires ZeroWidth(c) && OverAccentedAlphabet(before) && OverAccentedAlphabet(after)
    ensures Fold(before + [c] + after) == Fold(before + after) <==> !Joins(before, after)
  {
    ZeroWidthParts(before, c, after);
    if Joins(before, after) {
      JoinShortens(before, after);
    } else {
      FoldAppend(before, after);
    }
  }

  // --- the two folds agree ---------------------------------------------------

  lemma ZeroWidthsAgree(c: char)
    ensures PortZeroWidth(c) <==> ZeroWidth(c)
  {
  }

  lemma LookalikesAgree(c: char)
    ensures Confusable(c) == Lookalike(c)
  {
  }

  /** Both implementations write down the same two tables. */
  lemma TablesAgree(c: char)
    ensures PortZeroWidth(c) <==> ZeroWidth(c)
    ensures Confusable(c) == Lookalike(c)
  {
    ZeroWidthsAgree(c);
    LookalikesAgree(c);
  }

  lemma CapitalLookalikeStep(c: char)
    requires LowerLookalike(c).Some?
    ensures ApexEmit(ApexLower(c)) == FoldStep(c)
  {
    TablesAgree(ApexLower(c));
  }

  lemma AccentStep()
    ensures ApexEmit(ApexLower(ACUTE)) == FoldStep(ACUTE)
  {
    TablesAgree(ApexLower(ACUTE));
  }

  lemma CapitalAccentedStep(c: char)
    requires LowerAccented(c).Some?
    ensures ApexEmit(ApexLower(c)) == FoldStep(c)
  {
    TablesAgree(ApexLower(c));
  }

  lemma SmallAccentedStep(c: char, d: char)
    requires Accented(d) == Some(c) && LowerAccented(c).None?
    ensures ApexEmit(ApexLower(c)) == FoldStep(c)
  {
    TablesAgree(ApexLower(c));
  }

  lemma LookalikeStep(c: char)
    requires Lookalike(c).Some?
    ensures ApexEmit(ApexLower(c)) == FoldStep(c)
  {
    TablesAgree(ApexLower(c));
  }

  lemma OrdinaryStep(c: char)
    requires c < '\U{80}' || Fullwidth(c) || WideSpace(c) || ZeroWidth(c)
    ensures ApexEmit(ApexLower(c)) == FoldStep(c)
  {
    TablesAgree(ApexLower(c));
  }

  lemma StepsAgree(c: char)
    requires InAccentedAlphabet(c)
    ensures ApexEmit(ApexLower(c)) == FoldStep(c)
  {
    if c < '\U{80}' || Fullwidth(c) || WideSpace(c) || ZeroWidth(c) { OrdinaryStep(c); }
    else if Lookalike(c).Some? { LookalikeStep(c); }
    else if LowerLookalike(c).Some? { CapitalLookalikeStep(c); }
    else if LowerAccented(c).Some? { CapitalAccentedStep(c); }
    else if c == ACUTE { AccentStep(); }
    else {
      var d :| Accented(d) == Some(c);
      SmallAccentedStep(c, d);
    }
  }

  lemma ApexFoldCons(s: string)
    requires s != []
    ensures ApexFold(s) == ApexEmit(ApexLower(s[0])) + ApexFold(s[1..])
  {
    assert MapText(ApexLower, s)[1..] == MapText(ApexLower, s[1..]);
  }

  /** The port does what the reference does, without the composition. */
  lemma {:induction false} ApexFoldIsUncomposed(s: string)
    requires OverAccentedAlphabet(s)
    ensures ApexFold(s) == FoldPasses(MapText(Compatibility, s))
  {
    var m := MapText(Compatibility, s);
    if s == [] {
    } else {
      assert m == [m[0]] + m[1..] && m[1..] == MapText(Compatibility, s[1..]);
      PassesAppend([m[0]], m[1..]);
      PassesOfOne(m[0]);
      ApexFoldCons(s);
      StepsAgree(s[0]);
      ApexFoldIsUncomposed(s[1..]);
    }
  }

  lemma OnePasses(c: char, rest: string)
    requires |PassStep(c)| == 1
    ensures |FoldPasses([c] + rest)| == 1 + |FoldPasses(rest)|
  {
    PassesAppend([c], rest);
    PassesOfOne(c);
  }

  lemma PairPasses(c: char, rest: string, composed: string)
    requires Accented(c).Some?
    ensures |FoldPasses([c, ACUTE] + rest)| == 2 + |FoldPasses(rest)|
    ensures |FoldPasses([Accented(c).value] + composed)| == 1 + |FoldPasses(composed)|
  {
    LetterStays(c);
    AccentStays();
    AccentedLetterStays(c);
    assert [c, ACUTE] + rest == [c] + ([ACUTE] + rest);
    OnePasses(c, [ACUTE] + rest);
    OnePasses(ACUTE, rest);
    OnePasses(Accented(c).value, composed);
  }

  /** Each composition leaves one character fewer in the end. */
  lemma {:induction false} ComposingShortens(m: string)
    ensures |FoldPasses(Compose(m))| <= |FoldPasses(m)|
    ensures Composable(m) ==> |FoldPasses(Compose(m))| < |FoldPasses(m)|
  {
    if m == [] {
    } else if |m| >= 2 && PairAt(m, 0) {
      ComposingShortens(m[2..]);
      PairPasses(m[0], m[2..], Compose(m[2..]));
      assert m == [m[0], ACUTE] + m[2..];
    } else {
      assert m == [m[0]] + m[1..];
      ComposingShortens(m[1..]);
      PassesAppend([m[0]], m[1..]);
      PassesAppend([m[0]], Compose(m[1..]));
      if |m| >= 2 { PairAtFront(m); }
    }
  }

  /** Over the alphabet and the accent the one-pass port agrees exactly where nothing composes. */
  lemma FoldsAgreeIffNothingComposes(s: string)
    requires OverAccentedAlphabet(s)
    ensures ApexFold(s) == Fold(s) <==> !Composable(MapText(Compatibility, s))
  {
    ApexFoldIsUncomposed(s);
    if Composable(MapText(Compatibility, s)) {
      ComposingShortens(MapText(Compatibility, s));
    } else {
      ComposeStable(MapText(Compatibility, s));
    }
  }

  lemma PlainIsAccentFree(s: string)
    requires OverAlphabet(s)
    ensures ACUTE !in s && ACUTE !in MapText(Compatibility, s) && OverAccentedAlphabet(s)
  {
    forall i | 0 <= i < |s| ensures s[i] != ACUTE && Compatibility(s[i]) != ACUTE {
      CompatibilityIsNoAccent(s[i]);
      assert InAlphabet(s[i]);
      PlainCharacter(s[i]);
    }
  }

  lemma PlainCharacter(c: char)
    requires InAlphabet(c)
    ensures c != ACUTE
  {
  }

  /** Over the shared alphabet the one-pass port computes exactly the four-pass reference. */
  lemma FoldsAgree(s: string)
    requires OverAlphabet(s)
    ensures ApexFold(s) == Fold(s)
  {
    PlainIsAccentFree(s);
    NoAccentNoPair(MapText(Compatibility, s));
    FoldsAgreeIffNothingComposes(s);
  }

  /** What folding leaves: ASCII with no capital letters. */
  predicate Folded(s: string) {
    forall i :: 0 <= i < |s| ==> s[i] < '\U{80}' && !UpperLetter(s[i])
  }

  lemma LookalikeIsFolded(c: char)
    requires Lookalike(c).Some?
    ensures Folded(FoldStep(c))
  {
  }

  lemma CapitalLookalikeIsFolded(c: char)
    requires LowerLookalike(c).Some?
    ensures Folded(FoldStep(c))
  {
  }

  lemma OrdinaryIsFolded(c: char)
    requires c < '\U{80}' || Fullwidth(c) || WideSpace(c) || ZeroWidth(c)
    ensures Folded(FoldStep(c))
  {
  }

  lemma StepIsFolded(c: char)
    requires InAlphabet(c)
    ensures Folded(FoldStep(c))
  {
    if Lookalike(c).Some? {
      LookalikeIsFolded(c);
    } else if LowerLookalike(c).Some? {
      CapitalLookalikeIsFolded(c);
    } else {
      OrdinaryIsFolded(c);
    }
  }

  lemma FoldedStep(c: char)
    requires c < '\U{80}' && !UpperLetter(c)
    ensures FoldStep(c) == [c]
  {
  }

  lemma {:induction false} FoldLeavesLowerAscii(s: string)
    requires OverAlphabet(s)
    ensures Folded(Fold(s))
  {
    if s == [] {
    } else {
      PlainIsAccentFree(s);
      FoldCons(s);
      FoldLeavesLowerAscii(s[1..]);
      StepIsFolded(s[0]);
    }
  }

  /** What folding text over the alphabet and the accent leaves: such ASCII, accented letters and accents. */
  predicate FoldedWithAccents(s: string) {
    forall i :: 0 <= i < |s| ==> (s[i] < '\U{80}' && !UpperLetter(s[i])) || s[i] == ACUTE || SmallAccented(s[i])
  }

  lemma SmallComposeSmall(x: char)
    requires Accented(x).Some? && !UpperLetter(x) && LowerLookalike(x).None?
    ensures SmallAccented(Accented(x).value)
  {
  }

  lemma CapitalsComposeCapitals(x: char)
    requires Accented(x).Some? && (UpperLetter(x) || LowerLookalike(x).Some?)
    ensures LowerAccented(Accented(x).value).Some?
  {
  }

  lemma CapitalsFoldSmall(c: char)
    requires LowerAccented(c).Some?
    ensures CaseFold(c) == LowerAccented(c).value && SmallAccented(CaseFold(c))
  {
  }

  lemma SmallStaysSmall(c: char)
    requires SmallAccented(c)
    ensures CaseFold(c) == c
  {
  }

  lemma ComposedFoldsSmall(x: char)
    requires Accented(x).Some?
    ensures SmallAccented(CaseFold(Accented(x).value))
  {
    if UpperLetter(x) || LowerLookalike(x).Some? {
      CapitalsComposeCapitals(x);
      CapitalsFoldSmall(Accented(x).value);
    } else {
      SmallComposeSmall(x);
      SmallStaysSmall(Accented(x).value);
    }
  }

  lemma SmallAccentedIsNoLookalike(c: char)
    requires SmallAccented(c)
    ensures Lookalike(c).None? && !ZeroWidth(c)
  {
  }

  lemma ComposedLeaves(x: char)
    requires Accented(x).Some?
    ensures FoldedWithAccents(PassStep(Accented(x).value))
  {
    ComposedFoldsSmall(x);
    SmallAccentedIsNoLookalike(CaseFold(Accented(x).value));
  }

  lemma CapitalAccentedLeaves(c: char)
    requires LowerAccented(c).Some?
    ensures FoldedWithAccents(FoldStep(c))
  {
  }

  lemma AccentLeaves()
    ensures FoldedWithAccents(FoldStep(ACUTE))
  {
  }

  lemma ComposedIsCompatible(x: char)
    requires Accented(x).Some?
    ensures Compatibility(Accented(x).value) == Accented(x).value
  {
  }

  lemma StepLeaves(c: char)
    requires InAccentedAlphabet(c)
    ensures FoldedWithAccents(FoldStep(c))
  {
    if InAlphabet(c) {
      StepIsFolded(c);
    } else if c == ACUTE {
      AccentLeaves();
    } else if LowerAccented(c).Some? {
      CapitalAccentedLeaves(c);
    } else {
      var x :| Accented(x) == Some(c);
      ComposedIsCompatible(x);
      ComposedLeaves(x);
    }
  }

  /** So `SmallAccented` misses no letter that `\w` could meet in folded text. */
  lemma {:induction false} FoldLeavesAccents(s: string)
    requires OverAccentedAlphabet(s)
    ensures FoldedWithAccents(Fold(s))
  {
    if s == [] {
    } else if |s| >= 2 && s[1] == ACUTE && Accented(Compatibility(s[0])).Some? {
      assert s == [s[0], ACUTE] + s[2..];
      ComposedPair(s[0], s[2..]);
      ComposedLeaves(Compatibility(s[0]));
      FoldLeavesAccents(s[2..]);
    } else {
      assert s == [s[0]] + s[1..];
      FoldAppend([s[0]], s[1..]);
      FoldOfOne(s[0]);
      StepLeaves(s[0]);
      FoldLeavesAccents(s[1..]);
    }
  }

  lemma {:induction false} FoldedIsFixed(s: string)
    requires Folded(s)
    ensures Fold(s) == s
  {
    if s == [] {
    } else {
      FoldCons(s);
      FoldedStep(s[0]);
      FoldedIsFixed(s[1..]);
    }
  }

  lemma FoldIdempotent(s: string)
    requires OverAlphabet(s)
    ensures Fold(Fold(s)) == Fold(s)
  {
    FoldLeavesLowerAscii(s);
    FoldedIsFixed(Fold(s));
  }

  // --- canonical form ---------------------------------------------------------

  /** Every run of other characters becomes one space; `inRun` says one was just written. */
  function CollapseRuns(s: string, inRun: bool): string {
    if s == [] then []
    else if Alphanumeric(s[0]) then [s[0]] + CollapseRuns(s[1..], false)
    else (if inRun then [] else " ") + CollapseRuns(s[1..], true)
  }

  function StripLeft(s: string): string {
    if s != [] && s[0] == ' ' then StripLeft(s[1..]) else s
  }

  function StripRight(s: string): string {
    if s != [] && s[|s| - 1] == ' ' then StripRight(s[..|s| - 1]) else s
  }

  function Canonicalize(folded: string): string {
    StripRight(StripLeft(CollapseRuns(folded, false)))
  }

  function Despace(s: string): string {
    if s == [] then [] else (if s[0] == ' ' then [] else [s[0]]) + Despace(s[1..])
  }

  /** The letters and digits alone. */
  function AlphanumericsOf(s: string): string {
    if s == [] then [] else (if Alphanumeric(s[0]) then [s[0]] else []) + AlphanumericsOf(s[1..])
  }

  /** Words of letters and digits, one space between neighbours, none at either end. */
  predicate Canonical(s: string) {
    && (forall i :: 0 <= i < |s| ==> 'a' <= s[i] <= 'z' || '0' <= s[i] <= '9' || s[i] == ' ')
    && (forall i :: 0 <= i < |s| - 1 ==> s[i] != ' ' || s[i + 1] != ' ')
    && (s != [] ==> s[0] != ' ' && s[|s| - 1] != ' ')
  }

  predicate Spaced(s: string) {
    && (forall i :: 0 <= i < |s| ==> Alphanumeric(s[i]) || s[i] == ' ')
    && (forall i :: 0 <= i < |s| - 1 ==> s[i] != ' ' || s[i + 1] != ' ')
  }

  lemma SpacedCons(c: char, rest: string)
    requires Spaced(rest) && (Alphanumeric(c) || (c == ' ' && (rest != [] ==> rest[0] != ' ')))
    ensures Spaced([c] + rest)
    ensures Despace([c] + rest) == (if c == ' ' then [] else [c]) + Despace(rest)
  {
    assert ([c] + rest)[1..] == rest;
    forall i | 0 <= i < |[c] + rest| - 1 ensures ([c] + rest)[i] != ' ' || ([c] + rest)[i + 1] != ' ' {
      assert i > 0 ==> ([c] + rest)[i] == rest[i - 1];
    }
  }

  lemma {:induction false} CollapseIsSpaced(s: string, inRun: bool)
    ensures Spaced(CollapseRuns(s, inRun))
    ensures inRun && CollapseRuns(s, inRun) != [] ==> CollapseRuns(s, inRun)[0] != ' '
    ensures Despace(CollapseRuns(s, inRun)) == AlphanumericsOf(s)
  {
    if s == [] {
    } else {
      var rest := CollapseRuns(s[1..], !Alphanumeric(s[0]));
      CollapseIsSpaced(s[1..], !Alphanumeric(s[0]));
      if Alphanumeric(s[0]) {
        SpacedCons(s[0], rest);
      } else {
        SpacedCons(' ', rest);
        assert [] + rest == rest && [' '] + rest == " " + rest;
      }
    }
  }

  lemma {:induction false} StripLeftKeeps(s: string)
    requires Spaced(s)
    ensures Spaced(StripLeft(s)) && Despace(StripLeft(s)) == Despace(s)
    ensures StripLeft(s) != [] ==> StripLeft(s)[0] != ' '
  {
    if s == [] || s[0] != ' ' {
    } else {
      StripLeftKeeps(s[1..]);
    }
  }

  lemma {:induction false} DespaceAppend(s: string, c: char)
    ensures Despace(s + [c]) == Despace(s) + (if c == ' ' then [] else [c])
  {
    if s == [] {
      assert s + [c] == [c];
    } else {
      assert (s + [c])[1..] == s[1..] + [c];
      DespaceAppend(s[1..], c);
    }
  }

  lemma {:induction false} StripRightKeeps(s: string)
    requires Spaced(s) && (s != [] ==> s[0] != ' ')
    ensures Canonical(StripRight(s)) && Despace(StripRight(s)) == Despace(s)
  {
    if s == [] || s[|s| - 1] != ' ' {
    } else {
      assert s == s[..|s| - 1] + [' '];
      DespaceAppend(s[..|s| - 1], ' ');
      StripRightKeeps(s[..|s| - 1]);
    }
  }

  /** The canonical form has its shape and keeps exactly the letters and digits, in order. */
  lemma CanonicalizeMeaning(s: string)
    ensures Canonical(Canonicalize(s))
    ensures Despace(Canonicalize(s)) == AlphanumericsOf(s)
  {
    CollapseIsSpaced(s, false);
    StripLeftKeeps(CollapseRuns(s, false));
    StripRightKeeps(StripLeft(CollapseRuns(s, false)));
  }

  lemma {:induction false} SpacedIsCollapsed(s: string, inRun: bool)
    requires Spaced(s) && (inRun && s != [] ==> s[0] != ' ')
    ensures CollapseRuns(s, inRun) == s
  {
    if s == [] {
    } else {
      SpacedIsCollapsed(s[1..], s[0] == ' ');
    }
  }

  lemma CanonicalIsFixed(s: string)
    requires Canonical(s)
    ensures Canonicalize(s) == s
  {
    SpacedIsCollapsed(s, false);
  }

  lemma {:induction false} DespaceShortens(s: string)
    ensures |Despace(s)| <= |s|
  {
    if s == [] {
    } else {
      DespaceShortens(s[1..]);
    }
  }
}
