/**
 * Email canonicalization (cleansing/normalize.py): NFKC, zero-width removal, strip, case fold,
 * plus-tag removal. Normalizing a canonical address again composes it and does nothing else: it is its
 * own canonical form exactly when no letter in it stands right before an accent, a pair that zero-width
 * removal after NFKC can leave behind, and after a second time nothing changes any more.
 */
module EmailNormalization {
  import opened Common
  import opened TextFolding

  function TrimLeft(s: string): string { if s != [] && White(s[0]) then TrimLeft(s[1..]) else s }

  function TrimRight(s: string): string {
    if s != [] && White(s[|s| - 1]) then TrimRight(s[..|s| - 1]) else s
  }

  function Clean(raw: string): string { TrimRight(TrimLeft(DropZeroWidth(Nfkc(raw)))) }

  /** Position of the last '@', or of the first '+'. */
  function LastAt(s: string): Option<nat> {
    if s == [] then None
    else if s[|s| - 1] == '@' then Some(|s| - 1)
    else LastAt(s[..|s| - 1])
  }

  function FirstPlus(s: string): nat {
    if s == [] || s[0] == '+' then 0 else 1 + FirstPlus(s[1..])
  }

  /** The address a folded text holds: the part before its last '@' loses everything from its first '+'. */
  function Address(text: string): Option<string> {
    if text == [] || (exists i :: 0 <= i < |text| && White(text[i])) then None
    else
      match LastAt(text)
      case None => None
      case Some(at) =>
        LastAtPosition(text);
        PlusPosition(text[..at]);
        var local, domain := text[..FirstPlus(text[..at])], text[at + 1..];
        if domain == [] || '.' !in domain || local == [] then None else Some(local + ['@'] + domain)
  }

  function NormalizeEmail(raw: string): Option<string> { Address(MapText(CaseFold, Clean(raw))) }

  lemma {:induction false} LastAtPosition(s: string)
    ensures LastAt(s).Some? ==> LastAt(s).value < |s| && s[LastAt(s).value] == '@' && '@' !in s[LastAt(s).value + 1..]
    ensures LastAt(s).None? ==> '@' !in s
  {
    if s == [] {
    } else {
      var n := |s| - 1;
      if s[n] != '@' {
        LastAtPosition(s[..n]);
        if LastAt(s).Some? {
          assert s[LastAt(s).value + 1..] == s[..n][LastAt(s).value + 1..] + [s[n]];
        }
      }
    }
  }

  lemma {:induction false} LastAtIs(s: string, at: nat)
    requires at < |s| && s[at] == '@' && '@' !in s[at + 1..]
    ensures LastAt(s) == Some(at)
  {
    var n := |s| - 1;
    if at == n {
    } else {
      assert s[at + 1..][n - at - 1] == s[n];
      assert s[..n][at + 1..] == s[at + 1..][..n - at - 1];
      LastAtIs(s[..n], at);
    }
  }

  lemma {:induction false} PlusPosition(s: string)
    ensures FirstPlus(s) <= |s| && '+' !in s[..FirstPlus(s)]
  {
    if s == [] || s[0] == '+' {
    } else {
      PlusPosition(s[1..]);
      assert s[..FirstPlus(s)] == [s[0]] + s[1..][..FirstPlus(s) - 1];
    }
  }

  lemma {:induction false} NoPlusIsWhole(s: string)
    requires '+' !in s
    ensures FirstPlus(s) == |s|
  {
    if s == [] {
    } else {
      NoPlusIsWhole(s[1..]);
    }
  }

  // --- settled characters: nothing left to fold, drop or strip ------------------------

  predicate Settled(c: char) { Compatibility(c) == c && CaseFold(c) == c && !ZeroWidth(c) && !White(c) }

  predicate AllSettled(s: string) { forall i :: 0 <= i < |s| ==> Settled(s[i]) }

  predicate Compatible(s: string) { forall i :: 0 <= i < |s| ==> Compatibility(s[i]) == s[i] && !ZeroWidth(s[i]) }

  lemma CompatibilitySettles(c: char)
    ensures Compatibility(Compatibility(c)) == Compatibility(c)
  {
  }

  lemma CaseFoldSettles(c: char)
    requires Compatibility(c) == c && !ZeroWidth(c)
    ensures CaseFold(CaseFold(c)) == CaseFold(c) && Compatibility(CaseFold(c)) == CaseFold(c) && !ZeroWidth(CaseFold(c))
  {
    CaseFoldTwice(c);
    CaseFoldIsCompatible(c);
  }

  lemma LookalikeFoldsOnce(c: char)
    requires LowerLookalike(c).Some?
    ensures CaseFold(CaseFold(c)) == CaseFold(c)
  {
  }

  lemma CaseFoldTwice(c: char)
    ensures CaseFold(CaseFold(c)) == CaseFold(c)
  {
    if LowerLookalike(c).Some? {
      LookalikeFoldsOnce(c);
    } else if LowerAccented(c).Some? {
      CapitalsFoldSmall(c);
      SmallStaysSmall(CaseFold(c));
    }
  }

  lemma CaseFoldIsCompatible(c: char)
    requires Compatibility(c) == c && !ZeroWidth(c)
    ensures Compatibility(CaseFold(c)) == CaseFold(c) && !ZeroWidth(CaseFold(c))
  {
  }

  lemma {:induction false} DroppingLeavesCompatible(s: string)
    requires forall i :: 0 <= i < |s| ==> Compatibility(s[i]) == s[i]
    ensures Compatible(DropZeroWidth(s))
  {
    if s == [] {
    } else {
      DroppingLeavesCompatible(s[1..]);
    }
  }

  lemma {:induction false} TrimmingLeavesCompatible(s: string)
    requires Compatible(s)
    ensures Compatible(TrimLeft(s)) && Compatible(TrimRight(s))
    decreases |s|
  {
    if s == [] {
    } else {
      TrimmingLeavesCompatible(s[1..]);
      TrimmingLeavesCompatible(s[..|s| - 1]);
    }
  }

  /** What composition leaves: characters that were there, and letters with their accent. */
  lemma {:induction false} ComposedCharacters(s: string)
    ensures |Compose(s)| <= |s|
    ensures forall c <- Compose(s) :: c in s || exists d <- s :: Accented(d) == Some(c)
  {
    if s == [] {
    } else if |s| >= 2 && PairAt(s, 0) {
      ComposedCharacters(s[2..]);
      assert Compose(s) == [Accented(s[0]).value] + Compose(s[2..]);
    } else {
      ComposedCharacters(s[1..]);
      assert Compose(s) == [s[0]] + Compose(s[1..]);
    }
  }

  lemma AccentedIsCompatible(d: char)
    requires Accented(d).Some?
    ensures Compatibility(Accented(d).value) == Accented(d).value && !ZeroWidth(Accented(d).value)
  {
  }

  lemma NfkcIsCompatible(raw: string)
    ensures forall i :: 0 <= i < |Nfkc(raw)| ==> Compatibility(Nfkc(raw)[i]) == Nfkc(raw)[i]
  {
    var mapped, text := MapText(Compatibility, raw), Nfkc(raw);
    forall i | 0 <= i < |mapped| ensures Compatibility(mapped[i]) == mapped[i] { CompatibilitySettles(raw[i]); }
    ComposedCharacters(mapped);
    forall i | 0 <= i < |text| ensures Compatibility(text[i]) == text[i] {
      assert text[i] in text;
      if text[i] !in mapped {
        var d :| d in mapped && Accented(d) == Some(text[i]);
        AccentedIsCompatible(d);
      }
    }
  }

  lemma CleanIsCompatible(raw: string)
    ensures Compatible(Clean(raw))
  {
    NfkcIsCompatible(raw);
    DroppingLeavesCompatible(Nfkc(raw));
    TrimmingLeavesCompatible(DropZeroWidth(Nfkc(raw)));
    TrimmingLeavesCompatible(TrimLeft(DropZeroWidth(Nfkc(raw))));
  }

  lemma {:induction false} NothingToDrop(s: string)
    requires forall i :: 0 <= i < |s| ==> !ZeroWidth(s[i])
    ensures DropZeroWidth(s) == s
  {
    if s == [] {
    } else {
      NothingToDrop(s[1..]);
    }
  }

  lemma AddressCharacters(text: string)
    requires Address(text).Some?
    ensures forall c <- Address(text).value :: c in text
  {
    LastAtPosition(text);
    var at := LastAt(text).value;
    PlusPosition(text[..at]);
  }

  lemma AddressOfAddress(local: string, domain: string)
    requires '+' !in local && '@' !in domain && local != [] && '.' in domain
    requires forall i :: 0 <= i < |local + ['@'] + domain| ==> !White((local + ['@'] + domain)[i])
    ensures Address(local + ['@'] + domain) == Some(local + ['@'] + domain)
  {
    var address := local + ['@'] + domain;
    assert address[|local| + 1..] == domain;
    LastAtIs(address, |local|);
    assert address[..|local|] == local;
    NoPlusIsWhole(local);
  }

  /** An address has a local part without '+' and a domain without '@'. */
  lemma AddressParts(text: string) returns (local: string, domain: string, plus: nat, at: nat)
    requires Address(text).Some?
    ensures plus <= at < |text| && local == text[..plus] && domain == text[at + 1..]
    ensures Address(text).value == local + ['@'] + domain
    ensures '+' !in local && '@' !in domain && local != [] && '.' in domain
  {
    LastAtPosition(text);
    at := LastAt(text).value;
    PlusPosition(text[..at]);
    plus := FirstPlus(text[..at]);
    local, domain := text[..plus], text[at + 1..];
    assert text[..at][..plus] == local;
  }

  /** A canonical address consists of settled characters only. */
  lemma CanonicalIsSettled(raw: string)
    requires OverAccentedAlphabet(raw) && NormalizeEmail(raw).Some?
    ensures AllSettled(NormalizeEmail(raw).value)
  {
    var cleaned := Clean(raw);
    var text := MapText(CaseFold, cleaned);
    CleanIsCompatible(raw);
    forall i | 0 <= i < |text| ensures Settled(text[i]) {
      CaseFoldSettles(cleaned[i]);
      assert !White(text[i]);
    }
    AddressCharacters(text);
    var address := NormalizeEmail(raw).value;
    forall i | 0 <= i < |address| ensures Settled(address[i]) { assert address[i] in text; }
  }

  // --- the second time: composition, and nothing else ------------------------------------

  lemma {:induction false} ComposingShrinks(s: string)
    requires Composable(s)
    ensures |Compose(s)| < |s|
  {
    if PairAt(s, 0) {
      ComposedCharacters(s[2..]);
      assert Compose(s) == [Accented(s[0]).value] + Compose(s[2..]);
    } else {
      PairAtFront(s);
      ComposingShrinks(s[1..]);
      assert Compose(s) == [s[0]] + Compose(s[1..]);
    }
  }

  lemma ComposedLetterIsSettled(d: char)
    requires Settled(d) && Accented(d).Some?
    ensures Settled(Accented(d).value)
  {
    AccentedIsCompatible(d);
    SmallAccentedIsFolded(d);
    AccentedIsNotWhite(d);
  }

  lemma ComposedIsSettled(s: string)
    requires AllSettled(s)
    ensures AllSettled(Compose(s))
  {
    ComposedCharacters(s);
    var t := Compose(s);
    forall i | 0 <= i < |t| ensures Settled(t[i]) {
      assert t[i] in t;
      if t[i] !in s {
        var d :| d in s && Accented(d) == Some(t[i]);
        ComposedLetterIsSettled(d);
      }
    }
  }

  lemma SettledIsComposed(s: string)
    requires AllSettled(s)
    ensures MapText(CaseFold, Clean(s)) == Compose(s)
  {
    assert MapText(Compatibility, s) == s;
    ComposedIsSettled(s);
    NothingToDrop(Compose(s));
    assert Clean(s) == Compose(s);
    assert MapText(CaseFold, Compose(s)) == Compose(s);
  }

  /** A character that takes no accent and is none stays where it is. */
  lemma {:induction false} OthersStay(s: string, c: char)
    requires c in s && c != ACUTE && Accented(c).None?
    ensures c in Compose(s)
  {
    if |s| >= 2 && PairAt(s, 0) {
      assert Compose(s) == [Accented(s[0]).value] + Compose(s[2..]);
      OthersStay(s[2..], c);
    } else {
      assert Compose(s) == [s[0]] + Compose(s[1..]);
      if c == s[0] {
      } else {
        OthersStay(s[1..], c);
      }
    }
  }

  lemma MarksAreNotComposed(d: char)
    requires Accented(d).Some?
    ensures Accented(d).value != '@' && Accented(d).value != '+'
  {
  }

  lemma NoMarkAppears(s: string, c: char)
    requires c == '@' || c == '+'
    requires c !in s
    ensures c !in Compose(s)
  {
    ComposedCharacters(s);
    if c in Compose(s) {
      var d :| d in s && Accented(d) == Some(c);
      MarksAreNotComposed(d);
    }
  }

  lemma ComposedAddress(local: string, domain: string)
    ensures Compose(local + ['@'] + domain) == Compose(local) + ['@'] + Compose(domain)
  {
    assert local + ['@'] + domain == local + (['@'] + domain);
    ComposeAppend(local, ['@'] + domain);
    ComposeByOne(Accented, '@', domain);
    assert Compose(local) + (['@'] + Compose(domain)) == Compose(local) + ['@'] + Compose(domain);
  }

  lemma ComposedAddressIsAddress(local: string, domain: string)
    requires '+' !in local && '@' !in domain && local != [] && '.' in domain
    requires AllSettled(local + ['@'] + domain)
    ensures Address(Compose(local + ['@'] + domain)) == Some(Compose(local + ['@'] + domain))
  {
    ComposedIsSettled(local + ['@'] + domain);
    ComposedAddress(local, domain);
    NoMarkAppears(local, '+');
    NoMarkAppears(domain, '@');
    OthersStay(domain, '.');
    AddressOfAddress(Compose(local), Compose(domain));
  }

  /** Normalizing a canonical address is composing it; no canonical address is unreadable. */
  lemma CanonicalIsComposed(raw: string)
    requires OverAccentedAlphabet(raw) && NormalizeEmail(raw).Some?
    ensures NormalizeEmail(NormalizeEmail(raw).value) == Some(Compose(NormalizeEmail(raw).value))
  {
    CanonicalIsSettled(raw);
    var local, domain, plus, at := AddressParts(MapText(CaseFold, Clean(raw)));
    SettledIsComposed(local + ['@'] + domain);
    ComposedAddressIsAddress(local, domain);
  }

  /**
   * A canonical address normalizes to itself exactly when it holds no letter right before an accent
   * the letter composes with.
   */
  lemma CanonicalIsNormalIff(raw: string)
    requires OverAccentedAlphabet(raw) && NormalizeEmail(raw).Some?
    ensures NormalizeEmail(NormalizeEmail(raw).value) == NormalizeEmail(raw) <==> !Composable(NormalizeEmail(raw).value)
  {
    var canon := NormalizeEmail(raw).value;
    CanonicalIsComposed(raw);
    if Composable(canon) {
      ComposingShrinks(canon);
    } else {
      ComposeStable(canon);
    }
  }

  lemma ComposedOnceForAll(s: string)
    ensures Compose(Compose(s)) == Compose(s)
  {
    forall i | 0 <= i < |s| && Accented(s[i]).Some? ensures Accented(Accented(s[i]).value).None? {
      AccentedTakesNoAccent(s[i]);
    }
    ComposeLeavesNoPair(s);
    ComposeStable(Compose(s));
  }

  /** Whatever the address, what two rounds leave a third leaves alone. */
  lemma TwoRoundsSettle(raw: string)
    requires OverAccentedAlphabet(raw) && NormalizeEmail(raw).Some?
    ensures var second := NormalizeEmail(NormalizeEmail(raw).value);
            second.Some? && NormalizeEmail(second.value) == second
  {
    CanonicalIsComposed(raw);
    CanonicalIsSettled(raw);
    var local, domain, plus, at := AddressParts(MapText(CaseFold, Clean(raw)));
    var second := Compose(local + ['@'] + domain);
    ComposedIsSettled(local + ['@'] + domain);
    ComposedOnceForAll(local + ['@'] + domain);
    SettledIsComposed(second);
    ComposedAddressIsAddress(local, domain);
  }

  // --- tags ---------------------------------------------------------------------------------

  lemma {:induction false} FirstPlusIs(local: string, rest: string)
    requires '+' !in local
    ensures FirstPlus(local + ['+'] + rest) == |local|
  {
    if local == [] {
    } else {
      assert (local + ['+'] + rest)[1..] == local[1..] + ['+'] + rest;
      FirstPlusIs(local[1..], rest);
    }
  }

  lemma TagIsCut(local: string, tag: string, domain: string)
    requires '+' !in local && '@' !in domain && local != [] && '.' in domain
    requires AllSettled(local + ['+'] + tag + ['@'] + domain)
    ensures Address(local + ['+'] + tag + ['@'] + domain) == Some(local + ['@'] + domain)
  {
    var head := local + ['+'] + tag;
    var text := head + ['@'] + domain;
    assert text[|head| + 1..] == domain;
    LastAtIs(text, |head|);
    FirstPlusIs(local, tag);
    assert text[..|head|] == head && text[..|local|] == local;
    assert forall i :: 0 <= i < |text| ==> Settled(text[i]);
  }

  /** A tag makes no difference: what stands from the first '+' to the last '@' is dropped, whatever it holds. */
  lemma PlusTagIsDropped(local: string, tag: string, domain: string)
    requires '+' !in local && '@' !in domain && local != [] && '.' in domain
    requires AllSettled(local + ['+'] + tag + ['@'] + domain) && !Composable(local + ['+'] + tag + ['@'] + domain)
    ensures NormalizeEmail(local + ['+'] + tag + ['@'] + domain) == Some(local + ['@'] + domain)
  {
    var raw := local + ['+'] + tag + ['@'] + domain;
    SettledIsComposed(raw);
    ComposeStable(raw);
    TagIsCut(local, tag, domain);
  }

  // --- space around an address -------------------------------------------------------------

  predicate AllWhite(s: string) { forall i :: 0 <= i < |s| ==> White(s[i]) }

  lemma WhiteIsCompatible(c: char)
    requires White(c)
    ensures White(Compatibility(c)) && !ZeroWidth(Compatibility(c)) && Accented(Compatibility(c)).None?
    ensures Compatibility(c) != ACUTE
  {
  }

  lemma {:induction false} TrimLeftWhite(p: string, rest: string)
    requires AllWhite(p) && rest != [] && !White(rest[0])
    ensures TrimLeft(p + rest) == rest
  {
    if p == [] {
      assert p + rest == rest;
    } else {
      assert (p + rest)[1..] == p[1..] + rest;
      TrimLeftWhite(p[1..], rest);
    }
  }

  lemma {:induction false} TrimRightWhite(rest: string, q: string)
    requires AllWhite(q) && rest != [] && !White(rest[|rest| - 1])
    ensures TrimRight(rest + q) == rest
  {
    if q == [] {
      assert rest + q == rest;
    } else {
      assert (rest + q)[..|rest + q| - 1] == rest + q[..|q| - 1];
      TrimRightWhite(rest, q[..|q| - 1]);
    }
  }

  lemma PaddedHasNoPair(p: string, text: string, q: string)
    requires AllSettled(text) && !Composable(text) && text != []
    requires forall i :: 0 <= i < |p| ==> Accented(p[i]).None?
    requires forall i :: 0 <= i < |q| ==> q[i] != ACUTE
    ensures !Composable(p + text + q)
  {
    var s := p + text + q;
    forall i | 0 <= i < |s| - 1 ensures !PairAt(s, i) {
      if i < |p| {
        assert s[i] == p[i];
      } else if i + 1 < |p| + |text| {
        assert !PairAt(text, i - |p|);
      } else {
        assert s[i + 1] == q[i + 1 - |p| - |text|];
      }
    }
  }

  /** White space as NFKC leaves it: nothing of it composes, is dropped or survives at an end. */
  predicate Padding(s: string) {
    AllWhite(s) && forall i :: 0 <= i < |s| ==> !ZeroWidth(s[i]) && Accented(s[i]).None? && s[i] != ACUTE
  }

  lemma WhiteIsPadding(p: string)
    requires AllWhite(p)
    ensures Padding(MapText(Compatibility, p))
  {
    forall i | 0 <= i < |p| { WhiteIsCompatible(p[i]); }
  }

  lemma PaddedStays(a: string, text: string, b: string)
    requires Padding(a) && Padding(b) && AllSettled(text) && !Composable(text) && text != []
    ensures DropZeroWidth(Compose(a + text + b)) == a + text + b
  {
    PaddedHasNoPair(a, text, b);
    ComposeStable(a + text + b);
    NothingToDrop(a + text + b);
  }

  lemma PaddedTrims(a: string, text: string, b: string)
    requires AllWhite(a) && AllWhite(b) && AllSettled(text) && text != []
    ensures TrimRight(TrimLeft(a + text + b)) == text
  {
    assert Settled(text[0]) && Settled(text[|text| - 1]);
    assert a + text + b == a + (text + b);
    TrimLeftWhite(a, text + b);
    TrimRightWhite(text, b);
  }

  lemma PaddedMaps(p: string, text: string, q: string)
    requires AllSettled(text)
    ensures MapText(Compatibility, p + text + q) == MapText(Compatibility, p) + text + MapText(Compatibility, q)
  {
    MapAppend(Compatibility, p + text, q);
    MapAppend(Compatibility, p, text);
    assert MapText(Compatibility, text) == text;
  }

  lemma PaddingIsTrimmed(p: string, text: string, q: string)
    requires AllSettled(text) && !Composable(text) && text != [] && AllWhite(p) && AllWhite(q)
    ensures Clean(p + text + q) == text
  {
    var a, b := MapText(Compatibility, p), MapText(Compatibility, q);
    WhiteIsPadding(p);
    WhiteIsPadding(q);
    PaddedMaps(p, text, q);
    PaddedStays(a, text, b);
    PaddedTrims(a, text, b);
  }

  lemma SettledFolds(text: string)
    requires AllSettled(text)
    ensures MapText(CaseFold, text) == text
  {
  }

  lemma CleanDecides(raw: string, text: string)
    requires Clean(raw) == text && AllSettled(text)
    ensures NormalizeEmail(raw) == Address(text)
  {
    SettledFolds(text);
  }

  /** White space before and after an address makes no difference. */
  lemma OuterSpaceIsDropped(p: string, text: string, q: string)
    requires AllSettled(text) && !Composable(text) && text != [] && AllWhite(p) && AllWhite(q)
    ensures NormalizeEmail(p + text + q) == Address(text)
  {
    PaddingIsTrimmed(p, text, q);
    CleanDecides(p + text + q, text);
  }

  // --- which inputs leave a pair behind -----------------------------------------------------

  lemma TrimmingSlices(s: string) returns (i: nat, j: nat)
    ensures i <= j <= |s| && TrimRight(TrimLeft(s)) == s[i..j]
  {
    var left := TrimLeftSlices(s);
    var right := TrimRightSlices(s[left..]);
    i, j := left, left + right;
    assert s[left..][..right] == s[i..j];
  }

  lemma {:induction false} TrimLeftSlices(s: string) returns (i: nat)
    ensures i <= |s| && TrimLeft(s) == s[i..]
  {
    if s == [] || !White(s[0]) {
      i := 0;
    } else {
      var k := TrimLeftSlices(s[1..]);
      i := k + 1;
      assert s[1..][k..] == s[i..];
    }
  }

  lemma {:induction false} TrimRightSlices(s: string) returns (j: nat)
    ensures j <= |s| && TrimRight(s) == s[..j]
  {
    if s == [] || !White(s[|s| - 1]) {
      j := |s|;
    } else {
      j := TrimRightSlices(s[..|s| - 1]);
      assert s[..|s| - 1][..j] == s[..j];
    }
  }

  lemma PairInSlice(s: string, i: nat, j: nat)
    requires i <= j <= |s| && Composable(s[i..j])
    ensures Composable(s)
  {
    var k :| 0 <= k < |s[i..j]| - 1 && PairAt(s[i..j], k);
    assert PairAt(s, i + k);
  }

  lemma CaseFoldingMakesNoPair(s: string)
    requires Composable(MapText(CaseFold, s))
    ensures Composable(s)
  {
    var t := MapText(CaseFold, s);
    var k :| 0 <= k < |t| - 1 && PairAt(t, k);
    OnlyAccentsFoldToAccents(s[k + 1]);
    FoldedLetterWasLetter(s[k]);
    assert PairAt(s, k);
  }

  lemma OnlyAccentsFoldToAccents(c: char)
    ensures CaseFold(c) == ACUTE <==> c == ACUTE
  {
  }

  lemma LatinWasLetter(c: char)
    requires UpperLetter(c) && Accented(CaseFold(c)).Some?
    ensures Accented(c).Some?
  {
  }

  lemma LookalikeWasLetter(c: char)
    requires LowerLookalike(c).Some? && Accented(LowerLookalike(c).value).Some?
    ensures Accented(c).Some?
  {
  }

  lemma SmallAccentedTakesNone(c: char)
    requires SmallAccented(c)
    ensures Accented(c).None?
  {
  }

  lemma FoldedLetterWasLetter(c: char)
    requires Accented(CaseFold(c)).Some?
    ensures Accented(c).Some?
  {
    if UpperLetter(c) {
      LatinWasLetter(c);
    } else if LowerLookalike(c).Some? {
      LookalikeWasLetter(c);
    } else if LowerAccented(c).Some? {
      CapitalsFoldSmall(c);
      SmallAccentedTakesNone(CaseFold(c));
    }
  }

  lemma PairInParts(local: string, domain: string)
    requires Composable(local + ['@'] + domain)
    ensures Composable(local) || Composable(domain)
  {
    var address := local + ['@'] + domain;
    var k :| 0 <= k < |address| - 1 && PairAt(address, k);
    if k + 1 < |local| {
      assert PairAt(local, k);
    } else {
      assert k > |local|;
      assert PairAt(domain, k - |local| - 1);
    }
  }

  lemma AddressMakesNoPair(text: string)
    requires Address(text).Some? && Composable(Address(text).value)
    ensures Composable(text)
  {
    var local, domain, plus, at := AddressParts(text);
    PairInParts(local, domain);
    assert local == text[0..plus] && domain == text[at + 1..|text|];
    if Composable(text[0..plus]) {
      PairInSlice(text, 0, plus);
    } else {
      PairInSlice(text, at + 1, |text|);
    }
  }

  /** Without a zero-width character NFKC has the last word: the canonical form is settled. */
  lemma NoZeroWidthSettles(raw: string)
    requires OverAccentedAlphabet(raw) && NormalizeEmail(raw).Some?
    requires forall i :: 0 <= i < |raw| ==> !ZeroWidth(raw[i])
    ensures NormalizeEmail(NormalizeEmail(raw).value) == NormalizeEmail(raw)
  {
    CanonicalIsNormalIff(raw);
    if Composable(NormalizeEmail(raw).value) {
      AddressMakesNoPair(MapText(CaseFold, Clean(raw)));
      CaseFoldingMakesNoPair(Clean(raw));
      NfkcMakesNoZeroWidth(raw);
      NothingToDrop(Nfkc(raw));
      var i, j := TrimmingSlices(Nfkc(raw));
      PairInSlice(Nfkc(raw), i, j);
      NfkcHasNoPair(raw);
    }
  }

  lemma NfkcMakesNoZeroWidth(raw: string)
    requires forall i :: 0 <= i < |raw| ==> !ZeroWidth(raw[i])
    ensures forall i :: 0 <= i < |Nfkc(raw)| ==> !ZeroWidth(Nfkc(raw)[i])
  {
    var mapped, text := MapText(Compatibility, raw), Nfkc(raw);
    forall i | 0 <= i < |mapped| ensures !ZeroWidth(mapped[i]) {}
    ComposedCharacters(mapped);
    forall i | 0 <= i < |text| ensures !ZeroWidth(text[i]) {
      assert text[i] in text;
      if text[i] !in mapped {
        var d :| d in mapped && Accented(d) == Some(text[i]);
        AccentedIsCompatible(d);
      }
    }
  }

  // --- inputs that do ----------------------------------------------------------------------

  /** An ordinary domain: settled characters, a dot, neither '@' nor an accent. */
  predicate PlainDomain(domain: string) {
    AllSettled(domain) && '.' in domain && '@' !in domain && ACUTE !in domain
  }

  lemma TailIsPlain(domain: string)
    requires PlainDomain(domain)
    ensures AllSettled(['@'] + domain) && ACUTE !in ['@'] + domain
    ensures Compose(['@'] + domain) == ['@'] + domain && DropZeroWidth(['@'] + domain) == ['@'] + domain
  {
    var tail := ['@'] + domain;
    assert Settled('@');
    assert forall i :: 0 < i < |tail| ==> tail[i] == domain[i - 1];
    NoAccentNoPair(tail);
    ComposeStable(tail);
    NothingToDrop(tail);
  }

  lemma CleanOf(raw: string, dropped: string)
    requires DropZeroWidth(Nfkc(raw)) == dropped && dropped != []
    requires !White(dropped[0]) && !White(dropped[|dropped| - 1])
    ensures Clean(raw) == dropped
  {
  }

  lemma ApartIsNormal(x: char, c: char, tail: string)
    requires Compatibility(x) == x && ZeroWidth(c) && AllSettled(tail) && ACUTE !in tail && Compose(tail) == tail
    ensures Nfkc([x] + ([c] + ([ACUTE] + tail))) == [x] + ([c] + ([ACUTE] + tail))
  {
    var raw, rest := [x] + ([c] + ([ACUTE] + tail)), [c] + ([ACUTE] + tail);
    AccentsDoNotCompose(c);
    AccentsDoNotCompose(ACUTE);
    forall i | 0 <= i < |raw| ensures Compatibility(raw[i]) == raw[i] {
      assert i >= 3 ==> raw[i] == tail[i - 3] && Settled(tail[i - 3]);
    }
    assert MapText(Compatibility, raw) == raw;
    AccentFirst(tail);
    ComposeByOne(Accented, c, [ACUTE] + tail);
    assert rest[0] == c != ACUTE;
    ComposeByOne(Accented, x, rest);
  }

  lemma AccentFirst(tail: string)
    requires Compose(tail) == tail && ACUTE !in tail
    ensures Compose([ACUTE] + tail) == [ACUTE] + tail
  {
    AccentsDoNotCompose(ACUTE);
    ComposeByOne(Accented, ACUTE, tail);
  }

  lemma ApartDrops(x: char, c: char, tail: string)
    requires !ZeroWidth(x) && ZeroWidth(c) && DropZeroWidth(tail) == tail
    ensures DropZeroWidth([x] + ([c] + ([ACUTE] + tail))) == [x] + ([ACUTE] + tail)
  {
    DropOne(ACUTE, tail);
    DropOne(c, [ACUTE] + tail);
    DropOne(x, [c] + ([ACUTE] + tail));
    assert [] + ([ACUTE] + tail) == [ACUTE] + tail;
  }

  lemma ApartCleans(x: char, c: char, tail: string)
    requires Settled(x) && ZeroWidth(c) && AllSettled(tail) && tail != [] && ACUTE !in tail
    requires Compose(tail) == tail && DropZeroWidth(tail) == tail
    ensures Clean([x] + ([c] + ([ACUTE] + tail))) == [x] + ([ACUTE] + tail)
  {
    ApartIsNormal(x, c, tail);
    ApartDrops(x, c, tail);
    assert Settled(tail[|tail| - 1]);
    CleanOf([x] + ([c] + ([ACUTE] + tail)), [x] + ([ACUTE] + tail));
  }

  lemma DropOne(c: char, rest: string)
    ensures DropZeroWidth([c] + rest) == (if ZeroWidth(c) then [] else [c]) + DropZeroWidth(rest)
  {
    assert ([c] + rest)[1..] == rest;
  }

  lemma TogetherComposes(x: char, tail: string)
    requires Compatibility(x) == x && Accented(x).Some? && AllSettled(tail) && Compose(tail) == tail
    ensures Nfkc([x] + ([ACUTE] + tail)) == [Accented(x).value] + tail
  {
    var raw := [x] + ([ACUTE] + tail);
    AccentsDoNotCompose(ACUTE);
    forall i | 0 <= i < |raw| ensures Compatibility(raw[i]) == raw[i] {
      assert i >= 2 ==> raw[i] == tail[i - 2] && Settled(tail[i - 2]);
    }
    assert MapText(Compatibility, raw) == raw && raw[2..] == tail;
  }

  lemma TogetherCleans(x: char, tail: string)
    requires Settled(x) && Accented(x).Some? && AllSettled(tail) && tail != []
    requires Compose(tail) == tail && DropZeroWidth(tail) == tail
    ensures Clean([x] + ([ACUTE] + tail)) == [Accented(x).value] + tail
  {
    var k := Accented(x).value;
    TogetherComposes(x, tail);
    AccentedIsCompatible(x);
    AccentedIsNotWhite(x);
    DropOne(k, tail);
    assert Settled(tail[|tail| - 1]);
    CleanOf([x] + ([ACUTE] + tail), [k] + tail);
  }

  lemma AccentedIsNotWhite(x: char)
    requires Accented(x).Some?
    ensures !White(Accented(x).value)
  {
  }

  lemma SmallAccentedIsFolded(x: char)
    requires Accented(x).Some? && CaseFold(x) == x
    ensures CaseFold(Accented(x).value) == Accented(x).value
  {
    FoldedIsNoCapital(x);
    SmallComposeSmall(x);
    SmallStaysSmall(Accented(x).value);
  }

  lemma FoldedIsNoCapital(x: char)
    requires CaseFold(x) == x
    ensures !UpperLetter(x) && LowerLookalike(x).None?
  {
  }

  lemma FoldedAddress(local: string, domain: string)
    requires local != [] && '+' !in local && PlainDomain(domain)
    requires forall i :: 0 <= i < |local| ==> CaseFold(local[i]) == local[i] && !White(local[i])
    ensures Address(MapText(CaseFold, local + (['@'] + domain))) == Some(local + (['@'] + domain))
  {
    var address := local + (['@'] + domain);
    TailIsPlain(domain);
    assert address == local + ['@'] + domain;
    forall i | 0 <= i < |address| ensures CaseFold(address[i]) == address[i] && !White(address[i]) {
      assert i >= |local| ==> address[i] == (['@'] + domain)[i - |local|] && Settled((['@'] + domain)[i - |local|]);
    }
    assert MapText(CaseFold, address) == address;
    AddressOfAddress(local, domain);
  }

  /**
   * For every letter that composes, every zero-width character and every ordinary domain: the address
   * kept for the first input is not the one that address is looked up under.
   */
  lemma ZeroWidthUnsettles(x: char, c: char, domain: string)
    requires Settled(x) && Accented(x).Some? && ZeroWidth(c) && PlainDomain(domain)
    requires InAlphabet(x) && OverAccentedAlphabet(domain)
    ensures NormalizeEmail([x] + ([c] + ([ACUTE] + (['@'] + domain)))) == Some([x, ACUTE] + (['@'] + domain))
    ensures NormalizeEmail([x, ACUTE] + (['@'] + domain)) == Some([Accented(x).value] + (['@'] + domain))
  {
    var tail := ['@'] + domain;
    TailIsPlain(domain);
    ApartCleans(x, c, tail);
    TogetherCleans(x, tail);
    assert [x] + ([ACUTE] + tail) == [x, ACUTE] + tail;
    LettersAreNoPlus(x);
    SmallAccentedIsFolded(x);
    AccentedIsNotWhite(x);
    FoldedAddress([x, ACUTE], domain);
    FoldedAddress([Accented(x).value], domain);
  }

  lemma LettersAreNoPlus(x: char)
    requires Accented(x).Some?
    ensures x != '+' && Accented(x).value != '+' && CaseFold(ACUTE) == ACUTE && !White(ACUTE)
  {
  }
}
