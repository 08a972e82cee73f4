/** Bodies that fold to one letter or digit, or to none, are too short for every guardrail. */
module ShortTexts {
  import opened Common
  import opened TextFolding
  import opened Guardrails
  import GuardrailAccents

  predicate Short(s: string) { |s| <= 1 }

  lemma {:induction false} NoPhraseInShort(phrases: seq<string>, text: string)
    requires Short(text) && forall i :: 0 <= i < |phrases| ==> |phrases[i]| >= 2
    ensures FirstPhraseIn(phrases, text).None?
  {
    if phrases == [] {
    } else {
      NoPhraseInShort(phrases[1..], text);
    }
  }

  lemma {:induction false} NoPrefixOfShort(prefixes: seq<string>, token: string)
    requires Short(token) && forall i :: 0 <= i < |prefixes| ==> |prefixes[i]| >= 2
    ensures FirstPrefixOf(prefixes, token).None?
  {
    if prefixes == [] {
    } else {
      NoPrefixOfShort(prefixes[1..], token);
    }
  }

  lemma {:induction false} NoTokenIsShort(tokens: seq<string>)
    requires forall i :: 0 <= i < |tokens| ==> Short(tokens[i])
    ensures FirstLegalToken(tokens).None? && FirstHostileWord(tokens).None?
  {
    if tokens == [] {
    } else {
      NoPrefixOfShort(LEGAL_PREFIXES, tokens[0]);
      NoTokenIsShort(tokens[1..]);
    }
  }

  lemma WordsOfShort(text: string)
    requires Short(text)
    ensures forall i :: 0 <= i < |Words(text, [])| ==> Short(Words(text, [])[i])
  {
    if text == [] {
    } else {
      assert text[1..] == [];
      assert Words([], [text[0]]) == [[text[0]]] && Words([], []) == [];
    }
  }

  lemma ShortIsNoKeyword(text: string, letters: string)
    requires Short(text) && Short(letters)
    ensures !NearSomeKeyword(text, letters, OPT_OUT_KEYWORDS)
  {
    ShortIsFar(text);
    ShortIsFar(letters);
    forall i | 0 <= i < |OPT_OUT_KEYWORDS|
      ensures !Near(text, OPT_OUT_KEYWORDS[i]) && !Near(letters, Despace(OPT_OUT_KEYWORDS[i]))
    {
      if i < 8 { DespacedWord(i); }
      else if i == 8 { DespacedPhrase(); }
      else { DespacedRequest(); }
    }
  }

  lemma ShortIsFar(text: string)
    requires Short(text)
    ensures forall i :: 0 <= i < |OPT_OUT_KEYWORDS| ==> !Near(text, OPT_OUT_KEYWORDS[i])
    ensures !Near(text, "optout") && !Near(text, "removeme")
  {
    forall i | 0 <= i < |OPT_OUT_KEYWORDS| ensures !Near(text, OPT_OUT_KEYWORDS[i]) {
      GuardrailAccents.OtherLength(text, OPT_OUT_KEYWORDS[i]);
    }
    GuardrailAccents.OtherLength(text, "optout");
    GuardrailAccents.OtherLength(text, "removeme");
  }

  lemma ShortIsNoOptOut(canon: string)
    requires Short(canon)
    ensures MatchOptOut(canon).None?
  {
    DespaceShortens(canon);
    ShortIsNoKeyword(canon, Despace(canon));
    FirstKeywordFound(canon, OPT_OUT_KEYWORDS);
    GuardrailAccents.ShortIsNoImperative(canon);
  }

  lemma ShortIsNothingElse(canon: string, folded: string)
    requires Short(canon)
    ensures MatchLegal(canon, Words(canon, [])).None? && MatchHostility(canon, Words(canon, [])).None?
    ensures MatchBounceOrAutoreply(PythonWord, canon, folded, false).None?
  {
    WordsOfShort(canon);
    NoTokenIsShort(Words(canon, []));
    NoPhraseInShort(LEGAL_PHRASES, canon);
    NoPhraseInShort(HOSTILITY_PHRASES, canon);
    NoPhraseInShort(AUTOREPLY_MARKERS, canon);
  }

  /** Such a body proceeds, unless the thread already had its automatic replies. */
  lemma ShortProceeds(body: string)
    requires Short(Canonicalize(Fold(body)))
    ensures Judge(body, false, false) == Verdict(Proceed, None, None)
  {
    ShortIsNoOptOut(Canonicalize(Fold(body)));
    ShortIsNothingElse(Canonicalize(Fold(body)), Fold(body));
  }
}
