/**
 * The rules table read as a reader of the text would: words between spaces, phrases anywhere, codes
 * between characters that are no part of a word, two automatic replies in the thread. One theorem says
 * of every body, thread and channel which rule fires.
 */
module RuleBook {
  import opened Common
  import opened Strings
  import opened TextFolding
  import opened Guardrails
  import opened ErrorCodes
  import GuardrailAccents

  // --- words ---------------------------------------------------------------------------

  predicate WordStart(s: string, i: int) { i == 0 || (0 < i <= |s| && s[i - 1] == ' ') }

  predicate WordEnd(s: string, j: int) { j == |s| || (0 <= j < |s| && s[j] == ' ') }

  predicate WordAt(s: string, word: string, i: int) {
    OccursAt(word, s, i) && WordStart(s, i) && WordEnd(s, i + |word|)
  }

  /** The word stands in the text, between spaces or its ends. */
  predicate HasWord(s: string, word: string) { exists i | 0 <= i <= |s| - |word| :: WordAt(s, word, i) }

  predicate BeginsAt(s: string, stem: string, i: int) { OccursAt(stem, s, i) && WordStart(s, i) }

  /** Some word of the text begins with the stem. */
  predicate HasStem(s: string, stem: string) { exists i | 0 <= i <= |s| - |stem| :: BeginsAt(s, stem, i) }

  lemma SpaceFree(s: string)
    ensures ' ' !in s <==> forall k :: 0 <= k < |s| ==> s[k] != ' '
  {
  }

  lemma OnlyWord(s: string, word: string)
    requires ' ' !in s && word != []
    ensures HasWord(s, word) <==> s == word
  {
    SpaceFree(s);
    assert s[0..|s|] == s;
    if s == word { assert WordAt(s, word, 0); }
  }

  lemma WordAfterSpace(cur: string, rest: string, word: string, i: int)
    requires ' ' !in word && word != [] && i > |cur|
    ensures WordAt(cur + " " + rest, word, i) <==> WordAt(rest, word, i - |cur| - 1)
  {
    var s, n := cur + " " + rest, |cur| + 1;
    if 0 <= i <= |s| - |word| {
      assert s[i..i + |word|] == rest[i - n..i - n + |word|];
      assert i > n ==> s[i - 1] == rest[i - n - 1];
      assert i == n ==> s[i - 1] == ' ';
      assert i + |word| < |s| ==> s[i + |word|] == rest[i - n + |word|];
    }
  }

  lemma WordBeforeSpace(cur: string, rest: string, word: string, i: int)
    requires ' ' !in cur && ' ' !in word && word != [] && i <= |cur|
    ensures WordAt(cur + " " + rest, word, i) <==> i == 0 && word == cur
  {
    var s := cur + " " + rest;
    SpaceFree(cur);
    SpaceFree(word);
    assert s[|cur|] == ' ' && forall k :: 0 <= k < |cur| ==> s[k] == cur[k];
    assert s[0..|cur|] == cur;
    if OccursAt(word, s, i) {
      assert forall k :: 0 <= k < |word| ==> word[k] == s[i..i + |word|][k] == s[i + k];
    }
  }

  /** At the first space the text falls into a word and the rest. */
  lemma WordsSplit(cur: string, rest: string, word: string)
    requires ' ' !in cur && ' ' !in word && word != []
    ensures HasWord(cur + " " + rest, word) <==> word == cur || HasWord(rest, word)
  {
    var s, n := cur + " " + rest, |cur| + 1;
    if HasWord(s, word) {
      var i :| 0 <= i <= |s| - |word| && WordAt(s, word, i);
      if i < n { WordBeforeSpace(cur, rest, word, i); } else { WordAfterSpace(cur, rest, word, i); }
    }
    if word == cur {
      WordBeforeSpace(cur, rest, word, 0);
    } else if HasWord(rest, word) {
      var i :| 0 <= i <= |rest| - |word| && WordAt(rest, word, i);
      WordAfterSpace(cur, rest, word, i + n);
    }
  }

  /** The reference's split gives exactly the words that stand in the text. */
  lemma {:induction false} SplitMeaning(s: string, cur: string, word: string)
    requires ' ' !in cur
    ensures word in Words(s, cur) <==> word != [] && ' ' !in word && HasWord(cur + s, word)
  {
    if s == [] {
      assert cur + s == cur;
      if word != [] { OnlyWord(cur, word); }
    } else if s[0] == ' ' {
      SplitMeaning(s[1..], [], word);
      assert [] + s[1..] == s[1..] && cur + s == cur + " " + s[1..];
      if word != [] && ' ' !in word { WordsSplit(cur, s[1..], word); }
    } else {
      SplitMeaning(s[1..], cur + [s[0]], word);
      assert cur + [s[0]] + s[1..] == cur + s;
    }
  }

  /** The length of the word part from `i` on. */
  function WordLength(s: string, i: nat): (n: nat)
    requires i <= |s|
    ensures i + n <= |s| && WordEnd(s, i + n) && ' ' !in s[i..i + n]
    decreases |s| - i
  {
    if i == |s| || s[i] == ' ' then 0
    else
      var n := 1 + WordLength(s, i + 1);
      assert s[i..i + n] == [s[i]] + s[i + 1..i + n];
      n
  }

  lemma StemIsInItsWord(s: string, stem: string, i: nat)
    requires stem != [] && ' ' !in stem && BeginsAt(s, stem, i)
    ensures var word := s[i..i + WordLength(s, i)];
            stem <= word && word != [] && ' ' !in word && HasWord(s, word)
  {
    var n := WordLength(s, i);
    SpaceFree(stem);
    assert forall k :: 0 <= k < |stem| ==> stem[k] == s[i..i + |stem|][k] == s[i + k];
    assert n >= |stem|;
    assert s[i..i + n][..|stem|] == s[i..i + |stem|];
    assert WordAt(s, s[i..i + n], i);
  }

  lemma StandingIsSplit(s: string, word: string)
    requires word != [] && ' ' !in word && HasWord(s, word)
    ensures word in Words(s, [])
  {
    assert [] + s == s;
    SplitMeaning(s, [], word);
  }

  lemma StemHasItsWord(s: string, stem: string) returns (word: string)
    requires stem != [] && ' ' !in stem && HasStem(s, stem)
    ensures word in Words(s, []) && stem <= word
  {
    var i :| 0 <= i <= |s| - |stem| && BeginsAt(s, stem, i);
    word := s[i..i + WordLength(s, i)];
    StemIsInItsWord(s, stem, i);
    StandingIsSplit(s, word);
  }

  lemma WordHasItsStem(s: string, stem: string, word: string)
    requires word in Words(s, []) && stem <= word
    ensures HasStem(s, stem)
  {
    assert [] + s == s;
    SplitMeaning(s, [], word);
    var i :| 0 <= i <= |s| - |word| && WordAt(s, word, i);
    assert s[i..i + |stem|] == s[i..i + |word|][..|stem|];
    assert BeginsAt(s, stem, i);
  }

  // --- lists ------------------------------------------------------------------------------

  predicate HasAnyPhrase(s: string, phrases: seq<string>) {
    exists k | 0 <= k < |phrases| :: OccursIn(phrases[k], s)
  }

  predicate HasAnyWord(s: string, words: seq<string>) { exists k | 0 <= k < |words| :: HasWord(s, words[k]) }

  predicate HasAnyStem(s: string, stems: seq<string>) { exists k | 0 <= k < |stems| :: HasStem(s, stems[k]) }

  lemma {:induction false} PhraseFound(phrases: seq<string>, s: string)
    ensures FirstPhraseIn(phrases, s).Some? <==> HasAnyPhrase(s, phrases)
  {
    if phrases == [] {
    } else {
      PhraseFound(phrases[1..], s);
      assert phrases == [phrases[0]] + phrases[1..];
    }
  }

  lemma {:induction false} PrefixFound(prefixes: seq<string>, token: string)
    ensures FirstPrefixOf(prefixes, token).Some? <==> exists k | 0 <= k < |prefixes| :: prefixes[k] <= token
  {
    if prefixes == [] {
    } else {
      PrefixFound(prefixes[1..], token);
      assert prefixes == [prefixes[0]] + prefixes[1..];
    }
  }

  predicate LegalToken(token: string) { token in LEGAL_TOKENS || FirstPrefixOf(LEGAL_PREFIXES, token).Some? }

  lemma {:induction false} LegalTokenFound(tokens: seq<string>)
    ensures FirstLegalToken(tokens).Some? <==> exists token :: token in tokens && LegalToken(token)
  {
    if tokens == [] {
    } else {
      LegalTokenFound(tokens[1..]);
      assert tokens == [tokens[0]] + tokens[1..];
      assert LegalToken(tokens[0]) ==> tokens[0] in tokens;
    }
  }

  lemma {:induction false} HostileWordFound(tokens: seq<string>)
    ensures FirstHostileWord(tokens).Some? <==> exists token :: token in tokens && token in HOSTILITY_WORDS
  {
    if tokens == [] {
    } else {
      HostileWordFound(tokens[1..]);
      assert tokens == [tokens[0]] + tokens[1..];
    }
  }

  /** The lists hold words without spaces. */
  lemma ListsHoldWords()
    ensures forall k :: 0 <= k < |LEGAL_TOKENS| ==> LEGAL_TOKENS[k] != [] && ' ' !in LEGAL_TOKENS[k]
    ensures forall k :: 0 <= k < |LEGAL_PREFIXES| ==> LEGAL_PREFIXES[k] != [] && ' ' !in LEGAL_PREFIXES[k]
    ensures forall k :: 0 <= k < |HOSTILITY_WORDS| ==> HOSTILITY_WORDS[k] != [] && ' ' !in HOSTILITY_WORDS[k]
  {
  }

  lemma ListedWordStands(s: string, words: seq<string>)
    requires forall k :: 0 <= k < |words| ==> words[k] != [] && ' ' !in words[k]
    ensures HasAnyWord(s, words) <==> exists token :: token in Words(s, []) && token in words
  {
    assert [] + s == s;
    if HasAnyWord(s, words) {
      var k :| 0 <= k < |words| && HasWord(s, words[k]);
      SplitMeaning(s, [], words[k]);
      assert words[k] in words;
    }
    if token :| token in Words(s, []) && token in words {
      SplitMeaning(s, [], token);
      var k :| 0 <= k < |words| && words[k] == token;
    }
  }

  lemma ListedStemStands(s: string, stems: seq<string>)
    requires forall k :: 0 <= k < |stems| ==> stems[k] != [] && ' ' !in stems[k]
    ensures HasAnyStem(s, stems) <==> exists token :: token in Words(s, []) && FirstPrefixOf(stems, token).Some?
  {
    if HasAnyStem(s, stems) {
      var k :| 0 <= k < |stems| && HasStem(s, stems[k]);
      var token := StemHasItsWord(s, stems[k]);
      PrefixFound(stems, token);
    }
    if token :| token in Words(s, []) && FirstPrefixOf(stems, token).Some? {
      PrefixFound(stems, token);
      var k :| 0 <= k < |stems| && stems[k] <= token;
      WordHasItsStem(s, stems[k], token);
    }
  }

  // --- the rules on text ---------------------------------------------------------------------

  /** A threat: "report you" anywhere, a form of "sue" as a word, or a word with a legal stem. */
  predicate LegalThreat(canon: string) {
    HasAnyPhrase(canon, LEGAL_PHRASES) || HasAnyWord(canon, LEGAL_TOKENS) || HasAnyStem(canon, LEGAL_PREFIXES)
  }

  predicate Hostile(canon: string) {
    HasAnyPhrase(canon, HOSTILITY_PHRASES) || HasAnyWord(canon, HOSTILITY_WORDS)
  }

  lemma LegalMeaning(canon: string)
    ensures MatchLegal(canon, Words(canon, [])).Some? <==> LegalThreat(canon)
  {
    var tokens := Words(canon, []);
    ListsHoldWords();
    PhraseFound(LEGAL_PHRASES, canon);
    LegalTokenFound(tokens);
    ListedWordStands(canon, LEGAL_TOKENS);
    ListedStemStands(canon, LEGAL_PREFIXES);
    forall token | token in tokens
      ensures LegalToken(token) <==> token in LEGAL_TOKENS || FirstPrefixOf(LEGAL_PREFIXES, token).Some?
    {
    }
  }

  lemma HostilityMeaning(canon: string)
    ensures MatchHostility(canon, Words(canon, [])).Some? <==> Hostile(canon)
  {
    ListsHoldWords();
    PhraseFound(HOSTILITY_PHRASES, canon);
    HostileWordFound(Words(canon, []));
    ListedWordStands(canon, HOSTILITY_WORDS);
  }

  // --- codes ------------------------------------------------------------------------------------

  /** No part of a word touches the stretch from `i` to `j`. */
  predicate Fenced(s: string, i: int, j: int) {
    && 0 <= i <= j <= |s|
    && (i > 0 ==> !WordCharacter(s[i - 1])) && (j < |s| ==> !WordCharacter(s[j]))
  }

  /** 550 to 554, standing alone. */
  predicate SmtpCode(s: string, i: int) {
    Fenced(s, i, i + 3) && s[i] == '5' && s[i + 1] == '5' && s[i + 2] in ['0', '1', '2', '3', '4']
  }

  /** "5.", a digit, a dot and one to three digits, standing alone. */
  predicate DsnCode(s: string, i: int, n: int) {
    && 1 <= n <= 3 && Fenced(s, i, i + 4 + n)
    && s[i] == '5' && s[i + 1] == '.' && Digit(s[i + 2]) && s[i + 3] == '.' && AllDigits(s[i + 4..i + 4 + n])
  }

  predicate BounceCode(s: string) {
    || (exists i | 0 <= i <= |s| - 3 :: SmtpCode(s, i))
    || (exists i, n | 0 <= i <= |s| && 1 <= n <= 3 :: DsnCode(s, i, n))
  }

  lemma SmtpMeaning(s: string, i: nat)
    requires i <= |s|
    ensures SmtpCodeAt(PythonWord, s, i).Some? <==> SmtpCode(s, i)
  {
    if i + 3 <= |s| && s[i] == '5' && s[i + 1] == '5' && '0' <= s[i + 2] <= '4' {
      DigitIsWord(s, i);
      DigitIsWord(s, i + 2);
    }
  }

  lemma {:induction false} RunIs(s: string, i: nat, most: nat, n: nat)
    requires i + n <= |s| && n <= most && AllDigits(s[i..i + n]) && (i + n < |s| ==> !Digit(s[i + n]))
    ensures DigitRun(s, i, most) == n
    decreases n
  {
    if n == 0 {
    } else {
      assert s[i] == s[i..i + n][0];
      assert s[i + 1..i + n] == s[i..i + n][1..];
      RunIs(s, i + 1, most - 1, n - 1);
    }
  }

  lemma {:induction false} RunHoldsDigits(s: string, i: nat, most: nat)
    requires i <= |s|
    ensures AllDigits(s[i..i + DigitRun(s, i, most)])
    decreases most
  {
    if most == 0 || i == |s| || !Digit(s[i]) {
    } else {
      RunHoldsDigits(s, i + 1, most - 1);
      var n := DigitRun(s, i, most);
      assert s[i..i + n] == [s[i]] + s[i + 1..i + n];
    }
  }

  lemma DsnReadIsCode(s: string, i: nat)
    requires i <= |s| && DsnCodeAt(PythonWord, s, i).Some?
    ensures exists n | 1 <= n <= 3 :: DsnCode(s, i, n)
  {
    var n := DigitRun(s, i + 4, 3);
    RunHoldsDigits(s, i + 4, 3);
    RunIsDigits(s, i + 4, 3);
    DigitIsWord(s, i);
    DigitIsWord(s, i + 4 + n - 1);
    assert DsnCode(s, i, n);
  }

  lemma DsnCodeIsRead(s: string, i: nat, n: nat)
    requires DsnCode(s, i, n)
    ensures DsnCodeAt(PythonWord, s, i).Some?
  {
    assert i + 4 + n < |s| ==> !Digit(s[i + 4 + n]);
    RunIs(s, i + 4, 3, n);
    assert s[i + 4 + n - 1] == s[i + 4..i + 4 + n][n - 1];
    DigitIsWord(s, i);
    DigitIsWord(s, i + 4 + n - 1);
  }

  lemma SmtpFound(s: string)
    ensures HasCode(Smtp, s, 0) <==> exists i | 0 <= i <= |s| - 3 :: SmtpCode(s, i)
  {
    if HasCode(Smtp, s, 0) {
      var i :| 0 <= i <= |s| && CodeAt(PythonWord, Smtp, s, i).Some?;
      SmtpMeaning(s, i);
    }
    if i :| 0 <= i <= |s| - 3 && SmtpCode(s, i) {
      SmtpMeaning(s, i);
      assert CodeAt(PythonWord, Smtp, s, i).Some?;
    }
  }

  lemma DsnFound(s: string)
    ensures HasCode(Dsn, s, 0) <==> exists i, n | 0 <= i <= |s| && 1 <= n <= 3 :: DsnCode(s, i, n)
  {
    if HasCode(Dsn, s, 0) {
      var i :| 0 <= i <= |s| && CodeAt(PythonWord, Dsn, s, i).Some?;
      DsnReadIsCode(s, i);
    }
    if i, n :| 0 <= i <= |s| && 1 <= n <= 3 && DsnCode(s, i, n) {
      DsnCodeIsRead(s, i, n);
      assert CodeAt(PythonWord, Dsn, s, i).Some?;
    }
  }

  lemma CodeMeaning(s: string)
    ensures FirstCode(PythonWord, s).Some? <==> BounceCode(s)
  {
    CodesFound(s);
    DsnFound(s);
    SmtpFound(s);
  }

  predicate BouncesOrReplies(canon: string, folded: string, channel: string) {
    || HasAnyPhrase(canon, AUTOREPLY_MARKERS)
    || (channel == "email" && (HasAnyPhrase(canon, BOUNCE_PHRASES) || BounceCode(folded)))
  }

  lemma BounceMeaning(canon: string, folded: string, channel: string)
    ensures MatchBounceOrAutoreply(PythonWord, canon, folded, channel == "email").Some? <==>
            BouncesOrReplies(canon, folded, channel)
  {
    PhraseFound(AUTOREPLY_MARKERS, canon);
    PhraseFound(BOUNCE_PHRASES, canon);
    CodeMeaning(folded);
  }

  // --- the thread -----------------------------------------------------------------------------

  predicate AutomaticReply(m: Message) { m.direction == Outbound && m.isAutoReply }

  /** Two of our automatic replies stand in the thread. */
  predicate Looping(thread: seq<Message>) {
    exists i, j | 0 <= i < j < |thread| :: AutomaticReply(thread[i]) && AutomaticReply(thread[j])
  }

  lemma {:induction false} OneReplyIs(thread: seq<Message>)
    ensures AutoReplyCount(thread) >= 1 <==> exists i | 0 <= i < |thread| :: AutomaticReply(thread[i])
  {
    if thread == [] {
    } else {
      OneReplyIs(thread[1..]);
      assert thread == [thread[0]] + thread[1..];
    }
  }

  lemma {:induction false} LoopingMeaning(thread: seq<Message>)
    ensures AutoReplyCount(thread) >= 2 <==> Looping(thread)
  {
    if thread == [] {
    } else {
      var rest := thread[1..];
      LoopingMeaning(rest);
      OneReplyIs(rest);
      if AutoReplyCount(thread) >= 2 {
        if Looping(rest) {
          var i, j :| 0 <= i < j < |rest| && AutomaticReply(rest[i]) && AutomaticReply(rest[j]);
          assert AutomaticReply(thread[i + 1]) && AutomaticReply(thread[j + 1]);
        } else {
          var i :| 0 <= i < |rest| && AutomaticReply(rest[i]);
          assert AutomaticReply(thread[0]) && AutomaticReply(thread[i + 1]);
        }
      }
      if Looping(thread) {
        var i, j :| 0 <= i < j < |thread| && AutomaticReply(thread[i]) && AutomaticReply(thread[j]);
        assert AutomaticReply(rest[j - 1]);
        assert i > 0 ==> AutomaticReply(rest[i - 1]);
      }
    }
  }

  // --- which rule fires ---------------------------------------------------------------------------

  /** Near a keyword, or opening with the imperative. */
  predicate OptsOut(body: string) {
    var canon := Canonicalize(Fold(body));
    OpensWithImperative(canon) || NearSomeKeyword(canon, AlphanumericsOf(Fold(body)), OPT_OUT_KEYWORDS)
  }

  /** The rule for what was read, the earlier ones first. */
  predicate FiresOn(rule: Option<Rule>, optOut: bool, legal: bool, hostile: bool, bounce: bool, looping: bool) {
    match rule
    case Some(OptOut) => optOut
    case Some(LegalEscalation) => !optOut && legal
    case Some(Hostility) => !optOut && !legal && hostile
    case Some(BounceOrAutoreply) => !optOut && !legal && !hostile && bounce
    case Some(LoopBreaker) => !optOut && !legal && !hostile && !bounce && looping
    case None => !optOut && !legal && !hostile && !bounce && !looping
  }

  predicate Fires(rule: Option<Rule>, body: string, thread: seq<Message>, channel: string) {
    var folded := Fold(body);
    var canon := Canonicalize(folded);
    FiresOn(rule, OptsOut(body), LegalThreat(canon), Hostile(canon), BouncesOrReplies(canon, folded, channel),
            Looping(thread))
  }

  predicate ActionOf(rule: Option<Rule>, action: Action) {
    match rule
    case Some(OptOut) => action == SuppressAndStop
    case Some(_) => action == HumanReview
    case None => action == Proceed
  }

  lemma FirstRuleFires(optOut: Option<string>, legal: Option<string>, hostility: Option<string>,
                       bounce: Option<string>, looping: bool, rule: Option<Rule>)
    ensures var v := FirstRule(optOut, legal, hostility, bounce, looping);
            && (FiresOn(rule, optOut.Some?, legal.Some?, hostility.Some?, bounce.Some?, looping) <==> rule == v.rule)
            && ActionOf(v.rule, v.action)
  {
  }

  lemma OptOutMeaning(body: string)
    ensures MatchOptOut(Canonicalize(Fold(body))).Some? <==> OptsOut(body)
  {
    var canon := Canonicalize(Fold(body));
    CanonicalizeMeaning(Fold(body));
    FirstKeywordFound(canon, OPT_OUT_KEYWORDS);
    ImperativeMeaning(canon);
  }

  /** A rule is the verdict's exactly when its reading holds of the body and no earlier rule's does. */
  lemma RuleThatFires(body: string, thread: seq<Message>, channel: string, rule: Option<Rule>)
    requires channel == "sms" || channel == "email"
    ensures Evaluate(body, thread, channel).Ok?
    ensures Fires(rule, body, thread, channel) <==> rule == Evaluate(body, thread, channel).value.rule
    ensures ActionOf(Evaluate(body, thread, channel).value.rule, Evaluate(body, thread, channel).value.action)
  {
    var folded := Fold(body);
    var canon := Canonicalize(folded);
    var tokens := Words(canon, []);
    OptOutMeaning(body);
    LegalMeaning(canon);
    HostilityMeaning(canon);
    BounceMeaning(canon, folded, channel);
    LoopingMeaning(thread);
    FirstRuleFires(MatchOptOut(canon), MatchLegal(canon, tokens), MatchHostility(canon, tokens),
                   MatchBounceOrAutoreply(PythonWord, canon, folded, channel == "email"),
                   AutoReplyCount(thread) >= 2, rule);
  }

  /** Any other channel is refused, whatever the body. */
  lemma OnlyTwoChannels(body: string, thread: seq<Message>, channel: string)
    ensures Evaluate(body, thread, channel).Err? <==> channel !in ["sms", "email"]
  {
  }

  // --- openings and what follows them ---------------------------------------------------------------

  lemma SpacedTail(w: string)
    requires w != [] && Spaced(w) && Alphanumeric(w[|w| - 1])
    ensures Spaced(w[1..]) && (w[0] == ' ' ==> |w| > 1 && w[1..][0] != ' ')
    ensures w[1..] == [] || Alphanumeric(w[1..][|w[1..]| - 1])
  {
  }

  lemma {:induction false} CollapseAfter(w: string, u: string, inRun: bool)
    requires Spaced(w) && (if w == [] then !inRun else Alphanumeric(w[|w| - 1]) && (inRun ==> w[0] != ' '))
    ensures CollapseRuns(w + u, inRun) == w + CollapseRuns(u, false)
  {
    if w == [] {
      assert w + u == u;
    } else {
      assert (w + u)[1..] == w[1..] + u;
      SpacedTail(w);
      CollapseAfter(w[1..], u, w[0] == ' ');
      assert [w[0]] + (w[1..] + CollapseRuns(u, false)) == w + CollapseRuns(u, false);
    }
  }

  lemma {:induction false} StripRightAfter(a: string, r: string)
    requires r != [] && r[0] != ' '
    ensures StripRight(a + r) == a + StripRight(r)
  {
    var n := |r| - 1;
    assert (a + r)[|a + r| - 1] == r[n];
    if r[n] != ' ' {
    } else {
      assert (a + r)[..|a + r| - 1] == a + r[..n];
      StripRightAfter(a, r[..n]);
    }
  }

  /** Canonical words stay where they are before a separator. */
  lemma CanonicalizeAfter(w: string, c: char, t: string)
    requires Canonical(w) && w != [] && !Alphanumeric(c)
    ensures Opens(Canonicalize(w + [c] + t), w)
  {
    var r := CollapseRuns(t, true);
    assert w + [c] + t == w + ([c] + t) && ([c] + t)[1..] == t;
    CollapseAfter(w, [c] + t, false);
    CollapseIsSpaced(t, true);
    var u := w + " " + r;
    assert CollapseRuns(w + [c] + t, false) == u && w + (" " + r) == u;
    assert u[0] == w[0] && StripLeft(u) == u;
    if r == [] {
      assert u == w + " " && u[..|u| - 1] == w && StripRight(w) == w && StripRight(u) == w;
    } else {
      StripRightAfter(w + " ", r);
    }
  }

  function Opening(polite: bool, i: nat): string
    requires i < |CONTACT_VERBS|
  {
    (if polite then "please stop " else "stop ") + CONTACT_VERBS[i]
  }

  predicate LowerWord(s: string) { s != [] && forall i :: 0 <= i < |s| ==> LowerLetter(s[i]) }

  lemma WordJoined(a: string, b: string)
    requires LowerWord(a) && Canonical(b) && Folded(b) && b != []
    ensures Canonical(a + " " + b) && Folded(a + " " + b)
  {
    var s := a + " " + b;
    forall i | 0 <= i < |s| ensures Alphanumeric(s[i]) || s[i] == ' ' {
      assert i > |a| ==> s[i] == b[i - |a| - 1];
    }
    forall i | 0 <= i < |s| - 1 ensures s[i] != ' ' || s[i + 1] != ' ' {
      assert i > |a| ==> s[i] == b[i - |a| - 1] && s[i + 1] == b[i - |a|];
    }
  }

  lemma VerbsAreWords(i: nat)
    requires i < |CONTACT_VERBS|
    ensures LowerWord(CONTACT_VERBS[i])
  {
  }

  lemma PlainOpening(i: nat)
    requires i < |CONTACT_VERBS|
    ensures Canonical("stop " + CONTACT_VERBS[i]) && Folded("stop " + CONTACT_VERBS[i])
  {
    VerbsAreWords(i);
    WordJoined("stop", CONTACT_VERBS[i]);
    assert "stop" + " " + CONTACT_VERBS[i] == "stop " + CONTACT_VERBS[i];
  }

  lemma PoliteOpening(i: nat)
    requires i < |CONTACT_VERBS|
    ensures Canonical("please stop " + CONTACT_VERBS[i]) && Folded("please stop " + CONTACT_VERBS[i])
  {
    PlainOpening(i);
    WordJoined("please", "stop " + CONTACT_VERBS[i]);
    assert "please" + " " + ("stop " + CONTACT_VERBS[i]) == "please stop " + CONTACT_VERBS[i];
  }

  lemma OpeningIsCanonical(polite: bool, i: nat)
    requires i < |CONTACT_VERBS|
    ensures Canonical(Opening(polite, i)) && Folded(Opening(polite, i)) && Opening(polite, i) != []
  {
    if polite { PoliteOpening(i); } else { PlainOpening(i); }
  }

  /** A body that folds to an opening and a separator suppresses, whatever comes after. */
  lemma OpeningSuppresses(body: string, polite: bool, i: nat, c: char, t: string, thread: seq<Message>, channel: string)
    requires (channel == "sms" || channel == "email") && i < |CONTACT_VERBS|
    requires Fold(body) == Opening(polite, i) + [c] + t && !Alphanumeric(c)
    ensures Suppresses(body, thread, channel)
  {
    OpeningIsCanonical(polite, i);
    CanonicalizeAfter(Opening(polite, i), c, t);
    OptOutCharacterized(body, thread, channel);
  }

  /** "stop texting", or any of the other openings, and a space: every continuation suppresses. */
  lemma EveryContinuationSuppresses(polite: bool, i: nat, rest: string, thread: seq<Message>, channel: string)
    requires (channel == "sms" || channel == "email") && i < |CONTACT_VERBS|
    ensures Suppresses(Opening(polite, i) + " " + rest, thread, channel)
  {
    var opening := Opening(polite, i) + " ";
    OpeningIsCanonical(polite, i);
    FoldAppend(opening, rest);
    FoldedIsFixed(opening);
    OpeningSuppresses(opening + rest, polite, i, ' ', Fold(rest), thread, channel);
  }

  // --- what must not suppress ---------------------------------------------------------------------------

  lemma {:induction false} DespaceWords(a: string, rest: string)
    requires ' ' !in a
    ensures |Despace(a + " " + rest)| == |a| + |Despace(rest)|
  {
    if a == [] {
      assert (a + " " + rest)[1..] == rest;
    } else {
      assert (a + " " + rest)[1..] == a[1..] + " " + rest;
      DespaceWords(a[1..], rest);
    }
  }

  /** A canonical text of thirteen letters that opens with neither "stop" and a verb nor "please stop" and one. */
  lemma LongTextWithoutOpening(canon: string, thread: seq<Message>, channel: string)
    requires (channel == "sms" || channel == "email") && Canonical(canon) && Folded(canon)
    requires |Despace(canon)| >= 13 && !OpensWithImperative(canon)
    ensures !Suppresses(canon, thread, channel)
  {
    FoldedIsFixed(canon);
    CanonicalIsFixed(canon);
    CanonicalizeMeaning(canon);
    LongBodyNeedsTheImperative(canon, thread, channel);
  }

  lemma DiffersAt(canon: string, opening: string, k: nat)
    requires k < |canon| && k < |opening| && canon[k] != opening[k]
    ensures !Opens(canon, opening)
  {
  }

  lemma VerbsBeginOtherwise(i: nat)
    requires i < |CONTACT_VERBS|
    ensures CONTACT_VERBS[i] != [] && CONTACT_VERBS[i][0] != 'b'
  {
  }

  lemma VisitIsLong(rest: string)
    ensures |Despace("stop by " + rest)| == 6 + |Despace(rest)|
  {
    assert "stop by " + rest == "stop" + " " + ("by " + rest) && "by " + rest == "by" + " " + rest;
    DespaceWords("stop", "by " + rest);
    DespaceWords("by", rest);
  }

  /** An invitation to stop by is no opt-out. */
  lemma VisitsDoNotSuppress(rest: string, thread: seq<Message>, channel: string)
    requires (channel == "sms" || channel == "email") && Canonical("stop by " + rest) && Folded(rest)
    requires |Despace(rest)| >= 7
    ensures !Suppresses("stop by " + rest, thread, channel)
  {
    var canon := "stop by " + rest;
    forall i | 0 <= i < |CONTACT_VERBS|
      ensures !Opens(canon, "stop " + CONTACT_VERBS[i]) && !Opens(canon, "please stop " + CONTACT_VERBS[i])
    {
      VerbsBeginOtherwise(i);
      DiffersAt(canon, "stop " + CONTACT_VERBS[i], 5);
      DiffersAt(canon, "please stop " + CONTACT_VERBS[i], 0);
    }
    VisitIsLong(rest);
    LongTextWithoutOpening(canon, thread, channel);
  }

  /** A negated "stop" is none either. */
  lemma NegationsDoNotSuppress(rest: string, thread: seq<Message>, channel: string)
    requires (channel == "sms" || channel == "email") && Canonical("please don t stop " + rest) && Folded(rest)
    ensures !Suppresses("please don t stop " + rest, thread, channel)
  {
    var canon := "please don t stop " + rest;
    forall i | 0 <= i < |CONTACT_VERBS|
      ensures !Opens(canon, "stop " + CONTACT_VERBS[i]) && !Opens(canon, "please stop " + CONTACT_VERBS[i])
    {
      DiffersAt(canon, "stop " + CONTACT_VERBS[i], 0);
      DiffersAt(canon, "please stop " + CONTACT_VERBS[i], 7);
    }
    NegationIsLong(rest);
    LongTextWithoutOpening(canon, thread, channel);
  }

  lemma NegationIsLong(rest: string)
    ensures |Despace("please don t stop " + rest)| >= 14
  {
    var tail := "don t stop " + rest;
    assert "please don t stop " + rest == "please" + " " + tail && tail == "don" + " " + ("t stop " + rest);
    assert "t stop " + rest == "t" + " " + ("stop " + rest) && "stop " + rest == "stop" + " " + rest;
    DespaceWords("please", tail);
    DespaceWords("don", "t stop " + rest);
    DespaceWords("t", "stop " + rest);
    DespaceWords("stop", rest);
  }
}
