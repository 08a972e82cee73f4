/**
 * The auto-chat runner's thread machine (research/auto_chat.py): one poll per cycle, judging only the
 * newest new inbound message, over every sequence of polls and every outcome of the send call.
 */
module AutoChat {
  import opened Common
  import opened TextFolding
  import opened Guardrails
  import opened Buckets
  import ShortTexts

  datatype ChatMessage = ChatMessage(id: int, direction: Direction, text: Option<string>)

  /** The send call returns, or raises after or before the vendor accepted the line. */
  datatype SendResult = Returned | Raised

  /** What is decided about one message: the rule, whether any action but proceed was taken, the intent. */
  datatype Judged = Judged(rule: Option<Rule>, proceed: bool, intent: Intent)

  function JudgeText(text: string): Judged {
    var verdict := Judge(text, false, false);
    Judged(verdict.rule, verdict.action == Proceed, BucketIntent(text, verdict.rule))
  }

  /** A verdict that lets the runner proceed names no rule, so the intent has its own line. */
  lemma ProceedingIsConversational(text: string)
    ensures JudgeText(text).proceed ==> JudgeText(text).rule == None && Conversational(JudgeText(text).intent)
  {
    ProceedNamesNoRule(text, false, false);
    ConversationalIffNoGuardrail(text, JudgeText(text).rule);
  }

  lemma ProceedNamesNoRule(text: string, looping: bool, isEmail: bool)
    ensures Judge(text, looping, isEmail).action == Proceed <==> Judge(text, looping, isEmail).rule == None
  {
  }

  /** Guardrails and buckets as the runner uses them: what may be answered names no rule. */
  ghost predicate Sound(judge: string -> Judged) {
    forall text :: judge(text).proceed ==> judge(text).rule.None? && Conversational(judge(text).intent)
  }

  lemma RealJudgeIsSound()
    ensures Sound(JudgeText)
  {
    forall text
      ensures JudgeText(text).proceed ==> JudgeText(text).rule.None? && Conversational(JudgeText(text).intent)
    {
      ProceedingIsConversational(text);
    }
  }

  predicate HaltingRule(rule: Option<Rule>) {
    rule == Some(OptOut) || rule == Some(LegalEscalation) || rule == Some(Hostility)
  }

  predicate Closing(intent: Intent) { intent == NotInterested || intent == WrongPerson }

  /** The canned line of an intent; an intent without one gets the Unclear line. */
  function Canned(intent: Intent): Intent { if Conversational(intent) then intent else Unclear }

  /** A thread's fields, then its history: ids handled, send calls, those that returned, those that raised. */
  datatype Thread = Thread(
    lastProcessed: int, autoCount: nat, halted: bool, lastReply: Option<Intent>, clarified: bool,
    handled: seq<int>, calls: seq<Intent>, sent: seq<Intent>, raised: seq<Intent>,
    haltSeen: bool, closedAt: Option<nat>)

  predicate IsNew(m: ChatMessage, after: int) { m.direction == Inbound && m.id > after }

  function NewInbound(inbox: seq<ChatMessage>, after: int): seq<ChatMessage> {
    if inbox == [] then []
    else
      var n := |inbox| - 1;
      NewInbound(inbox[..n], after) + (if IsNew(inbox[n], after) then [inbox[n]] else [])
  }

  /** One judged message, in the order the runner decides. */
  function React(t: Thread, j: Judged, maxReplies: int, result: SendResult): Thread {
    var line := Canned(j.intent);
    if HaltingRule(j.rule) then t.(halted := true, haltSeen := true)
    else if !j.proceed then t
    else if t.autoCount >= maxReplies then t
    else if j.intent == Unclear && t.clarified then t
    else if t.lastReply == Some(line) then t
    else if result == Raised then t.(calls := t.calls + [line], raised := t.raised + [line])
    else
      t.(autoCount := t.autoCount + 1, lastReply := Some(line), calls := t.calls + [line], sent := t.sent + [line],
         clarified := t.clarified || j.intent == Unclear,
         halted := t.halted || Closing(j.intent),
         closedAt := if Closing(j.intent) then Some(|t.sent| + 1) else t.closedAt)
  }

  function TextOf(m: ChatMessage): string { match m.text case Some(s) => s case None => "" }

  /** One cycle for one thread; `inbox` is sorted by id, as the fetch returns it. */
  function Poll(judge: string -> Judged, t: Thread, inbox: seq<ChatMessage>, maxReplies: int,
                result: SendResult): Thread
  {
    var unread := NewInbound(inbox, t.lastProcessed);
    if t.halted || unread == [] then t
    else
      var latest := unread[|unread| - 1];
      var taken := t.(lastProcessed := latest.id, handled := t.handled + [latest.id]);
      React(taken, judge(TextOf(latest)), maxReplies, result)
  }

  datatype Cycle = Cycle(inbox: seq<ChatMessage>, result: SendResult)

  function Start(baseline: int): Thread { Thread(baseline, 0, false, None, false, [], [], [], [], false, None) }

  function Chat(judge: string -> Judged, baseline: int, cycles: seq<Cycle>, maxReplies: int): Thread {
    if cycles == [] then Start(baseline)
    else
      var last := cycles[|cycles| - 1];
      Poll(judge, Chat(judge, baseline, cycles[..|cycles| - 1], maxReplies), last.inbox, maxReplies, last.result)
  }

  // --- what one poll does -------------------------------------------------------------

  /** The newest unread message: nothing after it in the inbox is new. */
  predicate NewestUnread(inbox: seq<ChatMessage>, after: int, m: ChatMessage) {
    exists i | 0 <= i < |inbox| ::
      inbox[i] == m && IsNew(m, after) && forall j :: i < j < |inbox| ==> !IsNew(inbox[j], after)
  }

  lemma {:induction false} LastIsNewest(inbox: seq<ChatMessage>, after: int)
    ensures NewInbound(inbox, after) == [] <==> forall i :: 0 <= i < |inbox| ==> !IsNew(inbox[i], after)
    ensures var unread := NewInbound(inbox, after);
            unread != [] ==> NewestUnread(inbox, after, unread[|unread| - 1])
  {
    if inbox == [] {
    } else {
      var n := |inbox| - 1;
      LastIsNewest(inbox[..n], after);
      var unread := NewInbound(inbox, after);
      if IsNew(inbox[n], after) {
        assert unread[|unread| - 1] == inbox[n];
      } else if unread != [] {
        var i :| 0 <= i < n && inbox[..n][i] == unread[|unread| - 1] && IsNew(unread[|unread| - 1], after)
                 && forall j :: i < j < n ==> !IsNew(inbox[..n][j], after);
        assert forall j :: i < j < |inbox| ==> !IsNew(inbox[j], after);
      }
    }
  }

  /** The message may be answered: it was let proceed, and neither cap, clarifier nor last line forbids the line. */
  predicate MayAnswer(t: Thread, j: Judged, maxReplies: int) {
    && j.rule != Some(OptOut) && j.rule != Some(LegalEscalation) && j.rule != Some(Hostility) && j.proceed
    && t.autoCount < maxReplies && !(j.intent == Unclear && t.clarified) && t.lastReply != Some(Canned(j.intent))
  }

  /** What a poll changes for the newest unread message `m`, judged `j`. */
  predicate Answered(t: Thread, u: Thread, m: ChatMessage, j: Judged, maxReplies: int, result: SendResult) {
    && u.lastProcessed == m.id && u.handled == t.handled + [m.id]
    && u.calls == (if MayAnswer(t, j, maxReplies) then t.calls + [Canned(j.intent)] else t.calls)
    && u.sent == (if MayAnswer(t, j, maxReplies) && result == Returned then t.sent + [Canned(j.intent)] else t.sent)
    && u.autoCount - t.autoCount == |u.sent| - |t.sent|
  }

  lemma ReactAnswers(t: Thread, m: ChatMessage, j: Judged, maxReplies: int, result: SendResult)
    ensures var taken := t.(lastProcessed := m.id, handled := t.handled + [m.id]);
            Answered(t, React(taken, j, maxReplies, result), m, j, maxReplies, result)
  {
  }

  /**
   * A poll of an open thread takes up the newest unread message, however many there are, and answers it
   * exactly when it may, with the line of its intent; without one it does nothing.
   */
  lemma PollAnswers(judge: string -> Judged, t: Thread, inbox: seq<ChatMessage>, maxReplies: int, result: SendResult)
    requires !t.halted
    ensures var u := Poll(judge, t, inbox, maxReplies, result);
            if forall i :: 0 <= i < |inbox| ==> !IsNew(inbox[i], t.lastProcessed) then u == t
            else exists m :: NewestUnread(inbox, t.lastProcessed, m)
                             && Answered(t, u, m, judge(TextOf(m)), maxReplies, result)
  {
    LastIsNewest(inbox, t.lastProcessed);
    var unread := NewInbound(inbox, t.lastProcessed);
    if unread != [] {
      var m := unread[|unread| - 1];
      ReactAnswers(t, m, judge(TextOf(m)), maxReplies, result);
    }
  }

  // --- the runner's own loop body ---------------------------------------------------

  class Runner {
    var lastProcessed: int
    const judge: string -> Judged
    var autoCount: nat
    var halted: bool
    var lastReply: Option<Intent>
    var clarified: bool
    ghost var past: Thread

    ghost function View(): Thread
      reads this
    {
      past.(lastProcessed := lastProcessed, autoCount := autoCount, halted := halted, lastReply := lastReply,
            clarified := clarified)
    }

    constructor (judge: string -> Judged, baseline: int)
      ensures View() == Start(baseline) && this.judge == judge
    {
      this.judge := judge;
      lastProcessed, autoCount, halted, lastReply, clarified := baseline, 0, false, None, false;
      past := Start(baseline);
    }

    method NewSince(inbox: seq<ChatMessage>) returns (unread: seq<ChatMessage>)
      ensures unread == NewInbound(inbox, lastProcessed)
    {
      unread := [];
      for i := 0 to |inbox|
        invariant unread == NewInbound(inbox[..i], lastProcessed)
      {
        assert inbox[..i + 1][..i] == inbox[..i];
        if inbox[i].direction == Inbound && inbox[i].id > lastProcessed {
          unread := unread + [inbox[i]];
        }
      }
      assert inbox[..|inbox|] == inbox;
    }

    /** A raised send leaves only the id marked as processed. */
    method ProcessThread(inbox: seq<ChatMessage>, maxReplies: int, result: SendResult)
      requires !halted
      modifies this
      ensures View() == Poll(judge, old(View()), inbox, maxReplies, result)
    {
      var newInbound := NewSince(inbox);
      if newInbound == [] {
        return;
      }
      var latest := newInbound[|newInbound| - 1];
      lastProcessed := latest.id;
      past := past.(handled := past.handled + [latest.id]);
      Respond(judge(TextOf(latest)), maxReplies, result);
    }

    method Respond(judged: Judged, maxReplies: int, result: SendResult)
      modifies this
      ensures View() == React(old(View()), judged, maxReplies, result)
    {
      if HaltingRule(judged.rule) {
        halted := true;
        past := past.(haltSeen := true);
        return;
      }
      if !judged.proceed {
        return;
      }
      if autoCount >= maxReplies {
        return;
      }
      if judged.intent == Unclear && clarified {
        return;
      }
      var reply := Canned(judged.intent);
      if lastReply == Some(reply) {
        return;
      }
      past := past.(calls := past.calls + [reply]);
      if result == Raised {
        past := past.(raised := past.raised + [reply]);
        return;
      }
      autoCount := autoCount + 1;
      lastReply := Some(reply);
      past := past.(sent := past.sent + [reply],
                    closedAt := if Closing(judged.intent) then Some(|past.sent| + 1) else past.closedAt);
      if judged.intent == Unclear {
        clarified := true;
      }
      if Closing(judged.intent) {
        halted := true;
      }
    }
  }

  // --- the invariant ------------------------------------------------------------------

  function Times(line: Intent, lines: seq<Intent>): nat {
    if lines == [] then 0 else Times(line, lines[..|lines| - 1]) + (if lines[|lines| - 1] == line then 1 else 0)
  }

  ghost predicate Ordered(t: Thread, baseline: int) {
    && (forall i, j :: 0 <= i < j < |t.handled| ==> t.handled[i] < t.handled[j])
    && (forall i :: 0 <= i < |t.handled| ==> baseline < t.handled[i] <= t.lastProcessed)
    && baseline <= t.lastProcessed
  }

  predicate NeverTwiceInARow(sent: seq<Intent>) { forall i :: 0 <= i < |sent| - 1 ==> sent[i] != sent[i + 1] }

  predicate ClosesOnlyLast(sent: seq<Intent>, halted: bool) {
    forall i :: 0 <= i < |sent| && Closing(sent[i]) ==> halted && i == |sent| - 1
  }

  lemma OneMoreLine(sent: seq<Intent>, line: Intent, halted: bool)
    requires NeverTwiceInARow(sent) && ClosesOnlyLast(sent, false)
    requires (sent == [] || sent[|sent| - 1] != line) && (Closing(line) ==> halted)
    ensures NeverTwiceInARow(sent + [line]) && ClosesOnlyLast(sent + [line], halted)
  {
    var more := sent + [line];
    forall i | 0 <= i < |more| - 1 ensures more[i] != more[i + 1] {
      assert i < |sent| - 1 ==> sent[i] != sent[i + 1];
    }
  }

  ghost predicate WellBehaved(t: Thread, baseline: int, maxReplies: int) {
    && Ordered(t, baseline)
    && |t.calls| == |t.sent| + |t.raised|
    && t.autoCount == |t.sent| && |t.sent| <= Max(0, maxReplies)
    && t.lastReply == (if t.sent == [] then None else Some(t.sent[|t.sent| - 1]))
    && NeverTwiceInARow(t.sent)
    && Times(Unclear, t.sent) == (if t.clarified then 1 else 0)
    && (t.haltSeen ==> t.halted)
    && ClosesOnlyLast(t.sent, t.halted)
    && (t.closedAt.Some? ==> t.halted && t.closedAt.value == |t.sent|)
  }

  lemma {:induction false} NewestIsNew(inbox: seq<ChatMessage>, after: int)
    ensures forall m <- NewInbound(inbox, after) :: m in inbox && IsNew(m, after)
  {
    if inbox == [] {
    } else {
      NewestIsNew(inbox[..|inbox| - 1], after);
    }
  }

  lemma TimesAppended(line: Intent, lines: seq<Intent>, last: Intent)
    ensures Times(line, lines + [last]) == Times(line, lines) + (if last == line then 1 else 0)
  {
    assert (lines + [last])[..|lines|] == lines;
  }

  lemma ReactIsWellBehaved(t: Thread, j: Judged, baseline: int, maxReplies: int, result: SendResult)
    requires WellBehaved(t, baseline, maxReplies) && !t.halted && (j.proceed ==> Conversational(j.intent))
    ensures WellBehaved(React(t, j, maxReplies, result), baseline, maxReplies)
  {
    var u := React(t, j, maxReplies, result);
    if |u.sent| > |t.sent| {
      assert u.sent == t.sent + [j.intent];
      TimesAppended(Unclear, t.sent, j.intent);
      OneMoreLine(t.sent, j.intent, u.halted);
    }
  }

  lemma PollIsWellBehaved(judge: string -> Judged, t: Thread, inbox: seq<ChatMessage>, baseline: int, maxReplies: int,
                          result: SendResult)
    requires Sound(judge) && WellBehaved(t, baseline, maxReplies)
    ensures WellBehaved(Poll(judge, t, inbox, maxReplies, result), baseline, maxReplies)
  {
    var unread := NewInbound(inbox, t.lastProcessed);
    if !t.halted && unread != [] {
      NewestIsNew(inbox, t.lastProcessed);
      var latest := unread[|unread| - 1];
      assert latest in unread && IsNew(latest, t.lastProcessed);
      ReactIsWellBehaved(t.(lastProcessed := latest.id, handled := t.handled + [latest.id]),
                         judge(TextOf(latest)), baseline, maxReplies, result);
    }
  }

  lemma {:induction false} AlwaysWellBehaved(judge: string -> Judged, baseline: int, cycles: seq<Cycle>,
                                             maxReplies: int)
    requires Sound(judge)
    ensures WellBehaved(Chat(judge, baseline, cycles, maxReplies), baseline, maxReplies)
  {
    if cycles == [] {
    } else {
      AlwaysWellBehaved(judge, baseline, cycles[..|cycles| - 1], maxReplies);
      var last := cycles[|cycles| - 1];
      var before := Chat(judge, baseline, cycles[..|cycles| - 1], maxReplies);
      PollIsWellBehaved(judge, before, last.inbox, baseline, maxReplies, last.result);
    }
  }

  /** No inbound id is handled twice, replies respect the cap, never repeat back to back, and ask to clarify once. */
  lemma ThreadSafety(baseline: int, cycles: seq<Cycle>, maxReplies: int)
    ensures var t := Chat(JudgeText, baseline, cycles, maxReplies);
            && (forall i, j :: 0 <= i < j < |t.handled| ==> t.handled[i] < t.handled[j])
            && |t.sent| <= Max(0, maxReplies)
            && (forall i :: 0 <= i < |t.sent| - 1 ==> t.sent[i] != t.sent[i + 1])
            && Times(Unclear, t.sent) <= 1
            && (forall i :: 0 <= i < |t.sent| - 1 ==> !Closing(t.sent[i]))
  {
    RealJudgeIsSound();
    AlwaysWellBehaved(JudgeText, baseline, cycles, maxReplies);
  }

  /** A halted thread is never touched again, whatever arrives. */
  lemma {:induction false} HaltIsFinal(judge: string -> Judged, baseline: int, cycles: seq<Cycle>, more: seq<Cycle>,
                                       maxReplies: int)
    requires Chat(judge, baseline, cycles, maxReplies).halted
    ensures Chat(judge, baseline, cycles + more, maxReplies) == Chat(judge, baseline, cycles, maxReplies)
  {
    if more == [] {
      assert cycles + more == cycles;
    } else {
      assert (cycles + more)[..|cycles + more| - 1] == cycles + more[..|more| - 1];
      HaltIsFinal(judge, baseline, cycles, more[..|more| - 1], maxReplies);
    }
  }

  /**
   * The newest message of a poll ends the thread exactly when it trips a halting rule, or closes the
   * conversation and its line goes out: below the cap, not a repeat, and the send call returned.
   */
  lemma HaltsExactly(judge: string -> Judged, t: Thread, inbox: seq<ChatMessage>, baseline: int, maxReplies: int,
                     result: SendResult)
    requires Sound(judge) && WellBehaved(t, baseline, maxReplies) && !t.halted
    requires NewInbound(inbox, t.lastProcessed) != []
    ensures var unread := NewInbound(inbox, t.lastProcessed);
            var j := judge(TextOf(unread[|unread| - 1]));
            Poll(judge, t, inbox, maxReplies, result).halted <==>
              || j.rule == Some(OptOut) || j.rule == Some(LegalEscalation) || j.rule == Some(Hostility)
              || (j.proceed && (j.intent == NotInterested || j.intent == WrongPerson)
                  && t.autoCount < maxReplies && result == Returned)
  {
    if t.sent != [] {
      assert Closing(t.sent[|t.sent| - 1]) ==> t.halted;
    }
  }

  /** A closing message whose send raised leaves the thread open: the next message can still be answered. */
  lemma RaisedCloseStaysOpen(t: Thread, j: Judged, maxReplies: int)
    requires j.proceed && Closing(j.intent) && !t.halted && j.rule.None?
    ensures !React(t, j, maxReplies, Raised).halted
    ensures React(t, j, maxReplies, Raised).autoCount == t.autoCount
  {
  }

  // --- send calls, counted by the cycles ------------------------------------------------------

  /** The cycles whose send call raises, if they make one. */
  function RaisingCycles(cycles: seq<Cycle>): nat {
    if cycles == [] then 0
    else RaisingCycles(cycles[..|cycles| - 1]) + (if cycles[|cycles| - 1].result == Raised then 1 else 0)
  }

  lemma {:induction false} RaisedByRaisingCycles(judge: string -> Judged, baseline: int, cycles: seq<Cycle>,
                                                 maxReplies: int)
    ensures |Chat(judge, baseline, cycles, maxReplies).raised| <= RaisingCycles(cycles)
  {
    if cycles == [] {
    } else {
      RaisedByRaisingCycles(judge, baseline, cycles[..|cycles| - 1], maxReplies);
    }
  }

  /** Send calls pass the cap by no more than the cycles whose call raises; with none of them they keep it. */
  lemma CallsExceedOnlyByTheRaised(baseline: int, cycles: seq<Cycle>, maxReplies: int)
    ensures |Chat(JudgeText, baseline, cycles, maxReplies).calls| <= Max(0, maxReplies) + RaisingCycles(cycles)
  {
    RealJudgeIsSound();
    AlwaysWellBehaved(JudgeText, baseline, cycles, maxReplies);
    RaisedByRaisingCycles(JudgeText, baseline, cycles, maxReplies);
  }

  // --- and the bound is met ---------------------------------------------------------------------

  lemma QuestionComesThird(text: string, body: string)
    requires text !in AFFIRMATIVES && text != [] && text[|text| - 1] == '?'
    ensures TopicOf(false, text, text, body) == Question
  {
  }

  lemma MarkIsNoAmount()
    ensures !IsAmount("?")
  {
  }

  lemma CollapseOne(c: char)
    requires !White(c) && !UpperLetter(c) && c !in ['.', '!', ',']
    ensures CollapseSpace([c], false, false) == [c] && StripTrailing([c]) == [c]
  {
    assert [c][1..] == [] && [] + [c] + [] == [c];
  }

  lemma DigitIsAmount()
    ensures IsAmount("5")
  {
    var gap := "";
    assert "" in AMOUNT_UNITS by { assert AMOUNT_UNITS[0] == ""; }
    assert gap in ["", " "] by { assert ["", " "][0] == gap; }
    assert "5"[..1] == "5" && "5"[1..] == [] && HasTail("5", gap + "");
  }

  lemma ShortIsJudged(body: string)
    requires ShortTexts.Short(Canonicalize(Fold(body)))
    ensures JudgeText(body) == Judged(None, true, BucketIntent(body, None))
  {
    ShortTexts.ShortProceeds(body);
  }

  lemma FiveReads()
    ensures Canonicalize(Fold("5")) == "5"
  {
    FoldedIsFixed("5");
    CanonicalIsFixed("5");
  }

  lemma FiveBuckets()
    ensures BucketIntent("5", None) == AmountGiven
  {
    CollapseOne('5');
    DigitIsAmount();
  }

  lemma FiveIsAnAmount()
    ensures JudgeText("5") == Judged(None, true, AmountGiven)
  {
    FiveReads();
    ShortIsJudged("5");
    FiveBuckets();
  }

  lemma MarkReads()
    ensures Canonicalize(Fold("?")) == ""
  {
    FoldedIsFixed("?");
    assert "?"[1..] == "" && CollapseRuns("", true) == "" && CollapseRuns("?", false) == " ";
    assert " "[1..] == "";
  }

  lemma MarkIsNotYes()
    ensures "?" !in AFFIRMATIVES
  {
    forall i | 0 <= i < |AFFIRMATIVES| ensures AFFIRMATIVES[i] != "?" {
      assert AFFIRMATIVES[i][0] != '?';
    }
  }

  lemma MarkBuckets()
    ensures BucketIntent("?", None) == Question
  {
    CollapseOne('?');
    MarkIsNoAmount();
    MarkIsNotYes();
    QuestionComesThird("?", "?");
  }

  lemma MarkIsAQuestion()
    ensures JudgeText("?") == Judged(None, true, Question)
  {
    MarkReads();
    ShortIsJudged("?");
    MarkBuckets();
  }

  /** The message of cycle `n`: an amount and a question in turn. */
  predicate Even(n: nat) { n == 0 || !Even(n - 1) }

  function TextAt(n: nat): string { if Even(n) then "5" else "?" }

  function LineAt(n: nat): Intent { if Even(n) then AmountGiven else Question }

  function CycleAt(baseline: int, id: nat, n: nat, result: SendResult): Cycle {
    Cycle([ChatMessage(baseline + 1 + id, Inbound, Some(TextAt(n)))], result)
  }

  /** After `k` raised calls and `n` returned ones. */
  predicate Reached(t: Thread, baseline: int, k: nat, n: nat) {
    && t.lastProcessed == baseline + k + n && t.autoCount == n && !t.halted && !t.clarified
    && t.lastReply == (if n == 0 then None else Some(LineAt(n - 1))) && |t.calls| == k + n
  }

  /** The two messages are judged as what they are. */
  predicate KnowsBoth(judge: string -> Judged) {
    judge("5") == Judged(None, true, AmountGiven) && judge("?") == Judged(None, true, Question)
  }

  lemma OneCycle(judge: string -> Judged, t: Thread, baseline: int, k: nat, n: nat, maxReplies: int, result: SendResult)
    requires Reached(t, baseline, k, n) && n < maxReplies && judge(TextAt(n)) == Judged(None, true, LineAt(n))
    ensures Reached(Poll(judge, t, CycleAt(baseline, k + n, n, result).inbox, maxReplies, result), baseline,
                    if result == Raised then k + 1 else k, if result == Raised then n else n + 1)
  {
    var inbox := CycleAt(baseline, k + n, n, result).inbox;
    assert inbox[..0] == [] && NewInbound(inbox, t.lastProcessed) == [inbox[0]];
    assert n > 0 ==> LineAt(n - 1) != LineAt(n);
  }

  /** What a sequence of cycles comes to: the thread it leaves, and how many of its calls raise. */
  ghost predicate Comes(judge: string -> Judged, baseline: int, cycles: seq<Cycle>, maxReplies: int, k: nat, n: nat) {
    Reached(Chat(judge, baseline, cycles, maxReplies), baseline, k, n) && RaisingCycles(cycles) == k
  }

  lemma ComesOneMore(judge: string -> Judged, baseline: int, before: seq<Cycle>, last: Cycle, maxReplies: int,
                     k: nat, n: nat, k': nat, n': nat)
    requires Comes(judge, baseline, before, maxReplies, k, n)
    requires KnowsBoth(judge) && n < maxReplies && last == CycleAt(baseline, k + n, n, last.result)
    requires if last.result == Raised then k' == k + 1 && n' == n else k' == k && n' == n + 1
    ensures Comes(judge, baseline, before + [last], maxReplies, k', n')
  {
    assert (before + [last])[..|before|] == before;
    OneCycle(judge, Chat(judge, baseline, before, maxReplies), baseline, k, n, maxReplies, last.result);
  }

  /** An amount whose send raises, `k` times over, then amounts and questions in turn that are sent. */
  function RaiseThenSend(baseline: int, k: nat, n: nat): seq<Cycle>
    decreases n, k
  {
    if n > 0 then RaiseThenSend(baseline, k, n - 1) + [CycleAt(baseline, k + n - 1, n - 1, Returned)]
    else if k > 0 then RaiseThenSend(baseline, k - 1, 0) + [CycleAt(baseline, k - 1, 0, Raised)]
    else []
  }

  lemma {:induction false} TheyCome(judge: string -> Judged, baseline: int, k: nat, n: nat, maxReplies: int)
    requires KnowsBoth(judge) && n <= maxReplies && maxReplies >= 1
    ensures Comes(judge, baseline, RaiseThenSend(baseline, k, n), maxReplies, k, n)
    decreases n, k
  {
    if n == 0 {
      if k == 0 {
      } else {
        TheyCome(judge, baseline, k - 1, 0, maxReplies);
        ComesOneMore(judge, baseline, RaiseThenSend(baseline, k - 1, 0), CycleAt(baseline, k - 1, 0, Raised),
                     maxReplies, k - 1, 0, k, 0);
      }
    } else {
      TheyCome(judge, baseline, k, n - 1, maxReplies);
      ComesOneMore(judge, baseline, RaiseThenSend(baseline, k, n - 1), CycleAt(baseline, k + n - 1, n - 1, Returned),
                   maxReplies, k, n - 1, k, n);
    }
  }

  /**
   * For every cap that allows a reply and every k there are cycles, k of them raising, with k calls
   * more than the cap.
   */
  lemma RaisedCallsEvadeTheCap(baseline: int, k: nat, maxReplies: nat) returns (cycles: seq<Cycle>)
    requires maxReplies >= 1
    ensures RaisingCycles(cycles) == k
    ensures |Chat(JudgeText, baseline, cycles, maxReplies).calls| == maxReplies + k
  {
    FiveIsAnAmount();
    MarkIsAQuestion();
    TheyCome(JudgeText, baseline, k, maxReplies, maxReplies);
    cycles := RaiseThenSend(baseline, k, maxReplies);
  }
}
