/**
 * The pieces put together: the transition system with the port's guardrails for its verdict and the
 * mirror API's normalization for its far end. A reply whose letters lie near a keyword is an opt-out
 * for good, from the webhook to the AWS list.
 */
module OptOutEndToEnd {
  import opened Common
  import opened TextFolding
  import opened SendService
  import opened OrgProtocol
  import opened MirrorDelivery
  import Guardrails
  import ApexGuardrails
  import GuardrailAccents
  import OptOutSafety
  import SuppressionApi
  import SuppressionStore

  /** The verdict the webhook reaches on an SMS. */
  function Verdict(body: Option<string>, priorAutoReplies: int): Action {
    ApexGuardrails.ApexJudge(OrEmpty(body), Some(priorAutoReplies), false).action
  }

  /** The system as deployed: the port judges, the API's normalization accepts. */
  function Live(limit: int, norm: SuppressionStore.Normalizer): Config {
    Config(limit, Verdict, identifier => SuppressionApi.AcceptedIdentifier(norm, identifier))
  }

  /** It is the action of the port's public entry on channel "sms". */
  lemma VerdictIsTheEvaluation(body: Option<string>, priorAutoReplies: int)
    ensures ApexGuardrails.ApexEvaluate(body, Some(priorAutoReplies), "sms").Ok?
    ensures ApexGuardrails.ApexEvaluate(body, Some(priorAutoReplies), "sms").value.action
            == Verdict(body, priorAutoReplies)
  {
    ApexGuardrails.ChannelNames("sms");
  }

  /** An opt-out by the port's own rules: near a keyword, or opening with the imperative. */
  predicate AsksToStop(body: string) {
    var folded := Fold(body);
    || Guardrails.OpensWithImperative(Canonicalize(folded))
    || Guardrails.NearSomeKeyword(Canonicalize(folded), AlphanumericsOf(folded), Guardrails.OPT_OUT_KEYWORDS)
  }

  /** Where nothing composes, the webhook suppresses exactly the bodies that ask to stop. */
  lemma VerdictSuppressesIff(body: Option<string>, priorAutoReplies: int)
    requires ApexGuardrails.NothingComposes(OrEmpty(body))
    ensures Suppressing(Verdict(body, priorAutoReplies)) <==> AsksToStop(OrEmpty(body))
  {
    var text := OrEmpty(body);
    FoldsAgreeIffNothingComposes(text);
    ApexGuardrails.PortSuppressesIff(text, Some(priorAutoReplies), false);
    CanonicalizeMeaning(Fold(text));
    Guardrails.ImperativeMeaning(Canonicalize(Fold(text)));
    Guardrails.FirstKeywordFound(Canonicalize(Fold(text)), Guardrails.OPT_OUT_KEYWORDS);
  }

  // --- rows last --------------------------------------------------------------------------

  lemma {:induction false} RunJoins(cfg: Config, s: State, a: seq<Step>, b: seq<Step>)
    ensures Run(cfg, s, a + b) == Run(cfg, Run(cfg, s, a), b)
  {
    if b == [] {
      assert a + b == a;
    } else {
      var n := |b| - 1;
      assert (a + b)[..|a + b| - 1] == a + b[..n];
      RunJoins(cfg, s, a, b[..n]);
    }
  }

  predicate SameVerdict(before: Message, after: Message) {
    after.verdict == before.verdict && after.identifier == before.identifier
  }

  ghost predicate RowStays(s: State, t: State, i: nat) {
    i < |s.messages| ==> i < |t.messages| && SameVerdict(s.messages[i], t.messages[i])
  }

  lemma RowLastsADelivery(cfg: Config, s: State, d: Delivery, i: nat)
    ensures RowStays(s, DeliveryEffects(cfg, s, d), i)
  {
  }

  lemma RowLastsAJob(cfg: Config, s: State, index: nat, arrives: bool, heard: bool, i: nat)
    requires index < |s.jobs|
    ensures RowStays(s, JobEffects(cfg, s, index, arrives, heard), i)
  {
  }

  lemma RowLastsOneStep(cfg: Config, s: State, step: Step, i: nat)
    requires i < |s.messages|
    ensures i < |Next(cfg, s, step).messages| && SameVerdict(s.messages[i], Next(cfg, s, step).messages[i])
  {
    if Enabled(s, step) {
      match step {
        case CommitDelivery(index) => RowLastsADelivery(cfg, s, s.inFlight[index], i);
        case RunJob(index, arrives, heard) => RowLastsAJob(cfg, s, index, arrives, heard, i);
        case _ =>
      }
    }
  }

  /** A verdict once recorded is never rewritten. */
  lemma {:induction false} RowLasts(cfg: Config, s: State, steps: seq<Step>, i: nat)
    requires i < |s.messages|
    ensures i < |Run(cfg, s, steps).messages| && SameVerdict(s.messages[i], Run(cfg, s, steps).messages[i])
  {
    if steps == [] {
    } else {
      RowLasts(cfg, s, steps[..|steps| - 1], i);
      RowLastsOneStep(cfg, Run(cfg, s, steps[..|steps| - 1]), steps[|steps| - 1], i);
    }
  }

  // --- from the reply to the list ------------------------------------------------------------

  /** The count the webhook passes to the guardrails: the matched lead's, or none at all. */
  function PriorReplies(d: Delivery): int
    requires d.InboundDelivery?
  {
    if d.matched.Some? then d.matched.value.autoReplies else 0
  }

  /** A first delivery, in flight, of a body that asks to stop. */
  predicate StopInFlight(t: State, index: nat) {
    && index < |t.inFlight| && t.inFlight[index].InboundDelivery? && !HasSid(t.messages, t.inFlight[index].sid)
    && AsksToStop(OrEmpty(t.inFlight[index].body))
  }

  /**
   * After any run, let a first delivery that asks to stop commit, and let anything follow. Its record
   * keeps the port's verdict on it, an opt-out, under the sender's identifier, and that opt-out is
   * flagged for review, being mirrored or in the log, unless an execution of its job threw; the matched
   * lead stays opted out.
   */
  lemma StopIsAnOptOutForGood(limit: int, norm: SuppressionStore.Normalizer, s: State, steps: seq<Step>,
                              index: nat, more: seq<Step>)
    requires Initial(s) && StopInFlight(Run(Live(limit, norm), s, steps), index)
    requires ApexGuardrails.NothingComposes(OrEmpty(Run(Live(limit, norm), s, steps).inFlight[index].body))
    ensures var cfg := Live(limit, norm);
            var t, all := Run(cfg, s, steps), steps + [CommitDelivery(index)] + more;
            var d, u, i := t.inFlight[index], Run(cfg, s, all), |t.messages|;
            var evaluation := ApexGuardrails.ApexEvaluate(d.body, Some(PriorReplies(d)), "sms");
            && i < |u.messages| && IsOptOut(u.messages[i]) && u.messages[i].identifier == d.identifier
            && evaluation.Ok? && u.messages[i].verdict == Some(evaluation.value.action)
            && (u.messages[i].needsReview || Mirroring(u, i) || HasLanded(cfg, u, u.messages[i])
                || SomeJobDies(cfg, s, all, i))
            && (d.matched.Some? && d.matched.value.lead in t.leads ==>
                  d.matched.value.lead in u.leads && u.leads[d.matched.value.lead].optedOut)
  {
    var cfg := Live(limit, norm);
    var t := Run(cfg, s, steps);
    var d, i, commit := t.inFlight[index], |t.messages|, CommitDelivery(index);
    VerdictSuppressesIff(d.body, PriorReplies(d));
    VerdictIsTheEvaluation(d.body, PriorReplies(d));
    StopCommits(cfg, t, index);
    RunOn(cfg, s, steps, commit);
    var v := Next(cfg, t, commit);
    RunJoins(cfg, s, steps + [commit], more);
    RowLasts(cfg, v, more, i);
    OptOutSafety.OptedOutForever(cfg, v, more);
    LostIffItsJobDied(cfg, s, steps + [commit] + more, i);
  }

  lemma StopCommits(cfg: Config, t: State, index: nat)
    requires index < |t.inFlight| && t.inFlight[index].InboundDelivery? && !HasSid(t.messages, t.inFlight[index].sid)
    requires Suppressing(cfg.judge(t.inFlight[index].body, PriorReplies(t.inFlight[index])))
    ensures var d, v := t.inFlight[index], Next(cfg, t, CommitDelivery(index));
            && |v.messages| == |t.messages| + 1 && IsOptOut(v.messages[|t.messages|])
            && v.messages[|t.messages|].verdict == Some(cfg.judge(d.body, PriorReplies(d)))
            && v.messages[|t.messages|].identifier == d.identifier
            && (d.matched.Some? && d.matched.value.lead in t.leads ==>
                  d.matched.value.lead in v.leads && v.leads[d.matched.value.lead].optedOut)
  {
  }

  // --- the overwritten status, with the deployed guardrails --------------------------------------

  lemma StopAsksToStop()
    ensures AsksToStop("stop") && ApexGuardrails.NothingComposes("stop")
  {
    FoldedIsFixed("stop");
    CanonicalIsFixed("stop");
    assert Guardrails.OPT_OUT_KEYWORDS[0] == "stop";
    Guardrails.FuzzyIsNear("stop", "stop");
    assert Guardrails.Near("stop", Guardrails.OPT_OUT_KEYWORDS[0]);
    ApexGuardrails.PlainTextComposesNothing("stop");
  }

  lemma QuestionDoesNot()
    ensures !AsksToStop("?") && ApexGuardrails.NothingComposes("?")
  {
    FoldedIsFixed("?");
    ApexGuardrails.PlainTextComposesNothing("?");
    assert "?"[1..] == "" && CollapseRuns("", true) == "" && CollapseRuns("?", false) == " ";
    assert " "[1..] == "" && Canonicalize("?") == "" && AlphanumericsOf("?") == "";
    NothingIsNoKeyword();
    GuardrailAccents.ShortIsNoImperative("");
    Guardrails.ImperativeMeaning("");
  }

  lemma NothingIsNoKeyword()
    ensures !Guardrails.NearSomeKeyword("", "", Guardrails.OPT_OUT_KEYWORDS)
  {
    forall i | 0 <= i < |Guardrails.OPT_OUT_KEYWORDS| ensures !Guardrails.Near("", Guardrails.OPT_OUT_KEYWORDS[i]) {
      GuardrailAccents.OtherLength("", Guardrails.OPT_OUT_KEYWORDS[i]);
    }
    GuardrailAccents.OtherLength("", "optout");
    GuardrailAccents.OtherLength("", "removeme");
    GuardrailAccents.FarFromAll("");
  }

  /** With "stop" and then "?" both overwrites of a Suppressed status happen in the deployed system. */
  lemma LiveStatusDoesNotLast(limit: int, norm: SuppressionStore.Normalizer)
    requires limit >= 1
    ensures var cfg, s := Live(limit, norm), OptOutSafety.SendThrottle.OneReadyLead();
            var stopped := OptOutSafety.Sent() + [OptOutSafety.Reply("STOP", Some("stop"))] + [CommitDelivery(0)];
            var sent := stopped + [CommitChunk];
            && OptOutSafety.Shows(Run(cfg, s, stopped), Suppressed)
            && OptOutSafety.Shows(Run(cfg, s, sent), Contacted)
            && OptOutSafety.Shows(Run(cfg, s, sent + [OptOutSafety.Reply("NEXT", Some("?"))] + [CommitDelivery(0)]),
                                  Replied)
  {
    StopAsksToStop();
    QuestionDoesNot();
    VerdictSuppressesIff(Some("stop"), 0);
    VerdictSuppressesIff(Some("?"), 0);
    OptOutSafety.StatusDoesNotLast(Live(limit, norm), Some("stop"), Some("?"));
  }
}
