/**
 * Opt-out safety over every interleaving of webhooks, lead edits and send chunks: the opt-out flag
 * never goes back, no chunk whose lead query follows an opt-out calls that lead, and after an
 * opt-out commits at most one more callout, already under way, can reach the lead.
 */
module OptOutSafety {
  import opened Common
  import opened SendService
  import opened OrgProtocol
  import SendThrottle
  import WebhookPhone

  /** The flag is lasting for every lead, opted out by this system or before it, and so is its record. */
  ghost predicate FlagsKept(s: State, t: State) {
    && (forall l :: l in s.leads && s.leads[l].optedOut ==> l in t.leads && t.leads[l].optedOut)
    && (forall l :: l in s.optOutStep ==> l in t.optOutStep && t.optOutStep[l] == s.optOutStep[l])
  }

  lemma DeliveryKeepsFlags(cfg: Config, s: State, d: Delivery)
    ensures FlagsKept(s, DeliveryEffects(cfg, s, d))
  {
  }

  lemma CommitKeepsFlags(s: State)
    requires s.chunk.Some?
    ensures FlagsKept(s, CommitEffects(s))
  {
  }

  lemma JobKeepsFlags(cfg: Config, s: State, index: nat, arrives: bool, heard: bool)
    requires index < |s.jobs|
    ensures FlagsKept(s, JobEffects(cfg, s, index, arrives, heard))
  {
  }

  lemma StepKeepsFlags(cfg: Config, s: State, step: Step)
    ensures FlagsKept(s, Next(cfg, s, step))
  {
    if Enabled(s, step) {
      match step {
        case CommitDelivery(index) => DeliveryKeepsFlags(cfg, s, s.inFlight[index]);
        case CommitChunk => CommitKeepsFlags(s);
        case RunJob(index, arrives, heard) => JobKeepsFlags(cfg, s, index, arrives, heard);
        case _ =>
      }
    }
  }

  /** Whatever happens after any moment of any run, a lead opted out at that moment still is. */
  lemma {:induction false} OptedOutForever(cfg: Config, s: State, steps: seq<Step>)
    ensures FlagsKept(s, Run(cfg, s, steps))
  {
    if steps == [] {
    } else {
      OptedOutForever(cfg, s, steps[..|steps| - 1]);
      StepKeepsFlags(cfg, Run(cfg, s, steps[..|steps| - 1]), steps[|steps| - 1]);
    }
  }

  // --- the invariant ---------------------------------------------------------------

  predicate MarkedOut(s: State, l: LeadId) {
    l in s.optOutStep ==> l in s.leads && s.leads[l].optedOut && s.optOutStep[l] < s.step
  }

  /** A lead the chunk still believes reachable has opted out, if at all, only since the query. */
  predicate RowCurrent(s: State, r: Row, queryStep: nat) {
    !r.lead.optedOut && r.id in s.optOutStep ==> queryStep <= s.optOutStep[r.id]
  }

  predicate CalloutAllowed(s: State, c: Callout) {
    && c.queryStep < c.madeStep < s.step
    && (c.lead in s.optOutStep ==> c.queryStep <= s.optOutStep[c.lead])
  }

  /** Chunks are serialized: two callouts belong to one chunk and differ in lead, or follow each other. */
  predicate Serial(c: Callout, d: Callout) {
    (c.queryStep == d.queryStep && c.lead < d.lead) || c.madeStep < d.queryStep
  }

  predicate RowsAscend(rows: seq<Row>) { forall i, j :: 0 <= i < j < |rows| ==> rows[i].id < rows[j].id }

  /** A callout made so far relates to the running chunk: its own earlier row, or an earlier chunk. */
  predicate BeforeChunk(c: Callout, chunk: Chunk) {
    || c.madeStep < chunk.queryStep
    || (c.queryStep == chunk.queryStep && forall i :: chunk.next <= i < |chunk.rows| ==> c.lead < chunk.rows[i].id)
  }

  ghost predicate Safe(s: State) {
    && (forall l {:trigger MarkedOut(s, l)} :: MarkedOut(s, l))
    && (forall c {:trigger CalloutAllowed(s, c)} :: c in s.callouts ==> CalloutAllowed(s, c))
    && (forall i, j {:trigger Serial(s.callouts[i], s.callouts[j])} ::
          0 <= i < j < |s.callouts| ==> Serial(s.callouts[i], s.callouts[j]))
    && (s.chunk.Some? ==>
          var chunk := s.chunk.value;
          && chunk.queryStep < s.step && chunk.next <= |chunk.rows| && RowsAscend(chunk.rows)
          && (forall r {:trigger RowCurrent(s, r, chunk.queryStep)} ::
                r in chunk.rows ==> RowCurrent(s, r, chunk.queryStep))
          && (forall c {:trigger BeforeChunk(c, chunk)} :: c in s.callouts ==> BeforeChunk(c, chunk)))
  }

  /** Steps that make no callout and open no chunk. */
  lemma QuietStepIsSafe(s: State, t: State)
    requires Safe(s) && t.callouts == s.callouts && (t.chunk == s.chunk || t.chunk.None?) && t.step == s.step + 1
    requires FlagsKept(s, t)
    requires NewlyOut(s, t)
    ensures Safe(t)
  {
    forall l ensures MarkedOut(t, l) { assert MarkedOut(s, l); }
    forall c | c in t.callouts ensures CalloutAllowed(t, c) { assert CalloutAllowed(s, c); }
    if t.chunk.Some? {
      forall r | r in t.chunk.value.rows ensures RowCurrent(t, r, t.chunk.value.queryStep) {
        assert RowCurrent(s, r, s.chunk.value.queryStep);
      }
    }
    forall i, j | 0 <= i < j < |t.callouts| ensures Serial(t.callouts[i], t.callouts[j]) {
      assert Serial(s.callouts[i], s.callouts[j]);
    }
  }

  lemma OpeningIsSafe(cfg: Config, s: State, ids: seq<LeadId>, hasTemplate: bool)
    requires Safe(s) && Enabled(s, OpenChunk(ids, hasTemplate))
    ensures Safe(Next(cfg, s, OpenChunk(ids, hasTemplate)))
  {
    var t := Next(cfg, s, OpenChunk(ids, hasTemplate));
    var chunk := t.chunk.value;
    forall l ensures MarkedOut(t, l) { assert MarkedOut(s, l); }
    forall c | c in t.callouts ensures CalloutAllowed(t, c) && BeforeChunk(c, chunk) { assert CalloutAllowed(s, c); }
    forall r | r in chunk.rows ensures RowCurrent(t, r, chunk.queryStep) {
      var i :| 0 <= i < |chunk.rows| && chunk.rows[i] == r;
      assert r == Row(ids[i], s.leads[ids[i]]) && MarkedOut(s, ids[i]);
    }
    forall i, j | 0 <= i < j < |t.callouts| ensures Serial(t.callouts[i], t.callouts[j]) {
      assert Serial(s.callouts[i], s.callouts[j]);
    }
  }

  lemma TurnIsSafe(cfg: Config, s: State, hour: Option<int>, reply: Reply)
    requires Safe(s) && Enabled(s, TakeTurn(hour, reply))
    ensures Safe(Next(cfg, s, TakeTurn(hour, reply)))
  {
    var t := Next(cfg, s, TakeTurn(hour, reply));
    var chunk, after := s.chunk.value, t.chunk.value;
    var row := chunk.rows[chunk.next];
    assert row in chunk.rows && RowCurrent(s, row, chunk.queryStep);
    forall l ensures MarkedOut(t, l) { assert MarkedOut(s, l); }
    forall r | r in after.rows ensures RowCurrent(t, r, after.queryStep) { assert RowCurrent(s, r, chunk.queryStep); }
    forall c | c in t.callouts ensures CalloutAllowed(t, c) && BeforeChunk(c, after) {
      if c in s.callouts {
        assert CalloutAllowed(s, c) && BeforeChunk(c, chunk);
      }
    }
    forall i, j | 0 <= i < j < |t.callouts| ensures Serial(t.callouts[i], t.callouts[j]) {
      if j < |s.callouts| {
        assert Serial(s.callouts[i], s.callouts[j]);
      } else {
        assert s.callouts[i] in s.callouts && BeforeChunk(s.callouts[i], chunk);
      }
    }
  }

  /** Whoever is newly recorded as opted out is so now, and flagged. */
  ghost predicate NewlyOut(s: State, t: State) {
    forall l :: l in t.optOutStep && l !in s.optOutStep ==>
      t.optOutStep[l] == s.step && l in t.leads && t.leads[l].optedOut
  }

  lemma DeliveryIsQuiet(cfg: Config, s: State, d: Delivery)
    ensures var t := DeliveryEffects(cfg, s, d);
            NewlyOut(s, t) && t.callouts == s.callouts && t.chunk == s.chunk && t.step == s.step
  {
  }

  lemma CommitIsQuiet(s: State)
    requires s.chunk.Some?
    ensures var t := CommitEffects(s);
            NewlyOut(s, t) && t.callouts == s.callouts && t.chunk.None? && t.step == s.step
  {
  }

  lemma JobIsQuiet(cfg: Config, s: State, index: nat, arrives: bool, heard: bool)
    requires index < |s.jobs|
    ensures var t := JobEffects(cfg, s, index, arrives, heard);
            NewlyOut(s, t) && t.callouts == s.callouts && t.chunk == s.chunk && t.step == s.step
  {
  }

  lemma OtherStepsAreQuiet(cfg: Config, s: State, step: Step)
    requires Enabled(s, step) && !step.OpenChunk? && !step.TakeTurn?
    ensures var t := Next(cfg, s, step);
            && t.callouts == s.callouts && (t.chunk == s.chunk || t.chunk.None?) && t.step == s.step + 1
            && NewlyOut(s, t)
  {
    match step {
      case CommitDelivery(index) => DeliveryIsQuiet(cfg, s, s.inFlight[index]);
      case CommitChunk => CommitIsQuiet(s);
      case RunJob(index, arrives, heard) => JobIsQuiet(cfg, s, index, arrives, heard);
      case _ =>
    }
  }

  lemma StepIsSafe(cfg: Config, s: State, step: Step)
    requires Safe(s)
    ensures Safe(Next(cfg, s, step))
  {
    if Enabled(s, step) {
      StepKeepsFlags(cfg, s, step);
      match step {
        case OpenChunk(ids, hasTemplate) => OpeningIsSafe(cfg, s, ids, hasTemplate);
        case TakeTurn(hour, reply) => TurnIsSafe(cfg, s, hour, reply);
        case _ =>
          OtherStepsAreQuiet(cfg, s, step);
          QuietStepIsSafe(s, Next(cfg, s, step));
      }
    }
  }

  lemma {:induction false} AlwaysSafe(cfg: Config, s: State, steps: seq<Step>)
    requires Initial(s)
    ensures Safe(Run(cfg, s, steps))
  {
    if steps == [] {
    } else {
      AlwaysSafe(cfg, s, steps[..|steps| - 1]);
      StepIsSafe(cfg, Run(cfg, s, steps[..|steps| - 1]), steps[|steps| - 1]);
    }
  }

  // --- what it means --------------------------------------------------------------------

  /** Leads flagged before the run are out of reach: no callout, and no chunk that takes them for reachable. */
  ghost predicate OutOfReach(s: State, t: State) {
    && (forall c {:trigger c in t.callouts} :: c in t.callouts ==> !FlaggedIn(s, c.lead))
    && (t.chunk.Some? ==>
          forall r {:trigger FlaggedIn(s, r.id)} ::
            r in t.chunk.value.rows && FlaggedIn(s, r.id) ==> r.lead.optedOut)
  }

  predicate FlaggedIn(s: State, l: LeadId) { l in s.leads && s.leads[l].optedOut }

  /** A flag is one from before the run, or its raising is on record. */
  ghost predicate FlagsKnown(s: State, t: State) {
    forall l {:trigger FlaggedIn(t, l)} :: FlaggedIn(t, l) ==> FlaggedIn(s, l) || l in t.optOutStep
  }

  lemma StepKeepsKnown(cfg: Config, s: State, t: State, step: Step)
    requires FlagsKnown(s, t)
    ensures FlagsKnown(s, Next(cfg, t, step))
  {
    var u := Next(cfg, t, step);
    forall l | FlaggedIn(u, l) ensures FlaggedIn(s, l) || l in u.optOutStep {
      StepKeepsFlags(cfg, t, step);
      if FlaggedIn(t, l) { assert FlaggedIn(s, l) || l in t.optOutStep; }
      else { RaisingIsRecorded(cfg, t, step, l); }
    }
  }

  lemma RaisingIsRecorded(cfg: Config, t: State, step: Step, l: LeadId)
    requires !FlaggedIn(t, l) && FlaggedIn(Next(cfg, t, step), l)
    ensures l in Next(cfg, t, step).optOutStep
  {
    match step {
      case EditLead(id, phone, status, createdAt, autoReplies, optOut) =>
      case CommitDelivery(index) =>
      case CommitChunk =>
      case _ =>
    }
  }

  lemma StepKeepsOutOfReach(cfg: Config, s: State, t: State, step: Step)
    requires OutOfReach(s, t) && FlagsKept(s, t) && (t.chunk.Some? ==> t.chunk.value.next <= |t.chunk.value.rows|)
    ensures OutOfReach(s, Next(cfg, t, step))
  {
    if Enabled(t, step) {
      match step {
        case OpenChunk(ids, hasTemplate) =>
          var u := Next(cfg, t, step);
          forall r | r in u.chunk.value.rows && FlaggedIn(s, r.id) ensures r.lead.optedOut {
            var i :| 0 <= i < |ids| && u.chunk.value.rows[i] == r;
            assert r == Row(ids[i], t.leads[ids[i]]) && FlaggedIn(s, ids[i]);
          }
        case TakeTurn(hour, reply) =>
          var row := t.chunk.value.rows[t.chunk.value.next];
          assert row in t.chunk.value.rows && (FlaggedIn(s, row.id) ==> row.lead.optedOut);
        case _ => OtherStepsAreQuiet(cfg, t, step);
      }
    }
  }

  lemma {:induction false} FlaggedStayOutOfReach(cfg: Config, s: State, steps: seq<Step>)
    requires Initial(s)
    ensures OutOfReach(s, Run(cfg, s, steps)) && FlagsKnown(s, Run(cfg, s, steps))
  {
    if steps == [] {
    } else {
      var n := |steps| - 1;
      FlaggedStayOutOfReach(cfg, s, steps[..n]);
      OptedOutForever(cfg, s, steps[..n]);
      AlwaysSafe(cfg, s, steps[..n]);
      StepKeepsOutOfReach(cfg, s, Run(cfg, s, steps[..n]), steps[n]);
      StepKeepsKnown(cfg, s, Run(cfg, s, steps[..n]), steps[n]);
    }
  }

  /**
   * No lead flagged before the run is ever called; and a lead flagged since, by its own reply or by
   * hand, was called only by chunks whose query ran before the flag was raised.
   */
  lemma NoCalloutAfterTheQuerySawIt(cfg: Config, s: State, steps: seq<Step>, c: Callout)
    requires Initial(s) && c in Run(cfg, s, steps).callouts
    ensures !FlaggedIn(s, c.lead)
    ensures var t := Run(cfg, s, steps);
            FlaggedIn(t, c.lead) ==> c.lead in t.optOutStep && c.queryStep <= t.optOutStep[c.lead]
  {
    FlaggedStayOutOfReach(cfg, s, steps);
    AlwaysSafe(cfg, s, steps);
    assert CalloutAllowed(Run(cfg, s, steps), c);
  }

  /** The chunk in flight when the opt-out commits can still reach the lead, and only once. */
  lemma AtMostOneLateCallout(cfg: Config, s: State, steps: seq<Step>, i: nat, j: nat)
    requires Initial(s)
    requires var t := Run(cfg, s, steps);
             && i < |t.callouts| && j < |t.callouts| && t.callouts[i].lead == t.callouts[j].lead
             && t.callouts[i].lead in t.optOutStep
             && t.optOutStep[t.callouts[i].lead] < t.callouts[i].madeStep
             && t.optOutStep[t.callouts[i].lead] < t.callouts[j].madeStep
    ensures i == j
  {
    AlwaysSafe(cfg, s, steps);
    var t := Run(cfg, s, steps);
    assert t.callouts[i] in t.callouts && t.callouts[j] in t.callouts;
    assert CalloutAllowed(t, t.callouts[i]) && CalloutAllowed(t, t.callouts[j]);
    assert i < j ==> Serial(t.callouts[i], t.callouts[j]);
    assert j < i ==> Serial(t.callouts[j], t.callouts[i]);
  }

  /** An inbound opt-out of a matched lead raises the flag in the same step, whatever the status was. */
  lemma OptOutRaisesTheFlag(cfg: Config, s: State, index: nat)
    requires index < |s.inFlight| && s.inFlight[index].InboundDelivery?
    requires var d := s.inFlight[index];
             && !HasSid(s.messages, d.sid) && d.matched.Some? && d.matched.value.lead in s.leads
             && Suppressing(cfg.judge(d.body, d.matched.value.autoReplies))
    ensures var t := Next(cfg, s, CommitDelivery(index));
            var l := s.inFlight[index].matched.value.lead;
            && t.leads[l].optedOut && t.leads[l].status == Suppressed && l in t.optOutStep
            && forall o :: o in s.leads && o != l ==> t.leads[o] == s.leads[o]
  {
  }

  // --- the status, unlike the flag, does not last ---------------------------------------------

  /** The step overwrites the status of lead `l`: an edit, a chunk that had sent to it, or a later reply. */
  predicate OverwritesStatus(cfg: Config, s: State, step: Step, l: LeadId) {
    Enabled(s, step) &&
    match step
    case EditLead(id, _, status, _, _, _) => id == l && status != Suppressed
    case CommitChunk =>
      var attempts := s.chunk.value.progress.attempts;
      !Collides(s.messages, attempts) && l in ContactedBy(attempts)
    case CommitDelivery(index) =>
      var d := s.inFlight[index];
      && d.InboundDelivery? && !HasSid(s.messages, d.sid) && d.matched.Some? && d.matched.value.lead == l
      && !Suppressing(cfg.judge(d.body, d.matched.value.autoReplies))
    case _ => false
  }

  lemma DeliveryOverwritesIff(cfg: Config, s: State, d: Delivery, l: LeadId)
    requires l in s.leads && s.leads[l].status == Suppressed
    ensures l in DeliveryEffects(cfg, s, d).leads
    ensures DeliveryEffects(cfg, s, d).leads[l].status != Suppressed <==>
            && d.InboundDelivery? && !HasSid(s.messages, d.sid) && d.matched.Some? && d.matched.value.lead == l
            && !Suppressing(cfg.judge(d.body, d.matched.value.autoReplies))
  {
  }

  /** A Suppressed status changes in exactly those steps. */
  lemma SuppressedStatusChangesIff(cfg: Config, s: State, step: Step, l: LeadId)
    requires l in s.leads && s.leads[l].status == Suppressed
    ensures l in Next(cfg, s, step).leads
    ensures Next(cfg, s, step).leads[l].status != Suppressed <==> OverwritesStatus(cfg, s, step, l)
  {
    match step {
      case EditLead(id, phone, status, createdAt, autoReplies, optOut) =>
      case CommitDelivery(index) => if Enabled(s, step) { DeliveryOverwritesIff(cfg, s, s.inFlight[index], l); }
      case CommitChunk =>
      case _ =>
    }
  }

  const CALLER: string := "+" + "16502530000"

  function Sent(): seq<Step> { [OpenChunk([1], true)] + [TakeTurn(Some(10), Accepted(Some("SENT")))] }

  /** A reply of the lead, received and committed. */
  function Reply(sid: Sid, body: Option<string>): Step { ReceiveInbound(sid, Some(CALLER), body, Some(1)) }

  lemma RunTwo(cfg: Config, s: State, steps: seq<Step>, a: Step, b: Step)
    ensures Run(cfg, s, steps + [a] + [b]) == Next(cfg, Next(cfg, Run(cfg, s, steps), a), b)
  {
    RunOn(cfg, s, steps, a);
    RunOn(cfg, s, steps + [a], b);
  }

  /** The lead of the run while it is called, answers "stop", and the chunk has still to commit. */
  predicate Stopped(t: State) {
    && 1 in t.leads && t.leads.Keys == {1} && t.leads[1].status == Suppressed && t.leads[1].optedOut
    && t.leads[1].phone == CALLER && t.leads[1].autoReplies == 0
    && t.chunk.Some? && t.chunk.value.next == |t.chunk.value.rows|
    && t.chunk.value.progress.attempts == [Attempt(1, 0, true, Some("SENT"))]
    && t.inFlight == [] && t.now == 0
    && |t.messages| == 1 && t.messages[0].sid == Some("STOP")
  }

  lemma CallerIsMatched(leads: map<LeadId, Lead>)
    requires leads.Keys == {1} && leads[1].phone == CALLER
    ensures Matches(leads, NormalizePhone(Some(CALLER)), Some(1))
  {
    WebhookPhone.WhatIsKept("16502530000");
  }

  /** Called, and nothing else yet. */
  predicate Called(t: State) {
    && t.leads.Keys == {1} && t.leads[1].phone == CALLER && t.leads[1].autoReplies == 0
    && t.messages == [] && t.inFlight == [] && t.now == 0 && t.chunk.Some?
    && t.chunk.value.next == |t.chunk.value.rows|
    && t.chunk.value.progress.attempts == [Attempt(1, 0, true, Some("SENT"))]
  }

  lemma CalledOnce(cfg: Config)
    requires cfg.limit >= 1
    ensures Called(Run(cfg, SendThrottle.OneReadyLead(), Sent()))
  {
    var s := SendThrottle.OneReadyLead();
    var open, turn := OpenChunk([1], true), TakeTurn(Some(10), Accepted(Some("SENT")));
    RunTwo(cfg, s, [], open, turn);
    assert [] + [open] + [turn] == Sent();
    SendThrottle.OpensOnReadyLead(cfg, s, 0);
    SendThrottle.ReadyTurn(cfg, Next(cfg, s, open), "SENT");
  }

  lemma StopArrives(cfg: Config, t: State, sid: Sid, body: Option<string>)
    requires t.leads.Keys == {1} && t.leads[1].phone == CALLER && t.leads[1].autoReplies == 0
    requires !HasSid(t.messages, sid) && t.inFlight == []
    ensures var u := Next(cfg, Next(cfg, t, Reply(sid, body)), CommitDelivery(0));
            && u.leads == t.leads[1 := AfterReply(t.leads[1], Suppressing(cfg.judge(body, 0)))]
            && u.chunk == t.chunk && u.now == t.now && u.inFlight == []
            && |u.messages| == |t.messages| + 1 && u.messages[..|t.messages|] == t.messages
            && u.messages[|t.messages|].sid == Some(sid)
  {
    CallerIsMatched(t.leads);
    var received := Next(cfg, t, Reply(sid, body));
    assert received.inFlight == [InboundDelivery(sid, NormalizePhone(Some(CALLER)), body, Some(Matched(1, 0)))];
    assert WithoutAt(received.inFlight, 0) == [];
  }

  lemma StopsTheCalled(cfg: Config, t: State, stop: Option<string>)
    requires Suppressing(cfg.judge(stop, 0)) && Called(t)
    ensures Stopped(Next(cfg, Next(cfg, t, Reply("STOP", stop)), CommitDelivery(0)))
  {
    StopArrives(cfg, t, "STOP", stop);
  }

  lemma CommitAfterStop(cfg: Config, s: State)
    requires Stopped(s)
    ensures var t := Next(cfg, s, CommitChunk);
            && t.leads.Keys == {1} && t.leads[1] == s.leads[1].(status := Contacted)
            && t.inFlight == [] && !HasSid(t.messages, "NEXT")
  {
    var attempts := [Attempt(1, 0, true, Some("SENT"))];
    assert !Collides(s.messages, attempts);
    assert attempts[..0] == [] && ContactedBy(attempts) == [1];
  }

  /** The lead's status and flag. */
  predicate Shows(s: State, status: LeadStatus) {
    1 in s.leads && s.leads[1].status == status && s.leads[1].optedOut
  }

  /**
   * Both overwrites in one run: the chunk that was under way commits after the opt-out and sets the lead
   * to Contacted; a later reply that is no opt-out sets it to Replied. The flag stays throughout.
   */
  lemma StatusDoesNotLast(cfg: Config, stop: Option<string>, reply: Option<string>)
    requires cfg.limit >= 1 && Suppressing(cfg.judge(stop, 0)) && !Suppressing(cfg.judge(reply, 0))
    ensures Initial(SendThrottle.OneReadyLead())
    ensures var s, stopped := SendThrottle.OneReadyLead(), Sent() + [Reply("STOP", stop)] + [CommitDelivery(0)];
            var sent := stopped + [CommitChunk];
            && Shows(Run(cfg, s, stopped), Suppressed)
            && Shows(Run(cfg, s, sent), Contacted)
            && Shows(Run(cfg, s, sent + [Reply("NEXT", reply)] + [CommitDelivery(0)]), Replied)
  {
    var s, stopped := SendThrottle.OneReadyLead(), Sent() + [Reply("STOP", stop)] + [CommitDelivery(0)];
    CalledOnce(cfg);
    RunTwo(cfg, s, Sent(), Reply("STOP", stop), CommitDelivery(0));
    StopsTheCalled(cfg, Run(cfg, s, Sent()), stop);
    RunOn(cfg, s, stopped, CommitChunk);
    CommitAfterStop(cfg, Run(cfg, s, stopped));
    RunTwo(cfg, s, stopped + [CommitChunk], Reply("NEXT", reply), CommitDelivery(0));
    StopArrives(cfg, Run(cfg, s, stopped + [CommitChunk]), "NEXT", reply);
  }
}
