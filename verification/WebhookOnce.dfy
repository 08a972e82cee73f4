/**
 * At-most-once effects of the webhooks: however often a provider id is delivered, and however the
 * deliveries race, it gets one message row, one guardrail evaluation and one enqueued mirror.
 */
module WebhookOnce {
  import opened Common
  import opened SendService
  import opened OrgProtocol

  predicate Distinct(a: Message, b: Message) { a.sid.Some? ==> a.sid != b.sid }

  ghost predicate UniqueSids(ms: seq<Message>) {
    forall i, j {:trigger Distinct(ms[i], ms[j])} :: 0 <= i < j < |ms| ==> Distinct(ms[i], ms[j])
  }

  predicate NoRepeats(sids: seq<Sid>) { forall i, j :: 0 <= i < j < |sids| ==> sids[i] != sids[j] }

  /** The row of this id is an inbound one, and only such rows carry a verdict. */
  predicate IsInboundRow(m: Message, sid: Sid) { m.sid == Some(sid) && m.direction == Inbound }

  predicate HasInbound(ms: seq<Message>, sid: Sid) { exists i :: 0 <= i < |ms| && IsInboundRow(ms[i], sid) }

  predicate RowEvaluated(m: Message, evaluations: seq<Sid>) {
    && (m.verdict.Some? <==> m.direction == Inbound)
    && (m.direction == Inbound ==> m.sid.Some? && m.sid.value in evaluations)
  }

  ghost predicate Once(s: State) {
    && UniqueSids(s.messages)
    && (forall i {:trigger RowEvaluated(s.messages[i], s.evaluations)} ::
          0 <= i < |s.messages| ==> RowEvaluated(s.messages[i], s.evaluations))
    && NoRepeats(s.evaluations) && NoRepeats(s.mirrors)
    && (forall sid :: sid in s.evaluations ==> HasInbound(s.messages, sid))
    && (forall sid :: sid in s.mirrors ==> sid in s.evaluations)
    && (forall sid :: sid in s.answered ==> HasSid(s.messages, sid))
  }

  /** Rows are never removed, and what identifies a row never changes. */
  ghost predicate RowsKept(before: seq<Message>, after: seq<Message>) {
    && |before| <= |after|
    && forall i :: 0 <= i < |before| ==>
         && after[i].sid == before[i].sid && after[i].direction == before[i].direction
         && after[i].verdict == before[i].verdict
  }

  lemma InboundRowIsARow(ms: seq<Message>, sid: Sid)
    ensures HasInbound(ms, sid) ==> HasSid(ms, sid)
  {
    if HasInbound(ms, sid) {
      var i :| 0 <= i < |ms| && IsInboundRow(ms[i], sid);
      assert ms[i].sid == Some(sid);
    }
  }

  lemma KeptRowsAreFound(before: seq<Message>, after: seq<Message>, sid: Sid)
    requires RowsKept(before, after)
    ensures HasSid(before, sid) ==> HasSid(after, sid)
    ensures HasInbound(before, sid) ==> HasInbound(after, sid)
  {
    if HasSid(before, sid) {
      var i :| 0 <= i < |before| && before[i].sid == Some(sid);
      assert after[i].sid == Some(sid);
    }
    if HasInbound(before, sid) {
      var i :| 0 <= i < |before| && IsInboundRow(before[i], sid);
      assert IsInboundRow(after[i], sid);
    }
  }

  /** Steps that add no row and evaluate nothing. */
  lemma QuietStepKeepsOnce(s: State, t: State)
    requires Once(s) && RowsKept(s.messages, t.messages) && |t.messages| == |s.messages|
    requires t.evaluations == s.evaluations && t.mirrors == s.mirrors
    requires forall sid :: sid in t.answered && sid !in s.answered ==> HasSid(s.messages, sid)
    ensures Once(t)
  {
    forall i, j | 0 <= i < j < |t.messages| ensures Distinct(t.messages[i], t.messages[j]) {
      assert Distinct(s.messages[i], s.messages[j]);
    }
    forall i | 0 <= i < |t.messages| ensures RowEvaluated(t.messages[i], t.evaluations) {
      assert RowEvaluated(s.messages[i], s.evaluations);
    }
    forall sid | sid in t.evaluations ensures HasInbound(t.messages, sid) {
      KeptRowsAreFound(s.messages, t.messages, sid);
    }
    forall sid | sid in t.answered ensures HasSid(t.messages, sid) { KeptRowsAreFound(s.messages, t.messages, sid); }
  }

  predicate FreshOutbound(ms: seq<Message>, m: Message) {
    m.direction == Outbound && m.verdict.None? && (m.sid.Some? ==> !HasSid(ms, m.sid.value))
  }

  /** New outbound rows under ids nobody holds. */
  lemma OutboundRowsKeepOnce(s: State, t: State, added: seq<Message>)
    requires Once(s) && t.messages == s.messages + added && UniqueSids(added)
    requires forall i :: 0 <= i < |added| ==> FreshOutbound(s.messages, added[i])
    requires t.evaluations == s.evaluations && t.mirrors == s.mirrors
    requires forall sid :: sid in t.answered && sid !in s.answered ==> HasSid(t.messages, sid)
    ensures Once(t)
  {
    var n := |s.messages|;
    forall i, j | 0 <= i < j < |t.messages| ensures Distinct(t.messages[i], t.messages[j]) {
      if j < n {
        assert Distinct(s.messages[i], s.messages[j]);
      } else if i >= n {
        assert Distinct(added[i - n], added[j - n]);
      } else {
        assert FreshOutbound(s.messages, added[j - n]) && t.messages[i] == s.messages[i];
      }
    }
    forall i | 0 <= i < |t.messages| ensures RowEvaluated(t.messages[i], t.evaluations) {
      if i < n {
        assert RowEvaluated(s.messages[i], s.evaluations);
      } else {
        assert FreshOutbound(s.messages, added[i - n]);
      }
    }
    forall sid | sid in t.evaluations ensures HasInbound(t.messages, sid) {
      KeptRowsAreFound(s.messages, t.messages, sid);
    }
    forall sid | sid in t.answered ensures HasSid(t.messages, sid) { KeptRowsAreFound(s.messages, t.messages, sid); }
  }

  /** The insert that wins: a fresh id, evaluated now for the first time. */
  lemma InboundRowKeepsOnce(s: State, t: State, m: Message, sid: Sid)
    requires Once(s) && !HasSid(s.messages, sid)
    requires t.messages == s.messages + [m] && m.sid == Some(sid) && m.direction == Inbound && m.verdict.Some?
    requires t.evaluations == s.evaluations + [sid] && (t.mirrors == s.mirrors || t.mirrors == s.mirrors + [sid])
    requires t.answered == s.answered + {sid}
    ensures Once(t)
  {
    var n := |s.messages|;
    assert IsInboundRow(t.messages[n], sid) && t.messages[n].sid == Some(sid);
    InboundRowIsARow(s.messages, sid);
    forall i, j | 0 <= i < j < |t.messages| ensures Distinct(t.messages[i], t.messages[j]) {
      if j < n { assert Distinct(s.messages[i], s.messages[j]); }
    }
    forall i | 0 <= i < |t.messages| ensures RowEvaluated(t.messages[i], t.evaluations) {
      if i < n { assert RowEvaluated(s.messages[i], s.evaluations); }
    }
    forall x | x in t.evaluations ensures HasInbound(t.messages, x) { KeptRowsAreFound(s.messages, t.messages, x); }
    forall x | x in t.answered ensures HasSid(t.messages, x) { KeptRowsAreFound(s.messages, t.messages, x); }
  }

  lemma DeliveryKeepsOnce(cfg: Config, s: State, index: nat)
    requires Once(s) && Enabled(s, CommitDelivery(index))
    ensures Once(Next(cfg, s, CommitDelivery(index)))
  {
    var t, d := Next(cfg, s, CommitDelivery(index)), s.inFlight[index];
    if HasSid(s.messages, d.sid) {
      QuietStepKeepsOnce(s, t);
    } else if d.InboundDelivery? {
      InboundRowKeepsOnce(s, t, t.messages[|s.messages|], d.sid);
    } else {
      assert t.messages[|s.messages|].sid == Some(d.sid);
      OutboundRowsKeepOnce(s, t, [Stub(d.sid, d.status, s.now)]);
    }
  }

  lemma CommitKeepsOnce(cfg: Config, s: State)
    requires Once(s) && Enabled(s, CommitChunk)
    ensures Once(Next(cfg, s, CommitChunk))
  {
    var t, attempts := Next(cfg, s, CommitChunk), s.chunk.value.progress.attempts;
    if Collides(s.messages, attempts) {
      QuietStepKeepsOnce(s, t);
    } else {
      OutboundRowsKeepOnce(s, t, LogAll(attempts, s.now));
    }
  }

  lemma JobAddsNoRow(cfg: Config, s: State, index: nat, arrives: bool, heard: bool)
    requires index < |s.jobs|
    ensures var t := JobEffects(cfg, s, index, arrives, heard);
            && RowsKept(s.messages, t.messages) && |t.messages| == |s.messages|
            && t.evaluations == s.evaluations && t.mirrors == s.mirrors && t.answered == s.answered
  {
  }

  lemma OtherStepsAddNoRow(cfg: Config, s: State, step: Step)
    requires Enabled(s, step) && !step.CommitDelivery? && !step.CommitChunk?
    ensures var t := Next(cfg, s, step);
            && RowsKept(s.messages, t.messages) && |t.messages| == |s.messages|
            && t.evaluations == s.evaluations && t.mirrors == s.mirrors
            && forall sid :: sid in t.answered && sid !in s.answered ==> HasSid(s.messages, sid)
  {
    match step {
      case RunJob(index, arrives, heard) => JobAddsNoRow(cfg, s, index, arrives, heard);
      case _ =>
    }
  }

  lemma StepKeepsOnce(cfg: Config, s: State, step: Step)
    requires Once(s)
    ensures Once(Next(cfg, s, step))
  {
    if Enabled(s, step) {
      match step {
        case CommitDelivery(index) => DeliveryKeepsOnce(cfg, s, index);
        case CommitChunk => CommitKeepsOnce(cfg, s);
        case _ =>
          OtherStepsAddNoRow(cfg, s, step);
          QuietStepKeepsOnce(s, Next(cfg, s, step));
      }
    }
  }

  lemma {:induction false} AlwaysOnce(cfg: Config, s: State, steps: seq<Step>)
    requires Initial(s)
    ensures Once(Run(cfg, s, steps))
  {
    if steps == [] {
    } else {
      AlwaysOnce(cfg, s, steps[..|steps| - 1]);
      StepKeepsOnce(cfg, Run(cfg, s, steps[..|steps| - 1]), steps[|steps| - 1]);
    }
  }

  /** One row per provider id, one evaluation, one mirror; and a row for every id answered 200. */
  lemma AtMostOnce(cfg: Config, s: State, steps: seq<Step>)
    requires Initial(s)
    ensures var t := Run(cfg, s, steps);
            && (forall i, j :: 0 <= i < j < |t.messages| && t.messages[i].sid.Some? ==>
                t.messages[i].sid != t.messages[j].sid)
            && NoRepeats(t.evaluations) && NoRepeats(t.mirrors)
            && (forall sid :: sid in t.mirrors ==> sid in t.evaluations)
            && (forall sid :: sid in t.answered ==> HasSid(t.messages, sid))
  {
    AlwaysOnce(cfg, s, steps);
    var t := Run(cfg, s, steps);
    forall i, j | 0 <= i < j < |t.messages| && t.messages[i].sid.Some? ensures t.messages[i].sid != t.messages[j].sid {
      assert Distinct(t.messages[i], t.messages[j]);
    }
  }

  /** An answered id was evaluated exactly when its one row is an inbound row, not a status stub or a send. */
  lemma EvaluatedIffInboundRow(cfg: Config, s: State, steps: seq<Step>, sid: Sid)
    requires Initial(s) && sid in Run(cfg, s, steps).answered
    ensures var t := Run(cfg, s, steps);
            && HasSid(t.messages, sid)
            && (sid in t.evaluations <==> t.messages[IndexOfSid(t.messages, sid)].direction == Inbound)
  {
    AlwaysOnce(cfg, s, steps);
    var t := Run(cfg, s, steps);
    var i := IndexOfSid(t.messages, sid);
    assert RowEvaluated(t.messages[i], t.evaluations);
    if sid in t.evaluations {
      var j :| 0 <= j < |t.messages| && IsInboundRow(t.messages[j], sid);
      assert i < j ==> Distinct(t.messages[i], t.messages[j]);
      assert j < i ==> Distinct(t.messages[j], t.messages[i]);
    }
  }

  /** The other case is real: a status callback that reuses an inbound id makes its opt-out a no-op. */
  lemma StubSwallowsTheDelivery(cfg: Config, s: State, sid: Sid, from: Option<string>, body: Option<string>)
    requires Initial(s) && Matches(s.leads, NormalizePhone(from), None)
    ensures var steps := [ReceiveStatus(sid, "failed"), CommitDelivery(0), ReceiveInbound(sid, from, body, None)];
            var t := Run(cfg, s, steps);
            sid in t.answered && t.evaluations == [] && t.jobs == []
  {
    var x := [ReceiveStatus(sid, "failed"), CommitDelivery(0), ReceiveInbound(sid, from, body, None)];
    assert x[..1] == [] + [x[0]] && x[..2] == x[..1] + [x[1]] && x == x[..2] + [x[2]];
    RunOn(cfg, s, [], x[0]);
    RunOn(cfg, s, x[..1], x[1]);
    RunOn(cfg, s, x[..2], x[2]);
    StubIsWritten(cfg, Run(cfg, s, x[..1]), sid);
    TakenIdIsAnsweredAtOnce(cfg, Run(cfg, s, x[..2]), sid, from, body);
  }

  /** A delivery whose id already has a row is answered and does nothing else. */
  lemma TakenIdIsAnsweredAtOnce(cfg: Config, s: State, sid: Sid, from: Option<string>, body: Option<string>)
    requires 0 < |s.messages| && s.messages[0].sid == Some(sid) && Matches(s.leads, NormalizePhone(from), None)
    ensures Next(cfg, s, ReceiveInbound(sid, from, body, None)) ==
            s.(answered := s.answered + {sid}, step := s.step + 1)
  {
    assert HasSid(s.messages, sid);
  }

  lemma StubIsWritten(cfg: Config, s: State, sid: Sid)
    requires s.messages == [] && s.inFlight == [StatusDelivery(sid, "failed")]
    ensures var t := Next(cfg, s, CommitDelivery(0));
            && t.messages == [Stub(sid, "failed", s.now)] && t.leads == s.leads && t.evaluations == s.evaluations
            && t.jobs == s.jobs
  {
  }
}
