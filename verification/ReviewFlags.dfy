/**
 * Who reaches a human, in every run: each message judged for review and each opt-out nobody can mirror
 * at once, an opt-out being mirrored only after its fifth execution, and nothing else ever.
 */
module ReviewFlags {
  import opened Common
  import opened SendService
  import opened OrgProtocol
  import opened MirrorDelivery
  import opened WebhookWrites
  import Guardrails

  /** When a row may and when it must be flagged. */
  predicate FlaggedRightly(s: State, i: nat)
    requires i < |s.messages|
  {
    var m := s.messages[i];
    match m.verdict
    case None => !m.needsReview
    case Some(Proceed) => !m.needsReview
    case Some(HumanReview) => m.needsReview
    case Some(SuppressAndStop) => if m.identifier == None then m.needsReview else m.needsReview ==> s.executions[i] == 5
  }

  ghost predicate Reviewed(s: State) { forall i :: 0 <= i < |s.messages| ==> FlaggedRightly(s, i) }

  /** Rows kept in verdict, identifier and flag, and new ones that are nobody's message. */
  lemma QuietStepKeepsFlags(s: State, t: State)
    requires Reviewed(s) && t.executions == s.executions && |s.messages| <= |t.messages|
    requires forall i :: 0 <= i < |s.messages| ==> RowKept(s.messages[i], t.messages[i])
    requires forall i :: |s.messages| <= i < |t.messages| ==>
             t.messages[i].verdict == None && !t.messages[i].needsReview
    ensures Reviewed(t)
  {
    forall i | 0 <= i < |t.messages| ensures FlaggedRightly(t, i) {
      if i < |s.messages| {
        assert FlaggedRightly(s, i) && RowKept(s.messages[i], t.messages[i]);
      }
    }
  }

  lemma InboundKeepsReview(cfg: Config, s: State, index: nat)
    requires Reviewed(s) && index < |s.inFlight| && s.inFlight[index].InboundDelivery?
    requires !HasSid(s.messages, s.inFlight[index].sid)
    ensures Reviewed(Next(cfg, s, CommitDelivery(index)))
  {
    var t, n := Next(cfg, s, CommitDelivery(index)), |s.messages|;
    InboundWrites(cfg, s, index);
    assert t.executions == s.executions;
    forall i | 0 <= i < |t.messages| ensures FlaggedRightly(t, i) {
      if i < n {
        assert FlaggedRightly(s, i) && t.messages[..n][i] == s.messages[i];
      }
    }
  }

  /** An execution flags its own row only, and only as the fifth. */
  lemma ExecutionKeepsReview(cfg: Config, s: State, index: nat, arrives: bool, heard: bool)
    requires Reviewed(s) && index < |s.jobs| && JobFits(s, s.jobs[index])
    ensures Reviewed(Next(cfg, s, RunJob(index, arrives, heard)))
  {
    var t, job := Next(cfg, s, RunJob(index, arrives, heard)), s.jobs[index];
    ExecutionWrites(cfg, s, index, arrives, heard);
    assert t.executions == s.executions[job.message := s.executions[job.message] + 1];
    forall i | 0 <= i < |t.messages| ensures FlaggedRightly(t, i) {
      assert FlaggedRightly(s, i);
    }
  }

  lemma ThrowKeepsReview(cfg: Config, s: State, index: nat, arrives: bool)
    requires Reviewed(s) && index < |s.jobs| && JobFits(s, s.jobs[index])
    ensures Reviewed(Next(cfg, s, FailJob(index, arrives)))
  {
    var t, job := Next(cfg, s, FailJob(index, arrives)), s.jobs[index];
    ThrowWrites(cfg, s, index, arrives);
    assert t.executions == s.executions[job.message := s.executions[job.message] + 1];
    forall i | 0 <= i < |t.messages| ensures FlaggedRightly(t, i) {
      assert FlaggedRightly(s, i);
    }
  }

  lemma QuietDeliveryKeepsReview(cfg: Config, s: State, index: nat)
    requires Reviewed(s) && index < |s.inFlight|
    requires s.inFlight[index].StatusDelivery? || HasSid(s.messages, s.inFlight[index].sid)
    ensures Reviewed(Next(cfg, s, CommitDelivery(index)))
  {
    QuietStepKeepsFlags(s, Next(cfg, s, CommitDelivery(index)));
  }

  lemma CommitKeepsReview(cfg: Config, s: State)
    requires Reviewed(s) && Enabled(s, CommitChunk)
    ensures Reviewed(Next(cfg, s, CommitChunk))
  {
    QuietStepKeepsFlags(s, Next(cfg, s, CommitChunk));
  }

  lemma OtherStepsWriteNoRow(cfg: Config, s: State, step: Step)
    requires !step.CommitDelivery? && !step.RunJob? && !step.FailJob? && !step.CommitChunk?
    ensures Next(cfg, s, step).messages == s.messages && Next(cfg, s, step).executions == s.executions
  {
  }

  lemma StepKeepsReview(cfg: Config, s: State, step: Step)
    requires Reviewed(s) && Mirrored(cfg, s)
    ensures Reviewed(Next(cfg, s, step))
  {
    if Enabled(s, step) {
      match step {
        case CommitDelivery(index) =>
          if s.inFlight[index].InboundDelivery? && !HasSid(s.messages, s.inFlight[index].sid) {
            InboundKeepsReview(cfg, s, index);
          } else {
            QuietDeliveryKeepsReview(cfg, s, index);
          }
        case RunJob(index, arrives, heard) => ExecutionKeepsReview(cfg, s, index, arrives, heard);
        case FailJob(index, arrives) => ThrowKeepsReview(cfg, s, index, arrives);
        case CommitChunk => CommitKeepsReview(cfg, s);
        case _ =>
          OtherStepsWriteNoRow(cfg, s, step);
          QuietStepKeepsFlags(s, Next(cfg, s, step));
      }
    }
  }

  lemma {:induction false} AlwaysReviewed(cfg: Config, s: State, steps: seq<Step>)
    requires Initial(s)
    ensures Reviewed(Run(cfg, s, steps))
  {
    if steps == [] {
    } else {
      var n := |steps| - 1;
      AlwaysReviewed(cfg, s, steps[..n]);
      AlwaysMirrored(cfg, s, steps[..n]);
      StepKeepsReview(cfg, Run(cfg, s, steps[..n]), steps[n]);
    }
  }

  /**
   * In every run a message judged for review is flagged, from its commit on and for good; one judged
   * to proceed, and one nobody judged, never is.
   */
  lemma ReviewReachesAHuman(cfg: Config, s: State, steps: seq<Step>, i: nat)
    requires Initial(s) && i < |Run(cfg, s, steps).messages|
    ensures var m := Run(cfg, s, steps).messages[i];
            && (m.verdict == Some(Guardrails.HumanReview) ==> m.needsReview)
            && (m.verdict == Some(Guardrails.Proceed) || m.verdict == None ==> !m.needsReview)
  {
    AlwaysReviewed(cfg, s, steps);
    assert FlaggedRightly(Run(cfg, s, steps), i);
  }

  /**
   * An opt-out without an identifier is flagged at once. One with an identifier is flagged only after
   * five executions of its mirror, never more; and once it had five it is flagged, in the log, or its
   * job died.
   */
  lemma OptOutIsFlaggedAfterFive(cfg: Config, s: State, steps: seq<Step>, i: nat)
    requires Initial(s) && i < |Run(cfg, s, steps).messages|
    requires Run(cfg, s, steps).messages[i].verdict == Some(Guardrails.SuppressAndStop)
    ensures var t := Run(cfg, s, steps);
            var m := t.messages[i];
            && t.executions[i] <= 5
            && (m.identifier == None ==> m.needsReview)
            && (m.identifier != None && m.needsReview ==> t.executions[i] == 5)
            && (t.executions[i] == 5 ==> m.needsReview || HasLanded(cfg, t, m) || SomeJobDies(cfg, s, steps, i))
  {
    AlwaysReviewed(cfg, s, steps);
    AlwaysMirrored(cfg, s, steps);
    DiedIff(cfg, s, steps, i);
    var t := Run(cfg, s, steps);
    assert FlaggedRightly(t, i) && Secured(cfg, t, i) && Bounded(t, i);
    if Queued(t.jobs, i) {
      var k :| 0 <= k < |t.jobs| && t.jobs[k].message == i;
      assert JobFits(t, t.jobs[k]);
    }
  }

  /**
   * In every run an execution below the fifth that neither throws nor is answered 200 leaves its job
   * queued one attempt up, that attempt being the number of executions so far, and its row unflagged.
   */
  lemma UnheardIsRetried(cfg: Config, s: State, steps: seq<Step>, index: nat, arrives: bool, heard: bool)
    requires Initial(s) && index < |Run(cfg, s, steps).jobs|
    requires var t := Run(cfg, s, steps);
             var job := t.jobs[index];
             t.executions[job.message] < 4 && !(arrives && heard && cfg.accept(job.identifier).Some?)
    ensures var t, u := Run(cfg, s, steps), Run(cfg, s, steps + [RunJob(index, arrives, heard)]);
            var job := t.jobs[index];
            && job.attempt == t.executions[job.message]
            && u.jobs == t.jobs[index := Job(job.identifier, job.message, job.attempt + 1)]
            && u.executions[job.message] == job.attempt + 1
            && u.messages == t.messages && job.message < |u.messages| && !u.messages[job.message].needsReview
  {
    AlwaysMirrored(cfg, s, steps);
    var t := Run(cfg, s, steps);
    assert JobFits(t, t.jobs[index]);
    RunOn(cfg, s, steps, RunJob(index, arrives, heard));
    ExecutionWrites(cfg, t, index, arrives, heard);
  }
}
