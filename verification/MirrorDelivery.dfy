/**
 * Opt-outs on their way to the AWS list: in every reachable state each inbound message judged an
 * opt-out still has a queued mirror job, or is in the log, or is flagged for a human, unless an
 * execution of its job threw with no request landed. Jobs stop within five executions, and lost
 * responses can only repeat events, never change who is suppressed.
 */
module MirrorDelivery {
  import opened Common
  import opened SendService
  import opened EventLog
  import opened OptOutSet
  import opened OrgProtocol

  predicate IsOptOut(m: Message) { m.verdict.Some? && Suppressing(m.verdict.value) }

  predicate Queued(jobs: seq<Job>, i: nat) { exists k :: 0 <= k < |jobs| && jobs[k].message == i }

  /** An event for this identifier is in the log. */
  predicate Landed(aws: seq<Event>, id: string) { exists k :: 0 <= k < |aws| && aws[k].identifier == id }

  /** The message's identifier is in the log. */
  predicate HasLanded(cfg: Config, s: State, m: Message) {
    m.identifier.Some? && cfg.accept(m.identifier.value).Some? && Landed(s.aws, cfg.accept(m.identifier.value).value)
  }

  /** The message's opt-out is in the log, still under way, with a human, or its job died. */
  predicate Secured(cfg: Config, s: State, i: nat)
    requires i < |s.messages|
  {
    var m := s.messages[i];
    IsOptOut(m) ==> m.needsReview || Queued(s.jobs, i) || HasLanded(cfg, s, m) || i in s.died
  }

  /** A queued job carries its message's identifier and as many attempts as were executed for it. */
  predicate JobFits(s: State, job: Job) {
    && job.message < |s.messages| && IsOptOut(s.messages[job.message])
    && s.messages[job.message].identifier == Some(job.identifier)
    && !s.messages[job.message].needsReview && job.message !in s.died
    && job.attempt < MAX_ATTEMPTS && s.executions[job.message] == job.attempt
  }

  /** Nothing more happens to an opt-out whose job died: it is not queued, and nobody is told. */
  predicate DeadEnd(s: State, i: nat) {
    i < |s.messages| && IsOptOut(s.messages[i]) && !s.messages[i].needsReview && !Queued(s.jobs, i)
  }

  predicate Bounded(s: State, i: nat) {
    s.executions[i] <= MAX_ATTEMPTS && (i >= |s.messages| ==> s.executions[i] == 0)
  }

  predicate PutInTime(e: Event, now: int) { e.occurredAt <= now }

  ghost predicate Mirrored(cfg: Config, s: State) {
    && (forall i {:trigger Secured(cfg, s, i)} :: 0 <= i < |s.messages| ==> Secured(cfg, s, i))
    && (forall k {:trigger JobFits(s, s.jobs[k])} :: 0 <= k < |s.jobs| ==> JobFits(s, s.jobs[k]))
    && (forall j, k :: 0 <= j < k < |s.jobs| ==> s.jobs[j].message != s.jobs[k].message)
    && (forall i {:trigger DeadEnd(s, i)} :: i in s.died ==> DeadEnd(s, i))
    && (forall i: nat {:trigger Bounded(s, i)} :: Bounded(s, i))
    && (forall k {:trigger PutInTime(s.aws[k], s.now)} :: 0 <= k < |s.aws| ==> PutInTime(s.aws[k], s.now))
  }

  /** Rows keep verdict, identifier and review flag. */
  predicate RowKept(before: Message, after: Message) {
    after.verdict == before.verdict && after.identifier == before.identifier && after.needsReview == before.needsReview
  }

  /** Steps that leave jobs and log alone and add only rows that are no opt-outs. */
  lemma QuietStepKeepsMirrors(cfg: Config, s: State, t: State)
    requires Mirrored(cfg, s) && s.now <= t.now
    requires t.jobs == s.jobs && t.aws == s.aws && t.executions == s.executions && t.died == s.died
    requires |s.messages| <= |t.messages|
    requires forall i :: 0 <= i < |s.messages| ==> RowKept(s.messages[i], t.messages[i])
    requires forall i :: |s.messages| <= i < |t.messages| ==> !IsOptOut(t.messages[i])
    ensures Mirrored(cfg, t)
  {
    forall i | 0 <= i < |t.messages| ensures Secured(cfg, t, i) {
      if i < |s.messages| {
        assert Secured(cfg, s, i) && RowKept(s.messages[i], t.messages[i]);
      }
    }
    forall k | 0 <= k < |t.jobs| ensures JobFits(t, t.jobs[k]) {
      assert JobFits(s, s.jobs[k]);
      assert RowKept(s.messages[s.jobs[k].message], t.messages[s.jobs[k].message]);
    }
    forall i | i in t.died ensures DeadEnd(t, i) { assert DeadEnd(s, i) && RowKept(s.messages[i], t.messages[i]); }
    forall i: nat ensures Bounded(t, i) { assert Bounded(s, i); }
    forall k | 0 <= k < |t.aws| ensures PutInTime(t.aws[k], t.now) { assert PutInTime(s.aws[k], s.now); }
  }

  lemma InboundKeepsMirrors(cfg: Config, s: State, d: Delivery)
    requires Mirrored(cfg, s) && d.InboundDelivery?
    ensures Mirrored(cfg, InboundEffects(cfg, s, d))
  {
    var t, n := InboundEffects(cfg, s, d), |s.messages|;
    forall i | 0 <= i < |t.messages| ensures Secured(cfg, t, i) {
      if i < n {
        assert Secured(cfg, s, i);
        if Queued(s.jobs, i) {
          var k :| 0 <= k < |s.jobs| && s.jobs[k].message == i;
          assert t.jobs[k].message == i;
        }
      } else if |t.jobs| > |s.jobs| {
        assert t.jobs[|s.jobs|].message == n;
      }
    }
    assert Bounded(s, n);
    assert n in s.died ==> DeadEnd(s, n);
    forall k | 0 <= k < |t.jobs| ensures JobFits(t, t.jobs[k]) {
      if k < |s.jobs| { assert JobFits(s, s.jobs[k]); }
    }
    forall j, k | 0 <= j < k < |t.jobs| ensures t.jobs[j].message != t.jobs[k].message {
      assert JobFits(s, s.jobs[j]);
    }
    forall i | i in t.died ensures DeadEnd(t, i) { assert DeadEnd(s, i); }
    forall i: nat ensures Bounded(t, i) { assert Bounded(s, i); }
    forall k | 0 <= k < |t.aws| ensures PutInTime(t.aws[k], t.now) { assert PutInTime(s.aws[k], s.now); }
  }

  /** The three ends of one execution: done, queued again one attempt up, or flagged. */
  lemma JobKeepsMirrors(cfg: Config, s: State, index: nat, arrives: bool, heard: bool)
    requires Mirrored(cfg, s) && index < |s.jobs|
    ensures Mirrored(cfg, JobEffects(cfg, s, index, arrives, heard))
  {
    var t, job := JobEffects(cfg, s, index, arrives, heard), s.jobs[index];
    assert JobFits(s, job);
    forall i | 0 <= i < |t.messages| ensures Secured(cfg, t, i) {
      assert Secured(cfg, s, i);
      JobSecures(cfg, s, index, arrives, heard, i);
    }
    forall k | 0 <= k < |t.jobs| ensures JobFits(t, t.jobs[k]) {
      var l := if |t.jobs| == |s.jobs| || k < index then k else k + 1;
      assert JobFits(s, s.jobs[l]);
    }
    forall i | i in t.died ensures DeadEnd(t, i) { assert DeadEnd(s, i); DeadStaysDown(s, t.jobs, index, i); }
    forall i: nat ensures Bounded(t, i) { assert Bounded(s, i); }
    forall k | 0 <= k < |t.aws| ensures PutInTime(t.aws[k], t.now) {
      if k < |s.aws| { assert PutInTime(s.aws[k], s.now); }
    }
  }

  /** A job queue with one job gone or one attempt up names no new message. */
  lemma DeadStaysDown(s: State, jobs: seq<Job>, index: nat, i: nat)
    requires index < |s.jobs| && !Queued(s.jobs, i)
    requires || jobs == WithoutAt(s.jobs, index)
             || (|jobs| == |s.jobs| && forall k :: 0 <= k < |jobs| ==> jobs[k].message == s.jobs[k].message)
    ensures !Queued(jobs, i)
  {
    forall k | 0 <= k < |jobs| ensures jobs[k].message != i {
      var l := if |jobs| == |s.jobs| || k < index then k else k + 1;
      assert jobs[k].message == s.jobs[l].message;
    }
  }

  lemma LandedStays(cfg: Config, s: State, t: State, m: Message)
    requires s.aws <= t.aws && HasLanded(cfg, s, m)
    ensures HasLanded(cfg, t, m)
  {
    var k :| 0 <= k < |s.aws| && s.aws[k].identifier == cfg.accept(m.identifier.value).value;
    assert t.aws[k] == s.aws[k];
  }

  lemma JobSecures(cfg: Config, s: State, index: nat, arrives: bool, heard: bool, i: nat)
    requires index < |s.jobs| && JobFits(s, s.jobs[index]) && i < |s.messages| && Secured(cfg, s, i)
    ensures |JobEffects(cfg, s, index, arrives, heard).messages| == |s.messages|
    ensures Secured(cfg, JobEffects(cfg, s, index, arrives, heard), i)
  {
    var t, job := JobEffects(cfg, s, index, arrives, heard), s.jobs[index];
    var m := s.messages[i];
    if IsOptOut(m) && HasLanded(cfg, s, m) {
      LandedStays(cfg, s, t, m);
    } else if IsOptOut(m) && i == job.message {
      if |t.aws| > |s.aws| {
        assert t.aws[|s.aws|].identifier == cfg.accept(job.identifier).value;
      } else if |t.jobs| == |s.jobs| {
        assert t.jobs[index].message == i;
      }
    } else if IsOptOut(m) && Queued(s.jobs, i) {
      var k :| 0 <= k < |s.jobs| && s.jobs[k].message == i;
      var l := if |t.jobs| == |s.jobs| || k < index then k else k - 1;
      assert t.jobs[l].message == i;
    }
  }

  /** An execution that throws: its job is gone, every other opt-out is where it was. */
  lemma FailureKeepsMirrors(cfg: Config, s: State, index: nat, arrives: bool)
    requires Mirrored(cfg, s) && index < |s.jobs|
    ensures Mirrored(cfg, FailureEffects(cfg, s, index, arrives))
  {
    var t, job := FailureEffects(cfg, s, index, arrives), s.jobs[index];
    assert JobFits(s, job);
    forall i | 0 <= i < |t.messages| ensures Secured(cfg, t, i) {
      assert Secured(cfg, s, i);
      FailureSecures(cfg, s, index, arrives, i);
    }
    forall k | 0 <= k < |t.jobs| ensures JobFits(t, t.jobs[k]) {
      var l := if k < index then k else k + 1;
      assert JobFits(s, s.jobs[l]) && t.jobs[k] == s.jobs[l];
    }
    forall i | i in t.died ensures DeadEnd(t, i) {
      if i in s.died { assert DeadEnd(s, i); DeadStaysDown(s, t.jobs, index, i); }
      else { OnlyJobIsGone(s.jobs, index); }
    }
    forall i: nat ensures Bounded(t, i) { assert Bounded(s, i); }
    forall k | 0 <= k < |t.aws| ensures PutInTime(t.aws[k], t.now) {
      if k < |s.aws| { assert PutInTime(s.aws[k], s.now); }
    }
  }

  lemma OnlyJobIsGone(jobs: seq<Job>, index: nat)
    requires index < |jobs| && forall j, k :: 0 <= j < k < |jobs| ==> jobs[j].message != jobs[k].message
    ensures !Queued(WithoutAt(jobs, index), jobs[index].message)
  {
    var rest := WithoutAt(jobs, index);
    forall k | 0 <= k < |rest| ensures rest[k].message != jobs[index].message {
      var l := if k < index then k else k + 1;
      assert rest[k] == jobs[l];
    }
  }

  lemma FailureSecures(cfg: Config, s: State, index: nat, arrives: bool, i: nat)
    requires index < |s.jobs| && i < |s.messages| && Secured(cfg, s, i)
    ensures Secured(cfg, FailureEffects(cfg, s, index, arrives), i)
  {
    var t, m := FailureEffects(cfg, s, index, arrives), s.messages[i];
    if HasLanded(cfg, s, m) {
      LandedStays(cfg, s, t, m);
    } else if Queued(s.jobs, i) && i != s.jobs[index].message {
      var k :| 0 <= k < |s.jobs| && s.jobs[k].message == i;
      assert t.jobs[if k < index then k else k - 1].message == i;
    }
  }

  lemma DeliveryKeepsMirrors(cfg: Config, s: State, d: Delivery)
    requires Mirrored(cfg, s)
    ensures Mirrored(cfg, DeliveryEffects(cfg, s, d))
  {
    if d.InboundDelivery? && !HasSid(s.messages, d.sid) {
      InboundKeepsMirrors(cfg, s, d);
    } else {
      QuietStepKeepsMirrors(cfg, s, DeliveryEffects(cfg, s, d));
    }
  }

  lemma OtherStepsAreQuiet(cfg: Config, s: State, step: Step)
    requires Enabled(s, step) && !step.CommitDelivery? && !step.RunJob? && !step.FailJob?
    ensures var t := Next(cfg, s, step);
            && s.now <= t.now && t.jobs == s.jobs && t.aws == s.aws && t.executions == s.executions && t.died == s.died
            && |s.messages| <= |t.messages| && t.messages[..|s.messages|] == s.messages
            && forall i :: |s.messages| <= i < |t.messages| ==> !IsOptOut(t.messages[i])
  {
  }

  /** The fields the mirror invariant does not look at. */
  lemma BookkeepingAside(cfg: Config, s: State, t: State)
    requires Mirrored(cfg, s)
    requires t == s.(inFlight := t.inFlight, answered := t.answered, step := t.step)
    ensures Mirrored(cfg, t)
  {
    QuietStepKeepsMirrors(cfg, s, t);
  }

  lemma StepKeepsMirrors(cfg: Config, s: State, step: Step)
    requires Mirrored(cfg, s)
    ensures Mirrored(cfg, Next(cfg, s, step))
  {
    if Enabled(s, step) {
      var t := Next(cfg, s, step);
      match step {
        case CommitDelivery(index) =>
          DeliveryKeepsMirrors(cfg, s, s.inFlight[index]);
          BookkeepingAside(cfg, DeliveryEffects(cfg, s, s.inFlight[index]), t);
        case RunJob(index, arrives, heard) =>
          JobKeepsMirrors(cfg, s, index, arrives, heard);
          BookkeepingAside(cfg, JobEffects(cfg, s, index, arrives, heard), t);
        case FailJob(index, arrives) =>
          FailureKeepsMirrors(cfg, s, index, arrives);
          BookkeepingAside(cfg, FailureEffects(cfg, s, index, arrives), t);
        case _ =>
          OtherStepsAreQuiet(cfg, s, step);
          forall i | 0 <= i < |s.messages| ensures RowKept(s.messages[i], t.messages[i]) {
            assert t.messages[..|s.messages|][i] == s.messages[i];
          }
          QuietStepKeepsMirrors(cfg, s, t);
      }
    }
  }

  lemma {:induction false} AlwaysMirrored(cfg: Config, s: State, steps: seq<Step>)
    requires Initial(s)
    ensures Mirrored(cfg, Run(cfg, s, steps))
  {
    if steps == [] {
    } else {
      AlwaysMirrored(cfg, s, steps[..|steps| - 1]);
      StepKeepsMirrors(cfg, Run(cfg, s, steps[..|steps| - 1]), steps[|steps| - 1]);
    }
  }

  // --- what it means ------------------------------------------------------------------

  /** A mirror of the message is queued, under the message's own identifier. */
  predicate Mirroring(s: State, i: nat)
    requires i < |s.messages|
  {
    exists k :: 0 <= k < |s.jobs| && s.jobs[k].message == i && s.messages[i].identifier == Some(s.jobs[k].identifier)
  }

  /** The step is an execution that throws for message `i`. */
  predicate KillsJob(before: State, step: Step, i: nat) {
    step.FailJob? && step.index < |before.jobs| && before.jobs[step.index].message == i
  }

  predicate JobDies(cfg: Config, s: State, steps: seq<Step>, k: nat, i: nat)
    requires k < |steps|
  {
    KillsJob(Run(cfg, s, steps[..k]), steps[k], i)
  }

  ghost predicate SomeJobDies(cfg: Config, s: State, steps: seq<Step>, i: nat) {
    exists k :: 0 <= k < |steps| && JobDies(cfg, s, steps, k, i)
  }

  lemma DiesInOneStep(cfg: Config, before: State, step: Step, i: nat)
    ensures i in Next(cfg, before, step).died <==> i in before.died || KillsJob(before, step, i)
  {
    if Enabled(before, step) {
      match step {
        case FailJob(index, arrives) =>
        case RunJob(index, arrives, heard) =>
        case CommitDelivery(index) =>
        case _ =>
      }
    }
  }

  lemma SomeDeathOneMore(cfg: Config, s: State, steps: seq<Step>, i: nat)
    requires steps != []
    ensures var n := |steps| - 1;
            SomeJobDies(cfg, s, steps, i) <==> SomeJobDies(cfg, s, steps[..n], i) || JobDies(cfg, s, steps, n, i)
  {
    var n := |steps| - 1;
    forall k | 0 <= k < n ensures JobDies(cfg, s, steps[..n], k, i) <==> JobDies(cfg, s, steps, k, i) {
      assert steps[..n][..k] == steps[..k];
    }
  }

  /** The history of dead jobs is what the steps of the run say. */
  lemma {:induction false} DiedIff(cfg: Config, s: State, steps: seq<Step>, i: nat)
    requires Initial(s)
    ensures i in Run(cfg, s, steps).died <==> SomeJobDies(cfg, s, steps, i)
  {
    if steps == [] {
    } else {
      var n := |steps| - 1;
      DiedIff(cfg, s, steps[..n], i);
      DiesInOneStep(cfg, Run(cfg, s, steps[..n]), steps[n], i);
      SomeDeathOneMore(cfg, s, steps, i);
    }
  }

  /**
   * An opt-out is lost, neither flagged nor being mirrored nor in the log, exactly when an execution of
   * its job threw and no request for its identifier has landed.
   */
  lemma LostIffItsJobDied(cfg: Config, s: State, steps: seq<Step>, i: nat)
    requires Initial(s) && i < |Run(cfg, s, steps).messages| && IsOptOut(Run(cfg, s, steps).messages[i])
    ensures var t := Run(cfg, s, steps);
            var m := t.messages[i];
            !(m.needsReview || Mirroring(t, i) || HasLanded(cfg, t, m)) <==>
            SomeJobDies(cfg, s, steps, i) && !HasLanded(cfg, t, m)
    ensures Run(cfg, s, steps).executions[i] <= MAX_ATTEMPTS
  {
    AlwaysMirrored(cfg, s, steps);
    DiedIff(cfg, s, steps, i);
    var t := Run(cfg, s, steps);
    assert Secured(cfg, t, i) && Bounded(t, i);
    QueuedIsMirroring(cfg, t, i);
    if i in t.died {
      assert DeadEnd(t, i);
    }
  }

  lemma QueuedIsMirroring(cfg: Config, t: State, i: nat)
    requires Mirrored(cfg, t) && i < |t.messages|
    ensures Queued(t.jobs, i) <==> Mirroring(t, i)
  {
    if Queued(t.jobs, i) {
      var k :| 0 <= k < |t.jobs| && t.jobs[k].message == i;
      assert JobFits(t, t.jobs[k]);
    }
  }

  /** In a run in which no execution throws, no opt-out is lost. */
  lemma NoOptOutIsLost(cfg: Config, s: State, steps: seq<Step>, i: nat)
    requires Initial(s) && i < |Run(cfg, s, steps).messages| && IsOptOut(Run(cfg, s, steps).messages[i])
    requires forall k :: 0 <= k < |steps| ==> !steps[k].FailJob?
    ensures var t := Run(cfg, s, steps);
            t.messages[i].needsReview || Mirroring(t, i) || HasLanded(cfg, t, t.messages[i])
  {
    LostIffItsJobDied(cfg, s, steps, i);
  }

  /** An opt-out of an unknown sender, received and committed: one row, one job. */
  lemma OptOutArrives(cfg: Config, s: State, sid: Sid, from: Option<string>, body: Option<string>)
    requires Initial(s) && Matches(s.leads, NormalizePhone(from), None)
    requires NormalizePhone(from).Some? && Suppressing(cfg.judge(body, 0))
    ensures var t := Run(cfg, s, [ReceiveInbound(sid, from, body, None), CommitDelivery(0)]);
            && |t.messages| == 1 && IsOptOut(t.messages[0]) && !t.messages[0].needsReview
            && t.jobs == [Job(NormalizePhone(from).value, 0, 0)] && t.aws == []
  {
    var x := [ReceiveInbound(sid, from, body, None), CommitDelivery(0)];
    assert x[..1] == [] + [x[0]] && x == x[..1] + [x[1]];
    RunOn(cfg, s, [], x[0]);
    RunOn(cfg, s, x[..1], x[1]);
    assert !HasSid(s.messages, sid);
    assert Run(cfg, s, x[..1]).inFlight == [InboundDelivery(sid, NormalizePhone(from), body, None)];
    assert [] + [Job(NormalizePhone(from).value, 0, 0)] == [Job(NormalizePhone(from).value, 0, 0)];
  }

  /** And it does happen: the mirror of that opt-out throws on its first execution. */
  lemma FailingJobLosesAnOptOut(cfg: Config, s: State, sid: Sid, from: Option<string>, body: Option<string>)
    requires Initial(s) && Matches(s.leads, NormalizePhone(from), None)
    requires NormalizePhone(from).Some? && Suppressing(cfg.judge(body, 0))
    ensures var t := Run(cfg, s, [ReceiveInbound(sid, from, body, None), CommitDelivery(0)] + [FailJob(0, false)]);
            && |t.messages| == 1 && IsOptOut(t.messages[0])
            && !t.messages[0].needsReview && t.jobs == [] && t.aws == []
  {
    var x := [ReceiveInbound(sid, from, body, None), CommitDelivery(0)];
    OptOutArrives(cfg, s, sid, from, body);
    RunOn(cfg, s, x, FailJob(0, false));
    assert WithoutAt([Job(NormalizePhone(from).value, 0, 0)], 0) == [];
  }

  function LoggedIdentifiers(aws: seq<Event>): set<string> { CurrentSet(aws).Keys }

  lemma LandedIsLogged(aws: seq<Event>, id: string)
    ensures Landed(aws, id) <==> id in LoggedIdentifiers(aws)
  {
    CurrentSetIsEarliest(aws);
    if Landed(aws, id) {
      var k :| 0 <= k < |aws| && aws[k].identifier == id;
      assert aws[k] in Elements(aws) && Covered(CurrentSet(aws), aws[k]);
    }
    if id in CurrentSet(aws) {
      assert Backed(CurrentSet(aws), Elements(aws), id);
      var e :| e in Elements(aws) && e.identifier == id && ToMatch(e) == CurrentSet(aws)[id];
      var k :| 0 <= k < |aws| && aws[k] == e;
    }
  }

  /** Once the queue is empty, every opt-out is on the AWS list, with a human, or its job died unheard. */
  lemma QuietQueueClosesEveryOptOut(cfg: Config, s: State, steps: seq<Step>, i: nat)
    requires Initial(s) && Run(cfg, s, steps).jobs == []
    requires i < |Run(cfg, s, steps).messages| && IsOptOut(Run(cfg, s, steps).messages[i])
    ensures var t := Run(cfg, s, steps);
            var m := t.messages[i];
            (m.needsReview || (m.identifier.Some? && cfg.accept(m.identifier.value).Some?
                               && cfg.accept(m.identifier.value).value in LoggedIdentifiers(t.aws)))
            <==> (HasLanded(cfg, t, m) || !SomeJobDies(cfg, s, steps, i))
  {
    LostIffItsJobDied(cfg, s, steps, i);
    var t := Run(cfg, s, steps);
    if t.messages[i].identifier.Some? && cfg.accept(t.messages[i].identifier.value).Some? {
      LandedIsLogged(t.aws, cfg.accept(t.messages[i].identifier.value).value);
    }
  }

  /**
   * A retry after a lost response appends a second event for the same identifier at a later time:
   * the opt-out set of the log, entry for entry, is the same as before.
   */
  lemma LostResponsesChangeNothing(cfg: Config, s: State, steps: seq<Step>, index: nat, heard: bool)
    requires Initial(s) && index < |Run(cfg, s, steps).jobs|
    requires var t := Run(cfg, s, steps);
             var accepted := cfg.accept(t.jobs[index].identifier);
             accepted.Some? && Landed(t.aws, accepted.value)
    ensures var t := Run(cfg, s, steps);
            CurrentSet(Next(cfg, t, RunJob(index, true, heard)).aws) == CurrentSet(t.aws)
  {
    AlwaysMirrored(cfg, s, steps);
    RetryChangesNothing(cfg, Run(cfg, s, steps), index, heard);
  }

  lemma RetryChangesNothing(cfg: Config, t: State, index: nat, heard: bool)
    requires Mirrored(cfg, t) && index < |t.jobs|
    requires cfg.accept(t.jobs[index].identifier).Some? && Landed(t.aws, cfg.accept(t.jobs[index].identifier).value)
    ensures CurrentSet(Next(cfg, t, RunJob(index, true, heard)).aws) == CurrentSet(t.aws)
  {
    var event := MirrorEvent(t.jobs[index], cfg.accept(t.jobs[index].identifier).value, t.now);
    forall k | 0 <= k < |t.aws| ensures t.aws[k].occurredAt <= event.occurredAt { assert PutInTime(t.aws[k], t.now); }
    RepeatAppended(t.aws, event);
    assert JobEffects(cfg, t, index, true, heard).aws == t.aws + [event];
  }

  lemma RepeatAppended(aws: seq<Event>, event: Event)
    requires Landed(aws, event.identifier)
    requires forall k :: 0 <= k < |aws| ==> aws[k].occurredAt <= event.occurredAt
    ensures CurrentSet(aws + [event]) == CurrentSet(aws)
  {
    var k :| 0 <= k < |aws| && aws[k].identifier == event.identifier;
    assert aws[k] in Elements(aws);
    assert (aws + [event])[..|aws|] == aws;
    CurrentSetIsEarliest(aws);
    LaterRepeatChangesNothing(CurrentSet(aws), Elements(aws), event);
  }

  lemma LongerLogKnowsMore(aws: seq<Event>, longer: seq<Event>)
    requires aws <= longer
    ensures LoggedIdentifiers(aws) <= LoggedIdentifiers(longer)
  {
    forall id | id in LoggedIdentifiers(aws) ensures id in LoggedIdentifiers(longer) {
      LandedIsLogged(aws, id);
      var k :| 0 <= k < |aws| && aws[k].identifier == id;
      assert longer[k] == aws[k];
      LandedIsLogged(longer, id);
    }
  }

  /** No step other than a job adds to the log, and none removes from it or from the opt-out set. */
  lemma LogOnlyGrows(cfg: Config, s: State, step: Step)
    ensures s.aws <= Next(cfg, s, step).aws
    ensures LoggedIdentifiers(s.aws) <= LoggedIdentifiers(Next(cfg, s, step).aws)
  {
    if step.RunJob? && Enabled(s, step) {
      assert s.aws <= JobEffects(cfg, s, step.index, step.arrives, step.heard).aws;
    } else if step.FailJob? && Enabled(s, step) {
      assert s.aws <= FailureEffects(cfg, s, step.index, step.arrives).aws;
    }
    LongerLogKnowsMore(s.aws, Next(cfg, s, step).aws);
  }
}
