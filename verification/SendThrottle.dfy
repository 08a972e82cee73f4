/**
 * The sliding-window throttle over every run: no one-hour window holds more send attempts than the
 * hourly limit, whether attempts are placed by callout time or by log time.
 */
module SendThrottle {
  import opened Common
  import opened SendService
  import opened OrgProtocol

  // --- counting rows ------------------------------------------------------------

  lemma {:induction false} NumberOfJoined(a: seq<Message>, b: seq<Message>, k: Measure)
    ensures NumberOf(a + b, k) == NumberOf(a, k) + NumberOf(b, k)
  {
    if b == [] {
      assert a + b == a;
    } else {
      var n := |b| - 1;
      assert (a + b)[..|a + b| - 1] == a + b[..n];
      NumberOfJoined(a, b[..n], k);
    }
  }

  lemma {:induction false} NumberOfImplied(a: seq<Message>, j: Measure, k: Measure)
    requires forall i :: 0 <= i < |a| && Measured(j, a[i]) ==> Measured(k, a[i])
    ensures NumberOf(a, j) <= NumberOf(a, k)
  {
    if a == [] {
    } else {
      NumberOfImplied(a[..|a| - 1], j, k);
    }
  }

  lemma {:induction false} NumberOfUpdated(a: seq<Message>, i: nat, m: Message, k: Measure)
    requires i < |a| && Measured(k, m) == Measured(k, a[i])
    ensures NumberOf(a[i := m], k) == NumberOf(a, k)
  {
    var n := |a| - 1;
    if i == n {
      assert a[i := m][..n] == a[..n];
    } else {
      assert a[i := m][..n] == a[..n][i := m];
      NumberOfUpdated(a[..n], i, m, k);
    }
  }

  /** Callouts of a chunk still running, by the moment they were made. */
  function Running(attempts: seq<Attempt>, from: int): nat {
    if attempts == [] then 0
    else Running(attempts[..|attempts| - 1], from) + (if Within(attempts[|attempts| - 1].sentAt, from) then 1 else 0)
  }

  lemma {:induction false} RunningBounded(attempts: seq<Attempt>, from: int)
    ensures Running(attempts, from) <= |attempts|
  {
    if attempts == [] {
    } else {
      RunningBounded(attempts[..|attempts| - 1], from);
    }
  }

  lemma {:induction false} RunningJoined(a: seq<Attempt>, b: seq<Attempt>, from: int)
    ensures Running(a + b, from) == Running(a, from) + Running(b, from)
  {
    if b == [] {
      assert a + b == a;
    } else {
      assert (a + b)[..|a + b| - 1] == a + b[..|b| - 1];
      RunningJoined(a, b[..|b| - 1], from);
    }
  }

  lemma {:induction false} LoggedBatch(attempts: seq<Attempt>, now: int, from: int)
    ensures NumberOf(LogAll(attempts, now), AttemptsSent(from)) == Running(attempts, from)
    ensures NumberOf(LogAll(attempts, now), AttemptsEver) == |attempts|
    ensures NumberOf(LogAll(attempts, now), AttemptsLogged(from)) == if Within(now, from) then |attempts| else 0
  {
    if attempts == [] {
    } else {
      var n := |attempts| - 1;
      LoggedBatch(attempts[..n], now, from);
      assert LogAll(attempts, now)[..n] == LogAll(attempts[..n], now);
    }
  }

  // --- the invariant ---------------------------------------------------------------

  function AttemptsOf(s: State): seq<Attempt> { if s.chunk.Some? then s.chunk.value.progress.attempts else [] }

  predicate Timely(m: Message, now: int) {
    m.createdAt <= now && (m.sentAt.Some? ==> m.sentAt.value <= m.createdAt && m.direction == Outbound)
  }

  ghost predicate TimesInOrder(s: State) {
    && (forall i :: 0 <= i < |s.messages| ==> Timely(s.messages[i], s.now))
    && (s.chunk.Some? ==> s.chunk.value.queryAt <= s.now)
    && (forall i :: 0 <= i < |AttemptsOf(s)| ==> s.chunk.value.queryAt <= AttemptsOf(s)[i].sentAt <= s.now)
  }

  /** The running chunk's count still covers every attempt logged in the hour before its query. */
  ghost predicate ChunkInBudget(cfg: Config, c: Chunk, ms: seq<Message>) {
    && c.budget.limit == cfg.limit
    && |c.progress.attempts| <= Allowance(c.budget)
    && forall from {:trigger AttemptsLogged(from)} :: from >= c.queryAt - HOUR_SECONDS ==>
         NumberOf(ms, AttemptsLogged(from)) <= c.budget.prior
  }

  predicate WindowsHold(cfg: Config, s: State, from: int) {
    && NumberOf(s.messages, AttemptsLogged(from)) <= Max(0, cfg.limit)
    && NumberOf(s.messages, AttemptsSent(from)) + Running(AttemptsOf(s), from) <= Max(0, cfg.limit)
  }

  ghost predicate Throttled(cfg: Config, s: State) {
    && TimesInOrder(s)
    && (s.chunk.Some? ==> ChunkInBudget(cfg, s.chunk.value, s.messages))
    && forall from {:trigger WindowsHold(cfg, s, from)} :: WindowsHold(cfg, s, from)
  }

  lemma NothingSentYet(cfg: Config, s: State)
    requires Initial(s)
    ensures Throttled(cfg, s)
  {
  }

  /** Rows changed in fields no attempt count reads, or one row added that is no attempt. */
  predicate Beside(before: seq<Message>, after: seq<Message>, i: nat, m: Message) {
    || after == before
    || (i < |before| && after == before[i := m] && m.createdAt == before[i].createdAt &&
        m.sentAt == before[i].sentAt && m.direction == before[i].direction)
    || (after == before + [m] && m.sentAt.None?)
  }

  lemma CountsBeside(before: seq<Message>, after: seq<Message>, i: nat, m: Message, k: Measure)
    requires Beside(before, after, i, m) && !k.OutboundSince?
    ensures NumberOf(after, k) == NumberOf(before, k)
  {
    if after == before + [m] {
      NumberOfJoined(before, [m], k);
      assert [m][..0] == [];
    } else if after != before {
      NumberOfUpdated(before, i, m, k);
    }
  }

  /** Rows may change in fields no count reads, and rows that are no attempts may be added. */
  lemma RowsBeside(cfg: Config, s: State, t: State, i: nat, m: Message)
    requires Throttled(cfg, s) && t.now == s.now && t.chunk == s.chunk
    requires Beside(s.messages, t.messages, i, m) && (|t.messages| > |s.messages| ==> m.createdAt == s.now)
    ensures Throttled(cfg, t)
  {
    forall k: Measure | !k.OutboundSince? ensures NumberOf(t.messages, k) == NumberOf(s.messages, k) {
      CountsBeside(s.messages, t.messages, i, m, k);
    }
    forall from ensures WindowsHold(cfg, t, from) {
      assert WindowsHold(cfg, s, from);
    }
  }

  lemma QueryCountsEnough(cfg: Config, s: State, ids: seq<LeadId>, hasTemplate: bool)
    requires Throttled(cfg, s) && Enabled(s, OpenChunk(ids, hasTemplate))
    ensures ChunkInBudget(cfg, Open(s, ids, hasTemplate, cfg.limit), s.messages)
  {
    var c := Open(s, ids, hasTemplate, cfg.limit);
    forall from | from >= c.queryAt - HOUR_SECONDS
      ensures NumberOf(s.messages, AttemptsLogged(from)) <= c.budget.prior
    {
      forall i | 0 <= i < |s.messages| && Measured(AttemptsLogged(from), s.messages[i])
        ensures Measured(OutboundSince(s.now - HOUR_SECONDS), s.messages[i])
      {
        assert Timely(s.messages[i], s.now);
      }
      NumberOfImplied(s.messages, AttemptsLogged(from), OutboundSince(s.now - HOUR_SECONDS));
    }
  }

  /** By callout time: what was sent in a window reaching the present was logged after the query's hour began. */
  lemma SentWereCounted(cfg: Config, s: State, from: int)
    requires Throttled(cfg, s) && s.chunk.Some? && Within(s.now, from)
    ensures NumberOf(s.messages, AttemptsSent(from)) <= s.chunk.value.budget.prior
  {
    var recent := AttemptsLogged(s.now - HOUR_SECONDS);
    forall i | 0 <= i < |s.messages| && Measured(AttemptsSent(from), s.messages[i])
      ensures Measured(recent, s.messages[i])
    {
      assert Timely(s.messages[i], s.now);
    }
    NumberOfImplied(s.messages, AttemptsSent(from), recent);
  }

  lemma LoggedWereCounted(cfg: Config, s: State, from: int)
    requires Throttled(cfg, s) && s.chunk.Some? && Within(s.now, from)
    ensures NumberOf(s.messages, AttemptsLogged(from)) <= s.chunk.value.budget.prior
  {
    assert AttemptsLogged(from).from >= s.chunk.value.queryAt - HOUR_SECONDS;
  }

  lemma TurnKeepsThrottle(cfg: Config, s: State, hour: Option<int>, reply: Reply)
    requires Throttled(cfg, s) && Enabled(s, TakeTurn(hour, reply))
    ensures Throttled(cfg, TurnEffects(s, Turn(hour, s.now, reply)))
  {
    var t := TurnEffects(s, Turn(hour, s.now, reply));
    var c, before, after := s.chunk.value, AttemptsOf(s), AttemptsOf(t);
    forall from ensures WindowsHold(cfg, t, from) {
      assert WindowsHold(cfg, s, from);
      if after != before && Within(s.now, from) {
        SentWereCounted(cfg, s, from);
        RunningBounded(after, from);
      } else if after != before {
        assert after[..|before|] == before;
      }
    }
  }

  lemma CommitKeepsThrottle(cfg: Config, s: State)
    requires Throttled(cfg, s) && Enabled(s, CommitChunk) && !Collides(s.messages, AttemptsOf(s))
    ensures Throttled(cfg, CommitEffects(s))
  {
    var t, attempts := CommitEffects(s), AttemptsOf(s);
    var batch := LogAll(attempts, s.now);
    forall from ensures WindowsHold(cfg, t, from) {
      assert WindowsHold(cfg, s, from);
      NumberOfJoined(s.messages, batch, AttemptsSent(from));
      NumberOfJoined(s.messages, batch, AttemptsLogged(from));
      LoggedBatch(attempts, s.now, from);
      if Within(s.now, from) {
        LoggedWereCounted(cfg, s, from);
      }
    }
    forall i | 0 <= i < |t.messages| ensures Timely(t.messages[i], t.now) {
      if i >= |s.messages| {
        assert t.messages[i] == LogOf(attempts[i - |s.messages|], s.now);
      }
    }
  }

  lemma RollBackKeepsThrottle(cfg: Config, s: State)
    requires Throttled(cfg, s) && s.chunk.Some?
    ensures Throttled(cfg, RollBack(s))
  {
    forall from ensures WindowsHold(cfg, RollBack(s), from) {
      assert WindowsHold(cfg, s, from);
    }
  }

  /** The row a side step rewrites or adds, if any. */
  function TouchedRow(s: State, step: Step): nat {
    match step
    case CommitDelivery(index) =>
      if index < |s.inFlight| && HasSid(s.messages, s.inFlight[index].sid)
      then IndexOfSid(s.messages, s.inFlight[index].sid) else |s.messages|
    case RunJob(index, _, _) => if index < |s.jobs| then s.jobs[index].message else 0
    case _ => 0
  }

  /** Steps other than the chunk's own and the clock's leave every attempt as it was. */
  predicate Aside(step: Step) {
    || step.CommitDelivery? || step.AbortDelivery? || step.ReceiveInbound? || step.ReceiveStatus?
    || step.RunJob? || step.FailJob? || step.EditLead?
  }

  lemma AsideTouchesOneRow(cfg: Config, s: State, step: Step) returns (m: Message)
    requires Enabled(s, step) && Aside(step)
    ensures var t := Effects(cfg, s, step);
            && Beside(s.messages, t.messages, TouchedRow(s, step), m)
            && (|t.messages| > |s.messages| ==> m.createdAt == s.now)
            && t.now == s.now && t.chunk == s.chunk && t.callouts == s.callouts && t.lost == s.lost
  {
    var t, i := Effects(cfg, s, step), TouchedRow(s, step);
    m := if i < |t.messages| then t.messages[i] else Stub("", "", s.now);
  }

  lemma StepNumberIsIrrelevant(cfg: Config, s: State, step: nat)
    requires Throttled(cfg, s)
    ensures Throttled(cfg, s.(step := step))
  {
    var t := s.(step := step);
    forall from ensures WindowsHold(cfg, t, from) { assert WindowsHold(cfg, s, from); }
  }

  lemma EffectsKeepThrottle(cfg: Config, s: State, step: Step)
    requires Throttled(cfg, s) && Enabled(s, step)
    ensures Throttled(cfg, Effects(cfg, s, step))
  {
    var t := Effects(cfg, s, step);
    match step {
      case OpenChunk(ids, hasTemplate) =>
        QueryCountsEnough(cfg, s, ids, hasTemplate);
        forall from ensures WindowsHold(cfg, t, from) { assert WindowsHold(cfg, s, from); }
      case TakeTurn(hour, reply) => TurnKeepsThrottle(cfg, s, hour, reply);
      case CommitChunk =>
        if Collides(s.messages, AttemptsOf(s)) { RollBackKeepsThrottle(cfg, s); } else { CommitKeepsThrottle(cfg, s); }
      case RollBackChunk => RollBackKeepsThrottle(cfg, s);
      case Wait(_) => forall from ensures WindowsHold(cfg, t, from) { assert WindowsHold(cfg, s, from); }
      case _ =>
        var m := AsideTouchesOneRow(cfg, s, step);
        RowsBeside(cfg, s, t, TouchedRow(s, step), m);
    }
  }

  lemma {:induction false} AlwaysThrottled(cfg: Config, s: State, steps: seq<Step>)
    requires Initial(s)
    ensures Throttled(cfg, Run(cfg, s, steps))
  {
    if steps == [] {
      NothingSentYet(cfg, s);
    } else {
      var before, step := Run(cfg, s, steps[..|steps| - 1]), steps[|steps| - 1];
      AlwaysThrottled(cfg, s, steps[..|steps| - 1]);
      if Enabled(before, step) {
        EffectsKeepThrottle(cfg, before, step);
        StepNumberIsIrrelevant(cfg, Effects(cfg, before, step), before.step + 1);
      }
    }
  }

  /**
   * In every run, no hour holds more logged attempts than the limit: neither by log time, nor, with
   * the callouts of the chunk still running, by callout time.
   */
  lemma NoHourExceedsTheLimit(cfg: Config, s: State, steps: seq<Step>, from: int)
    requires Initial(s)
    ensures var t := Run(cfg, s, steps);
            && NumberOf(t.messages, AttemptsLogged(from)) <= Max(0, cfg.limit)
            && NumberOf(t.messages, AttemptsSent(from)) + Running(AttemptsOf(t), from) <= Max(0, cfg.limit)
  {
    AlwaysThrottled(cfg, s, steps);
    assert WindowsHold(cfg, Run(cfg, s, steps), from);
  }

  // --- callouts whose chunk rolled back ----------------------------------------------------

  function CalloutsIn(callouts: seq<Callout>, from: int): nat {
    if callouts == [] then 0
    else CalloutsIn(callouts[..|callouts| - 1], from) + (if Within(callouts[|callouts| - 1].at, from) then 1 else 0)
  }

  /** Every callout is in the log, in the running chunk, or lost with a rolled-back one. */
  predicate CalloutsAccounted(s: State, from: int) {
    && CalloutsIn(s.callouts, from) ==
       NumberOf(s.messages, AttemptsSent(from)) + Running(AttemptsOf(s), from) + Running(s.lost, from)
    && |s.callouts| == NumberOf(s.messages, AttemptsEver) + |AttemptsOf(s)| + |s.lost|
  }

  lemma EffectsKeepAccounts(cfg: Config, s: State, step: Step, from: int)
    requires CalloutsAccounted(s, from) && Enabled(s, step)
    ensures CalloutsAccounted(Effects(cfg, s, step), from)
  {
    var t, attempts := Effects(cfg, s, step), AttemptsOf(s);
    if step.RollBackChunk? || (step.CommitChunk? && Collides(s.messages, attempts)) {
      RunningJoined(s.lost, attempts, from);
    } else if step.CommitChunk? {
      LoggedBatch(attempts, s.now, from);
      NumberOfJoined(s.messages, LogAll(attempts, s.now), AttemptsSent(from));
      NumberOfJoined(s.messages, LogAll(attempts, s.now), AttemptsEver);
    } else if step.TakeTurn? {
      var after := AttemptsOf(t);
      if after != attempts {
        assert after[..|attempts|] == attempts && t.callouts[..|s.callouts|] == s.callouts;
      }
    } else if Aside(step) {
      var m := AsideTouchesOneRow(cfg, s, step);
      CountsBeside(s.messages, t.messages, TouchedRow(s, step), m, AttemptsSent(from));
      CountsBeside(s.messages, t.messages, TouchedRow(s, step), m, AttemptsEver);
    }
  }

  lemma {:induction false} AlwaysAccounted(cfg: Config, s: State, steps: seq<Step>, from: int)
    requires Initial(s)
    ensures CalloutsAccounted(Run(cfg, s, steps), from)
  {
    if steps == [] {
    } else {
      var before, step := Run(cfg, s, steps[..|steps| - 1]), steps[|steps| - 1];
      AlwaysAccounted(cfg, s, steps[..|steps| - 1], from);
      if Enabled(before, step) {
        EffectsKeepAccounts(cfg, before, step, from);
        assert CalloutsAccounted(Effects(cfg, before, step), from);
      }
    }
  }

  /** Counting callouts themselves, an hour can exceed the limit by no more than what rollbacks lost in it. */
  lemma CalloutsExceedOnlyByTheLost(cfg: Config, s: State, steps: seq<Step>, from: int)
    requires Initial(s)
    ensures var t := Run(cfg, s, steps);
            CalloutsIn(t.callouts, from) <= Max(0, cfg.limit) + Running(t.lost, from)
  {
    AlwaysAccounted(cfg, s, steps, from);
    NoHourExceedsTheLimit(cfg, s, steps, from);
  }

  /** The step throws callouts away: a chunk that made some rolls back, by itself or because its insert is refused. */
  predicate LosesCallouts(s: State, step: Step) {
    && s.chunk.Some? && AttemptsOf(s) != []
    && (step.RollBackChunk? || (step.CommitChunk? && Enabled(s, step) && Collides(s.messages, AttemptsOf(s))))
  }

  predicate LosesAt(cfg: Config, s: State, steps: seq<Step>, k: nat)
    requires k < |steps|
  {
    LosesCallouts(Run(cfg, s, steps[..k]), steps[k])
  }

  ghost predicate SomeStepLoses(cfg: Config, s: State, steps: seq<Step>) {
    exists k :: 0 <= k < |steps| && LosesAt(cfg, s, steps, k)
  }

  lemma LostInOneStep(cfg: Config, before: State, step: Step)
    ensures Next(cfg, before, step).lost == [] <==> before.lost == [] && !LosesCallouts(before, step)
  {
    if Enabled(before, step) {
      match step {
        case CommitChunk =>
          if AttemptsOf(before) == [] { assert !Collides(before.messages, []); }
        case RollBackChunk =>
        case CommitDelivery(index) =>
        case RunJob(index, arrives, heard) =>
        case _ =>
      }
    }
  }

  lemma SomeLossOneMore(cfg: Config, s: State, steps: seq<Step>)
    requires steps != []
    ensures var n := |steps| - 1;
            SomeStepLoses(cfg, s, steps) <==> SomeStepLoses(cfg, s, steps[..n]) || LosesAt(cfg, s, steps, n)
  {
    var n := |steps| - 1;
    forall k | 0 <= k < n ensures LosesAt(cfg, s, steps[..n], k) <==> LosesAt(cfg, s, steps, k) {
      assert steps[..n][..k] == steps[..k];
    }
  }

  /** Callouts get lost exactly in a step that rolls a chunk back after making some. */
  lemma {:induction false} LostIffAChunkRollsBack(cfg: Config, s: State, steps: seq<Step>)
    requires Initial(s)
    ensures Run(cfg, s, steps).lost == [] <==> !SomeStepLoses(cfg, s, steps)
  {
    if steps == [] {
    } else {
      var n := |steps| - 1;
      LostIffAChunkRollsBack(cfg, s, steps[..n]);
      LostInOneStep(cfg, Run(cfg, s, steps[..n]), steps[n]);
      SomeLossOneMore(cfg, s, steps);
    }
  }

  /** In a run without such a step no hour holds more callouts than the limit. */
  lemma CalloutsWithinTheLimit(cfg: Config, s: State, steps: seq<Step>, from: int)
    requires Initial(s) && !SomeStepLoses(cfg, s, steps)
    ensures CalloutsIn(Run(cfg, s, steps).callouts, from) <= Max(0, cfg.limit)
  {
    LostIffAChunkRollsBack(cfg, s, steps);
    CalloutsExceedOnlyByTheLost(cfg, s, steps, from);
  }

  /** Between chunks every callout has its log row exactly when no step of the run was one. */
  lemma EveryCalloutIsLoggedIffNoChunkRollsBack(cfg: Config, s: State, steps: seq<Step>)
    requires Initial(s) && Run(cfg, s, steps).chunk.None?
    ensures var t := Run(cfg, s, steps);
            |t.callouts| == NumberOf(t.messages, AttemptsEver) <==> !SomeStepLoses(cfg, s, steps)
  {
    AlwaysAccounted(cfg, s, steps, 0);
    LostIffAChunkRollsBack(cfg, s, steps);
  }

  // --- with it, no number of callouts is safe -------------------------------------------------

  function OneReadyLead(): State {
    State(0, 0, map[1 := Lead("+16502530000", false, Ready, 0, 0)], [], [], [], None, [], [], [], map[], {}, [], [],
          multiset{}, {})
  }

  function TryAndRollBack(): seq<Step> {
    [OpenChunk([1], true), TakeTurn(Some(10), Accepted(None)), RollBackChunk]
  }

  function Tries(n: nat): seq<Step> { if n == 0 then [] else Tries(n - 1) + TryAndRollBack() }

  predicate OnlyCalled(s: State, n: nat) {
    && s.now == 0 && s.leads == OneReadyLead().leads && s.messages == [] && s.chunk.None?
    && |s.callouts| == n && forall i :: 0 <= i < n ==> s.callouts[i].at == 0
  }

  lemma OpensOnReadyLead(cfg: Config, s: State, n: nat)
    requires cfg.limit >= 1 && OnlyCalled(s, n)
    ensures var t := Next(cfg, s, OpenChunk([1], true));
            t == s.(step := s.step + 1,
                    chunk := Some(Chunk([Row(1, s.leads[1])], 0, 0, s.step,
                                        Budget(0, cfg.limit, true), Progress([], []))))
  {
    assert AscendingIds([1]);
    assert Open(s, [1], true, cfg.limit).rows == [Row(1, s.leads[1])];
  }

  lemma OneTry(cfg: Config, s: State, n: nat)
    requires cfg.limit >= 1 && OnlyCalled(s, n)
    ensures var x := TryAndRollBack();
            OnlyCalled(Next(cfg, Next(cfg, Next(cfg, s, x[0]), x[1]), x[2]), n + 1)
  {
    var x := TryAndRollBack();
    OpensOnReadyLead(cfg, s, n);
    ReadyLeadIsCalled(Budget(0, cfg.limit, true), 0);
    var queried := Next(cfg, s, x[0]);
    var called := Next(cfg, queried, x[1]);
    assert called.callouts == s.callouts + [Callout(1, 0, s.step, queried.step)];
  }

  lemma {:induction false} CountAtZero(callouts: seq<Callout>)
    requires forall i :: 0 <= i < |callouts| ==> callouts[i].at == 0
    ensures CalloutsIn(callouts, 0) == |callouts|
  {
    if callouts == [] {
    } else {
      CountAtZero(callouts[..|callouts| - 1]);
    }
  }

  lemma {:induction false} TriesCall(cfg: Config, n: nat)
    requires cfg.limit >= 1
    ensures OnlyCalled(Run(cfg, OneReadyLead(), Tries(n)), n)
  {
    if n == 0 {
    } else {
      TriesCall(cfg, n - 1);
      var s, before, x := OneReadyLead(), Tries(n - 1), TryAndRollBack();
      RunOn(cfg, s, before, x[0]);
      RunOn(cfg, s, before + [x[0]], x[1]);
      RunOn(cfg, s, before + [x[0]] + [x[1]], x[2]);
      assert before + [x[0]] + [x[1]] + [x[2]] == Tries(n);
      OneTry(cfg, Run(cfg, s, before), n - 1);
    }
  }

  /** Whatever the limit, as long as it lets one callout out: any number go out within the hour. */
  lemma RollBacksEvadeAnyLimit(cfg: Config, n: nat)
    requires cfg.limit >= 1
    ensures Initial(OneReadyLead())
    ensures CalloutsIn(Run(cfg, OneReadyLead(), Tries(n)).callouts, 0) == n
  {
    TriesCall(cfg, n);
    CountAtZero(Run(cfg, OneReadyLead(), Tries(n)).callouts);
  }

  // --- the limit does give way: a status callback that overtakes the commit -------------------

  function TwoReadyLeads(): State {
    var lead := Lead("+16502530000", false, Ready, 0, 0);
    State(0, 0, map[1 := lead, 2 := lead], [], [], [], None, [], [], [], map[], {}, [], [], multiset{}, {})
  }

  function BothSent(): seq<Step> {
    [OpenChunk([1, 2], true), TakeTurn(Some(10), Accepted(Some("A"))), TakeTurn(Some(10), Accepted(Some("B")))]
  }

  function OvertakenCommit(): seq<Step> {
    BothSent() + [ReceiveStatus("A", "delivered"), CommitDelivery(0), CommitChunk]
  }

  function SentAgain(): seq<Step> {
    OvertakenCommit() + [OpenChunk([1, 2], true), TakeTurn(Some(10), Accepted(Some("C")))]
  }

  lemma ReadyLeadIsCalled(budget: Budget, made: nat)
    requires budget.hasTemplate && budget.prior + made < budget.limit && made < MAX_CALLOUTS_PER_RUN
    ensures Gate(Lead("+16502530000", false, Ready, 0, 0), Some(10), made, budget) == None
  {
    assert "+16502530000"[0] == '+';
  }

  lemma Queried(cfg: Config)
    requires cfg.limit == 2
    ensures var s, t := TwoReadyLeads(), Run(cfg, TwoReadyLeads(), BothSent()[..1]);
            t == s.(step := 1,
                    chunk := Some(Chunk([Row(1, s.leads[1]), Row(2, s.leads[2])], 0, 0, 0,
                                        Budget(0, 2, true), Progress([], []))))
  {
    var s, x := TwoReadyLeads(), BothSent();
    assert x[..1] == [] + [x[0]];
    RunOn(cfg, s, [], x[0]);
    assert Open(s, [1, 2], true, 2).rows == [Row(1, s.leads[1]), Row(2, s.leads[2])];
  }

  /** A turn on a ready lead within the limit: one attempt, one callout. */
  lemma ReadyTurn(cfg: Config, s: State, sid: Sid)
    requires s.chunk.Some? && s.chunk.value.next < |s.chunk.value.rows|
    requires s.chunk.value.rows[s.chunk.value.next].lead == Lead("+16502530000", false, Ready, 0, 0)
    requires var c := s.chunk.value;
             && c.budget.hasTemplate && c.budget.prior + |c.progress.attempts| < c.budget.limit
             && |c.progress.attempts| < MAX_CALLOUTS_PER_RUN
    ensures var t, c := Next(cfg, s, TakeTurn(Some(10), Accepted(Some(sid)))), s.chunk.value;
            var lead := c.rows[c.next].id;
            var attempts := c.progress.attempts + [Attempt(lead, s.now, true, Some(sid))];
            t == s.(step := s.step + 1,
                    chunk := Some(c.(next := c.next + 1, progress := Progress(c.progress.outcomes + [Sent], attempts))),
                    callouts := s.callouts + [Callout(lead, s.now, c.queryStep, s.step)])
  {
    ReadyLeadIsCalled(s.chunk.value.budget, |s.chunk.value.progress.attempts|);
  }

  lemma TwoCallouts(cfg: Config)
    requires cfg.limit == 2
    ensures var t := Run(cfg, TwoReadyLeads(), BothSent());
            && t.leads == TwoReadyLeads().leads && t.messages == [] && t.inFlight == [] && t.now == 0 && t.step == 3
            && t.chunk.Some?
            && t.chunk.value.next == |t.chunk.value.rows| && t.callouts == [Callout(1, 0, 0, 1), Callout(2, 0, 0, 2)]
            && t.chunk.value.progress.attempts == [Attempt(1, 0, true, Some("A")), Attempt(2, 0, true, Some("B"))]
  {
    var s, x := TwoReadyLeads(), BothSent();
    assert x[..2] == x[..1] + [x[1]] && x == x[..2] + [x[2]];
    Queried(cfg);
    RunOn(cfg, s, x[..1], x[1]);
    ReadyTurn(cfg, Run(cfg, s, x[..1]), "A");
    RunOn(cfg, s, x[..2], x[2]);
    ReadyTurn(cfg, Run(cfg, s, x[..2]), "B");
    assert [] + [Callout(1, 0, 0, 1)] + [Callout(2, 0, 0, 2)] == [Callout(1, 0, 0, 1), Callout(2, 0, 0, 2)];
  }

  lemma RolledBack(cfg: Config)
    requires cfg.limit == 2
    ensures var t := Run(cfg, TwoReadyLeads(), OvertakenCommit());
            && t.leads == TwoReadyLeads().leads && t.messages == [Stub("A", "delivered", 0)]
            && t.now == 0 && t.chunk.None?
            && t.callouts == [Callout(1, 0, 0, 1), Callout(2, 0, 0, 2)] && t.step == 6
  {
    TwoCallouts(cfg);
    var s, x, y := TwoReadyLeads(), BothSent(), OvertakenCommit();
    assert y[..4] == x + [y[3]] && y[..5] == y[..4] + [y[4]] && y == y[..5] + [y[5]];
    RunOn(cfg, s, x, y[3]);
    var received := Run(cfg, s, y[..4]);
    assert received.inFlight == [StatusDelivery("A", "delivered")];
    RunOn(cfg, s, y[..4], y[4]);
    StatusFirst(cfg, received);
    var stubbed := Run(cfg, s, y[..5]);
    RunOn(cfg, s, y[..5], y[5]);
    assert stubbed.messages[0].sid == Some("A") && stubbed.chunk.value.progress.attempts[0].sid == Some("A");
    assert HasSid(stubbed.messages, "A");
    assert Collides(stubbed.messages, stubbed.chunk.value.progress.attempts);
  }

  lemma StatusFirst(cfg: Config, s: State)
    requires s.messages == [] && s.inFlight == [StatusDelivery("A", "delivered")]
    ensures var t := Next(cfg, s, CommitDelivery(0));
            t == s.(messages := [Stub("A", "delivered", s.now)], inFlight := [], answered := s.answered + {"A"},
                    step := s.step + 1)
  {
    assert WithoutAt(s.inFlight, 0) == [];
  }

  lemma Reopened(cfg: Config)
    requires cfg.limit == 2
    ensures var t := Run(cfg, TwoReadyLeads(), OvertakenCommit() + [OpenChunk([1, 2], true)]);
            && t.now == 0 && t.step == 7 && t.callouts == [Callout(1, 0, 0, 1), Callout(2, 0, 0, 2)] && t.chunk.Some?
            && var c := t.chunk.value;
               && c.rows == [Row(1, TwoReadyLeads().leads[1]), Row(2, TwoReadyLeads().leads[2])]
               && c.next == 0 && c.queryStep == 6
               && c.budget == Budget(1, 2, true) && c.progress == Progress([], [])
  {
    RolledBack(cfg);
    RunOn(cfg, TwoReadyLeads(), OvertakenCommit(), OpenChunk([1, 2], true));
    var ms := [Stub("A", "delivered", 0)];
    assert ms[..0] == [];
    assert NumberOf(ms, OutboundSince(0 - HOUR_SECONDS)) == 1;
  }

  lemma ThreeCalloutsCount(c1: Callout, c2: Callout, c3: Callout, from: int)
    requires Within(c1.at, from) && Within(c2.at, from) && Within(c3.at, from)
    ensures CalloutsIn([c1, c2, c3], from) == 3
  {
    assert [c1][..0] == [] && CalloutsIn([c1], from) == 1;
    assert [c1, c2][..1] == [c1] && CalloutsIn([c1, c2], from) == 2;
    assert [c1, c2, c3][..2] == [c1, c2];
  }

  /**
   * With a limit of two, a delivery status that reaches the org before the chunk's commit makes the
   * commit fail on the unique id; nothing is logged, and a third callout goes out in the same hour.
   */
  lemma StatusCanOvertakeTheLog(cfg: Config)
    requires cfg.limit == 2
    ensures Initial(TwoReadyLeads())
    ensures CalloutsIn(Run(cfg, TwoReadyLeads(), SentAgain()).callouts, 0) == 3
  {
    Reopened(cfg);
    var again := OvertakenCommit() + [OpenChunk([1, 2], true)];
    var last := TakeTurn(Some(10), Accepted(Some("C")));
    assert SentAgain() == again + [last];
    RunOn(cfg, TwoReadyLeads(), again, last);
    ReadyTurn(cfg, Run(cfg, TwoReadyLeads(), again), "C");
    var c1, c2, c3 := Callout(1, 0, 0, 1), Callout(2, 0, 0, 2), Callout(1, 0, 6, 7);
    assert Run(cfg, TwoReadyLeads(), SentAgain()).callouts == [c1, c2, c3];
    ThreeCalloutsCount(c1, c2, c3, 0);
  }
}
