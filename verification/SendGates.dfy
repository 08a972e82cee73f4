/**
 * The gates of the send path with their numbers written out: what each outcome of a chunk says of its
 * lead and its turn, where every callout of every run comes from, and what a commit writes.
 */
module SendGates {
  import opened Common
  import opened SendService
  import opened OrgProtocol

  // --- one chunk ---------------------------------------------------------------------

  /** From 8 in the morning until before 9 in the evening, recipient's time. */
  predicate Daytime(hour: Option<int>) { hour.Some? && 8 <= hour.value <= 20 }

  predicate Reachable(lead: Lead) { !lead.optedOut && lead.status == Ready }

  /** The outcome followed a callout. */
  predicate CalledOut(o: Outcome) { o == Sent || o == Blocked(SendFailed) }

  function CalledOutCount(outcomes: seq<Outcome>): nat {
    if outcomes == [] then 0
    else CalledOutCount(outcomes[..|outcomes| - 1]) + (if CalledOut(outcomes[|outcomes| - 1]) then 1 else 0)
  }

  /** Nothing stands in the way of a callout but the allowance of one run. */
  predicate Clear(lead: Lead, hour: Option<int>, made: nat, budget: Budget) {
    && Reachable(lead) && Daytime(hour) && budget.prior + made < budget.limit && budget.hasTemplate
    && !Blank(lead.phone)
  }

  /** What an outcome says of the lead, the turn and the callouts made before it. */
  predicate Tells(o: Outcome, lead: Lead, turn: Turn, made: nat, budget: Budget) {
    match o
    case Blocked(AlreadySuppressed) => lead.optedOut || lead.status == Suppressed
    case Blocked(NotReady) => !lead.optedOut && lead.status != Suppressed && lead.status != Ready
    case Blocked(UnknownTimezone) => Reachable(lead) && turn.hour.None?
    case Blocked(QuietHours) => Reachable(lead) && turn.hour.Some? && (turn.hour.value < 8 || 21 <= turn.hour.value)
    case Blocked(RateLimited) => Reachable(lead) && Daytime(turn.hour) && budget.limit <= budget.prior + made
    case Blocked(NoApprovedTemplate) =>
      Reachable(lead) && Daytime(turn.hour) && budget.prior + made < budget.limit && !budget.hasTemplate
    case Blocked(MissingPhone) =>
      && Reachable(lead) && Daytime(turn.hour) && budget.prior + made < budget.limit && budget.hasTemplate
      && Blank(lead.phone)
    case Blocked(Deferred) => Clear(lead, turn.hour, made, budget) && made >= 90
    case Blocked(SendFailed) => Clear(lead, turn.hour, made, budget) && made < 90 && turn.reply.Refused?
    case Sent => Clear(lead, turn.hour, made, budget) && made < 90 && turn.reply.Accepted?
  }

  /** The log of a callout: to this lead, at this moment, with the provider's answer. */
  predicate Logs(a: Attempt, id: LeadId, turn: Turn) {
    && a.lead == id && a.sentAt == turn.now
    && match turn.reply
       case Accepted(sid) => a.accepted && a.sid == sid
       case Refused => !a.accepted && a.sid == None
  }

  lemma AdvanceTells(p: Progress, row: Row, turn: Turn, budget: Budget, o: Outcome)
    ensures var q := Advance(p, row, turn, budget);
            && q.outcomes[..|p.outcomes|] == p.outcomes && |q.outcomes| == |p.outcomes| + 1
            && (Tells(o, row.lead, turn, |p.attempts|, budget) <==> o == q.outcomes[|p.outcomes|])
            && if CalledOut(q.outcomes[|p.outcomes|])
               then |q.attempts| == |p.attempts| + 1 && q.attempts[..|p.attempts|] == p.attempts
                    && Logs(q.attempts[|p.attempts|], row.id, turn)
               else q.attempts == p.attempts
  {
  }

  /** Outcome `i`, read against the callouts of the outcomes before it. */
  predicate OutcomeTold(outcomes: seq<Outcome>, rows: seq<Row>, turns: seq<Turn>, budget: Budget, i: nat, o: Outcome)
    requires i < |outcomes| <= |rows| && |turns| == |rows|
  {
    Tells(o, rows[i].lead, turns[i], CalledOutCount(outcomes[..i]), budget) <==> o == outcomes[i]
  }

  lemma {:induction false} AttemptsAreCalledOut(rows: seq<Row>, turns: seq<Turn>, budget: Budget)
    requires |turns| == |rows|
    ensures |Process(rows, turns, budget).outcomes| == |rows|
    ensures |Process(rows, turns, budget).attempts| == CalledOutCount(Process(rows, turns, budget).outcomes)
  {
    if rows == [] {
    } else {
      var n := |rows| - 1;
      AttemptsAreCalledOut(rows[..n], turns[..n], budget);
      AdvanceTells(Process(rows[..n], turns[..n], budget), rows[n], turns[n], budget, Sent);
    }
  }

  lemma ProcessExtends(rows: seq<Row>, turns: seq<Turn>, budget: Budget)
    requires |turns| == |rows| > 0
    ensures var n := |rows| - 1;
            var before, after := Process(rows[..n], turns[..n], budget), Process(rows, turns, budget);
            && |before.outcomes| == n && |after.outcomes| == |rows| && after.outcomes[..n] == before.outcomes
            && |before.attempts| == CalledOutCount(before.outcomes) && before.attempts <= after.attempts
  {
    var n := |rows| - 1;
    AttemptsAreCalledOut(rows[..n], turns[..n], budget);
    AdvanceTells(Process(rows[..n], turns[..n], budget), rows[n], turns[n], budget, Sent);
  }

  /** Every lead gets one outcome, and it is the one that tells the truth about the lead and its turn. */
  lemma {:induction false} OutcomesTell(rows: seq<Row>, turns: seq<Turn>, budget: Budget, i: nat, o: Outcome)
    requires |turns| == |rows| && i < |rows|
    ensures |Process(rows, turns, budget).outcomes| == |rows|
    ensures OutcomeTold(Process(rows, turns, budget).outcomes, rows, turns, budget, i, o)
  {
    var n := |rows| - 1;
    var after := Process(rows, turns, budget);
    ProcessExtends(rows, turns, budget);
    if i == n {
      AdvanceTells(Process(rows[..n], turns[..n], budget), rows[n], turns[n], budget, o);
    } else {
      OutcomesTell(rows[..n], turns[..n], budget, i, o);
      assert after.outcomes[..n][..i] == after.outcomes[..i];
    }
  }

  /** Callout `i` is logged at the place the callouts before it leave. */
  predicate LoggedInPlace(p: Progress, i: nat, id: LeadId, turn: Turn)
    requires i < |p.outcomes|
  {
    var k := CalledOutCount(p.outcomes[..i]);
    CalledOut(p.outcomes[i]) ==> k < |p.attempts| && Logs(p.attempts[k], id, turn)
  }

  lemma LaterKeepsPlaces(p: Progress, q: Progress, i: nat, id: LeadId, turn: Turn)
    requires i < |p.outcomes| <= |q.outcomes| && q.outcomes[..|p.outcomes|] == p.outcomes && p.attempts <= q.attempts
    requires LoggedInPlace(p, i, id, turn)
    ensures LoggedInPlace(q, i, id, turn)
  {
    assert q.outcomes[..|p.outcomes|][..i] == q.outcomes[..i] && q.outcomes[..|p.outcomes|][i] == q.outcomes[i];
  }

  /** The log holds the callouts in order, each with its lead, moment and answer. */
  lemma {:induction false} CalloutsAreLogged(rows: seq<Row>, turns: seq<Turn>, budget: Budget, i: nat)
    requires |turns| == |rows| && i < |rows|
    ensures |Process(rows, turns, budget).outcomes| == |rows|
    ensures LoggedInPlace(Process(rows, turns, budget), i, rows[i].id, turns[i])
  {
    var n := |rows| - 1;
    var before, after := Process(rows[..n], turns[..n], budget), Process(rows, turns, budget);
    ProcessExtends(rows, turns, budget);
    if i == n {
      AdvanceTells(before, rows[n], turns[n], budget, Sent);
    } else {
      CalloutsAreLogged(rows[..n], turns[..n], budget, i);
      LaterKeepsPlaces(before, after, i, rows[i].id, turns[i]);
    }
  }

  // --- every callout of every run -------------------------------------------------------

  /** Step `j` opened this chunk: its rows are the leads as they were, its template flag the query's. */
  ghost predicate OpenedBy(before: State, step: Step, chunk: Chunk) {
    && step.OpenChunk? && chunk.queryStep == before.step && chunk.budget.hasTemplate == step.hasTemplate
    && forall r <- chunk.rows :: r.id in step.ids && r.id in before.leads && r.lead == before.leads[r.id]
  }

  ghost predicate Opened(cfg: Config, s: State, steps: seq<Step>, chunk: Chunk) {
    exists j :: 0 <= j < |steps| && OpenedBy(Run(cfg, s, steps[..j]), steps[j], chunk)
  }

  /** The query of an approved template and a lead that may be contacted and has a phone. */
  predicate Queried(before: State, step: Step, c: Callout) {
    && step.OpenChunk? && step.hasTemplate && c.lead in step.ids && c.queryStep == before.step
    && c.lead in before.leads && Reachable(before.leads[c.lead]) && !Blank(before.leads[c.lead].phone)
  }

  /** The turn that made the callout, in the recipient's daytime. */
  predicate Called(before: State, step: Step, c: Callout) {
    step.TakeTurn? && Daytime(step.hour) && c.at == before.now && c.madeStep == before.step
  }

  ghost predicate WasQueried(cfg: Config, s: State, steps: seq<Step>, c: Callout) {
    exists j :: 0 <= j < |steps| && Queried(Run(cfg, s, steps[..j]), steps[j], c)
  }

  ghost predicate WasCalled(cfg: Config, s: State, steps: seq<Step>, c: Callout) {
    exists k :: 0 <= k < |steps| && Called(Run(cfg, s, steps[..k]), steps[k], c)
  }

  ghost predicate Traced(cfg: Config, s: State, steps: seq<Step>) {
    var t := Run(cfg, s, steps);
    && (t.chunk.Some? ==> Opened(cfg, s, steps, t.chunk.value))
    && forall c <- t.callouts :: WasQueried(cfg, s, steps, c) && WasCalled(cfg, s, steps, c)
  }

  lemma LongerRunRemembers(cfg: Config, s: State, steps: seq<Step>, chunk: Chunk, c: Callout)
    requires steps != []
    ensures var n := |steps| - 1;
            && (Opened(cfg, s, steps[..n], chunk) ==> Opened(cfg, s, steps, chunk))
            && (WasQueried(cfg, s, steps[..n], c) ==> WasQueried(cfg, s, steps, c))
            && (WasCalled(cfg, s, steps[..n], c) ==> WasCalled(cfg, s, steps, c))
  {
    var n := |steps| - 1;
    assert forall j :: 0 <= j < n ==> steps[..n][..j] == steps[..j] && steps[..n][j] == steps[j];
    if Opened(cfg, s, steps[..n], chunk) {
      var j :| 0 <= j < n && OpenedBy(Run(cfg, s, steps[..n][..j]), steps[..n][j], chunk);
      assert OpenedBy(Run(cfg, s, steps[..j]), steps[j], chunk);
    }
    if WasQueried(cfg, s, steps[..n], c) {
      var j :| 0 <= j < n && Queried(Run(cfg, s, steps[..n][..j]), steps[..n][j], c);
      assert Queried(Run(cfg, s, steps[..j]), steps[j], c);
    }
    if WasCalled(cfg, s, steps[..n], c) {
      var k :| 0 <= k < n && Called(Run(cfg, s, steps[..n][..k]), steps[..n][k], c);
      assert Called(Run(cfg, s, steps[..k]), steps[k], c);
    }
  }

  lemma OpeningOpens(s: State, ids: seq<LeadId>, hasTemplate: bool, limit: int)
    requires forall i :: 0 <= i < |ids| ==> ids[i] in s.leads
    ensures OpenedBy(s, OpenChunk(ids, hasTemplate), Open(s, ids, hasTemplate, limit))
  {
  }

  /** A turn that calls out is in daytime, to a lead the query found reachable, with a template. */
  lemma TurnCalls(s: State, hour: Option<int>, reply: Reply)
    requires s.chunk.Some? && s.chunk.value.next < |s.chunk.value.rows|
    ensures var t, row := TurnEffects(s, Turn(hour, s.now, reply)), s.chunk.value.rows[s.chunk.value.next];
            || t.callouts == s.callouts
            || (&& t.callouts == s.callouts + [Callout(row.id, s.now, s.chunk.value.queryStep, s.step)]
                && Reachable(row.lead) && Daytime(hour) && s.chunk.value.budget.hasTemplate && !Blank(row.lead.phone))
  {
  }

  lemma TurnKeepsRows(s: State, turn: Turn, before: State, step: Step)
    requires s.chunk.Some? && s.chunk.value.next < |s.chunk.value.rows| && OpenedBy(before, step, s.chunk.value)
    ensures TurnEffects(s, turn).chunk.Some? && OpenedBy(before, step, TurnEffects(s, turn).chunk.value)
  {
  }

  lemma CalloutIsTraced(cfg: Config, s: State, steps: seq<Step>, c: Callout)
    requires steps != [] && steps[|steps| - 1].TakeTurn?
    requires var n := |steps| - 1;
             var t, step := Run(cfg, s, steps[..n]), steps[n];
             && t.chunk.Some? && t.chunk.value.next < |t.chunk.value.rows| && Opened(cfg, s, steps[..n], t.chunk.value)
             && c in TurnEffects(t, Turn(step.hour, t.now, step.reply)).callouts && c !in t.callouts
    ensures WasQueried(cfg, s, steps, c) && WasCalled(cfg, s, steps, c)
  {
    var n := |steps| - 1;
    var t, step := Run(cfg, s, steps[..n]), steps[n];
    TurnCalls(t, step.hour, step.reply);
    var row := t.chunk.value.rows[t.chunk.value.next];
    var j :| 0 <= j < n && OpenedBy(Run(cfg, s, steps[..n][..j]), steps[..n][j], t.chunk.value);
    assert row in t.chunk.value.rows && steps[..n][..j] == steps[..j];
    assert Queried(Run(cfg, s, steps[..j]), steps[j], c);
    assert Called(t, steps[n], c);
  }

  lemma DeliveryCallsNobody(cfg: Config, s: State, d: Delivery)
    ensures DeliveryEffects(cfg, s, d).callouts == s.callouts && DeliveryEffects(cfg, s, d).chunk == s.chunk
  {
  }

  lemma JobCallsNobody(cfg: Config, s: State, index: nat, arrives: bool, heard: bool)
    requires index < |s.jobs|
    ensures var t := JobEffects(cfg, s, index, arrives, heard);
            t.callouts == s.callouts && t.chunk == s.chunk
  {
  }

  lemma OtherStepsCallNobody(cfg: Config, s: State, step: Step)
    requires !step.OpenChunk? && !step.TakeTurn?
    ensures var t := Next(cfg, s, step);
            t.callouts == s.callouts && (t.chunk == s.chunk || t.chunk.None?)
  {
    if Enabled(s, step) {
      match step {
        case CommitDelivery(index) => DeliveryCallsNobody(cfg, s, s.inFlight[index]);
        case RunJob(index, arrives, heard) => JobCallsNobody(cfg, s, index, arrives, heard);
        case _ =>
      }
    }
  }

  lemma OpeningIsTraced(cfg: Config, s: State, steps: seq<Step>)
    requires steps != [] && steps[|steps| - 1].OpenChunk?
    requires Enabled(Run(cfg, s, steps[..|steps| - 1]), steps[|steps| - 1])
    ensures Run(cfg, s, steps).chunk.Some? && Opened(cfg, s, steps, Run(cfg, s, steps).chunk.value)
    ensures Run(cfg, s, steps).callouts == Run(cfg, s, steps[..|steps| - 1]).callouts
  {
    var n := |steps| - 1;
    var t, step := Run(cfg, s, steps[..n]), steps[n];
    OpeningOpens(t, step.ids, step.hasTemplate, cfg.limit);
    assert OpenedBy(t, steps[n], Run(cfg, s, steps).chunk.value);
  }

  lemma TurnIsTraced(cfg: Config, s: State, steps: seq<Step>)
    requires steps != [] && steps[|steps| - 1].TakeTurn?
    requires Enabled(Run(cfg, s, steps[..|steps| - 1]), steps[|steps| - 1])
    requires Traced(cfg, s, steps[..|steps| - 1])
    ensures Traced(cfg, s, steps)
  {
    var n := |steps| - 1;
    var before, step := Run(cfg, s, steps[..n]), steps[n];
    var t := Run(cfg, s, steps);
    var j :| 0 <= j < n && OpenedBy(Run(cfg, s, steps[..n][..j]), steps[..n][j], before.chunk.value);
    TurnKeepsRows(before, Turn(step.hour, before.now, step.reply), Run(cfg, s, steps[..n][..j]), steps[..n][j]);
    assert steps[..n][..j] == steps[..j];
    assert OpenedBy(Run(cfg, s, steps[..j]), steps[j], t.chunk.value);
    forall c | c in t.callouts ensures WasQueried(cfg, s, steps, c) && WasCalled(cfg, s, steps, c) {
      if c in before.callouts {
        LongerRunRemembers(cfg, s, steps, t.chunk.value, c);
      } else {
        CalloutIsTraced(cfg, s, steps, c);
      }
    }
  }

  lemma {:induction false} AlwaysTraced(cfg: Config, s: State, steps: seq<Step>)
    requires Initial(s)
    ensures Traced(cfg, s, steps)
  {
    if steps == [] {
    } else {
      var n := |steps| - 1;
      var before, step, t := Run(cfg, s, steps[..n]), steps[n], Run(cfg, s, steps);
      AlwaysTraced(cfg, s, steps[..n]);
      if step.TakeTurn? && Enabled(before, step) {
        TurnIsTraced(cfg, s, steps);
      } else {
        if step.OpenChunk? && Enabled(before, step) {
          OpeningIsTraced(cfg, s, steps);
        } else {
          StillTraced(cfg, s, steps);
        }
        forall c | c in t.callouts ensures WasQueried(cfg, s, steps, c) && WasCalled(cfg, s, steps, c) {
          LongerRunRemembers(cfg, s, steps, Chunk([], 0, 0, 0, Budget(0, 0, false), Progress([], [])), c);
        }
      }
    }
  }

  lemma StillTraced(cfg: Config, s: State, steps: seq<Step>)
    requires steps != []
    requires var n := |steps| - 1;
             && Traced(cfg, s, steps[..n])
             && (Enabled(Run(cfg, s, steps[..n]), steps[n]) ==> !steps[n].OpenChunk? && !steps[n].TakeTurn?)
    ensures var t := Run(cfg, s, steps);
            && t.callouts == Run(cfg, s, steps[..|steps| - 1]).callouts
            && (t.chunk.Some? ==> Opened(cfg, s, steps, t.chunk.value))
  {
    var n := |steps| - 1;
    var before, t := Run(cfg, s, steps[..n]), Run(cfg, s, steps);
    if Enabled(before, steps[n]) { OtherStepsCallNobody(cfg, before, steps[n]); }
    if t.chunk.Some? {
      LongerRunRemembers(cfg, s, steps, t.chunk.value, Callout(0, 0, 0, 0));
    }
  }

  /**
   * Every callout of every run goes back to a query that found an approved template and the lead Ready,
   * not opted out and with a phone, and to a turn between 8 and 20 o'clock of the recipient.
   */
  lemma EveryCalloutWasCleared(cfg: Config, s: State, steps: seq<Step>, c: Callout) returns (j: nat, k: nat)
    requires Initial(s) && c in Run(cfg, s, steps).callouts
    ensures j < |steps| && Queried(Run(cfg, s, steps[..j]), steps[j], c)
    ensures k < |steps| && Called(Run(cfg, s, steps[..k]), steps[k], c)
  {
    AlwaysTraced(cfg, s, steps);
    assert WasQueried(cfg, s, steps, c) && WasCalled(cfg, s, steps, c);
    j :| 0 <= j < |steps| && Queried(Run(cfg, s, steps[..j]), steps[j], c);
    k :| 0 <= k < |steps| && Called(Run(cfg, s, steps[..k]), steps[k], c);
  }

  // --- the commit ----------------------------------------------------------------------------

  /** The row a commit writes for an attempt. */
  predicate RowFor(m: Message, a: Attempt, now: int) {
    && m.sid == a.sid && m.direction == Outbound && m.createdAt == now && m.sentAt == Some(a.sentAt)
    && m.verdict == None && m.identifier == None && !m.needsReview
    && m.delivery == (if a.accepted then "queued" else "failed")
  }

  predicate Accepted(attempts: seq<Attempt>, l: LeadId) {
    exists i | 0 <= i < |attempts| :: attempts[i].lead == l && attempts[i].accepted
  }

  predicate LeadAfter(before: Lead, accepted: bool, after: Lead) {
    after == if accepted then before.(status := Contacted) else before
  }

  lemma {:induction false} ContactedAreAccepted(attempts: seq<Attempt>, l: LeadId)
    ensures l in ContactedBy(attempts) <==> Accepted(attempts, l)
  {
    if attempts == [] {
    } else {
      var n := |attempts| - 1;
      ContactedAreAccepted(attempts[..n], l);
      if Accepted(attempts[..n], l) {
        var i :| 0 <= i < n && attempts[..n][i].lead == l && attempts[..n][i].accepted;
        assert attempts[i].lead == l;
      }
      if Accepted(attempts, l) {
        var i :| 0 <= i < |attempts| && attempts[i].lead == l && attempts[i].accepted;
        assert i < n ==> attempts[..n][i].lead == l;
      }
    }
  }

  /** A commit logs every attempt in order and marks exactly the leads that were sent to, or writes nothing. */
  lemma CommitWrites(cfg: Config, s: State)
    requires s.chunk.Some? && s.chunk.value.next == |s.chunk.value.rows|
    ensures var t, attempts := Next(cfg, s, CommitChunk), s.chunk.value.progress.attempts;
            && t.chunk.None? && t.leads.Keys == s.leads.Keys
            && if Collides(s.messages, attempts) then t.messages == s.messages && t.leads == s.leads
               else && |t.messages| == |s.messages| + |attempts| && t.messages[..|s.messages|] == s.messages
                    && (forall i :: 0 <= i < |attempts| ==> RowFor(t.messages[|s.messages| + i], attempts[i], s.now))
                    && forall l :: l in s.leads ==> LeadAfter(s.leads[l], Accepted(attempts, l), t.leads[l])
  {
    var attempts := s.chunk.value.progress.attempts;
    forall l | l in s.leads ensures l in ContactedBy(attempts) <==> Accepted(attempts, l) {
      ContactedAreAccepted(attempts, l);
    }
  }
}
