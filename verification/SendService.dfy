/**
 * One chunk of the send path (OutreachSendService.sendBatch): the gate loop over a fixed snapshot
 * of leads, with what the clock, the zone table and the provider answer on each turn as inputs.
 */
module SendService {
  import opened Common

  const QUIET_HOURS_START := 8
  const QUIET_HOURS_END := 21
  const MAX_CALLOUTS_PER_RUN := 90

  type LeadId = int
  type Sid = string

  datatype LeadStatus = Ready | Contacted | Replied | Suppressed | OtherStatus(name: string)

  datatype Lead = Lead(phone: string, optedOut: bool, status: LeadStatus, createdAt: int, autoReplies: int)

  /** A lead as the run's query returned it. */
  datatype Row = Row(id: LeadId, lead: Lead)

  datatype BlockReason =
    | AlreadySuppressed | NotReady | UnknownTimezone | QuietHours | RateLimited
    | NoApprovedTemplate | MissingPhone | Deferred | SendFailed

  datatype Outcome = Sent | Blocked(reason: BlockReason)

  /** What the provider answered: accepted, perhaps with a message id, or an error or exception. */
  datatype Reply = Accepted(sid: Option<Sid>) | Refused

  /** One turn of the loop: the recipient's local hour if its zone is known, the clock, the reply. */
  datatype Turn = Turn(hour: Option<int>, now: int, reply: Reply)

  datatype Attempt = Attempt(lead: LeadId, sentAt: int, accepted: bool, sid: Option<Sid>)

  /** What every turn of one run sees alike. */
  datatype Budget = Budget(prior: nat, limit: int, hasTemplate: bool)

  datatype Progress = Progress(outcomes: seq<Outcome>, attempts: seq<Attempt>)

  predicate Blank(s: string) { forall i :: 0 <= i < |s| ==> s[i] <= ' ' }

  predicate InWindow(hour: Option<int>) { hour.Some? && QUIET_HOURS_START <= hour.value < QUIET_HOURS_END }

  /** The gates in their fixed order; None means the callout is made. */
  function Gate(lead: Lead, hour: Option<int>, made: nat, budget: Budget): Option<BlockReason> {
    if lead.optedOut || lead.status == Suppressed then Some(AlreadySuppressed)
    else if lead.status != Ready then Some(NotReady)
    else if hour.None? then Some(UnknownTimezone)
    else if !InWindow(hour) then Some(QuietHours)
    else if budget.prior + made >= budget.limit then Some(RateLimited)
    else if !budget.hasTemplate then Some(NoApprovedTemplate)
    else if Blank(lead.phone) then Some(MissingPhone)
    else if made >= MAX_CALLOUTS_PER_RUN then Some(Deferred)
    else None
  }

  function PerformSend(id: LeadId, turn: Turn): Attempt {
    match turn.reply
    case Accepted(sid) => Attempt(id, turn.now, true, sid)
    case Refused => Attempt(id, turn.now, false, None)
  }

  /** One lead through the gates. */
  function Advance(p: Progress, row: Row, turn: Turn, budget: Budget): Progress {
    var block := Gate(row.lead, turn.hour, |p.attempts|, budget);
    if block.Some? then Progress(p.outcomes + [Blocked(block.value)], p.attempts)
    else
      var attempt := PerformSend(row.id, turn);
      Progress(p.outcomes + [if attempt.accepted then Sent else Blocked(SendFailed)], p.attempts + [attempt])
  }

  function Process(rows: seq<Row>, turns: seq<Turn>, budget: Budget): Progress
    requires |turns| == |rows|
  {
    if rows == [] then Progress([], [])
    else
      var n := |rows| - 1;
      Advance(Process(rows[..n], turns[..n], budget), rows[n], turns[n], budget)
  }

  /** Sent attempts, in order: the leads whose status the commit sets to Contacted. */
  function ContactedBy(attempts: seq<Attempt>): seq<LeadId> {
    if attempts == [] then []
    else
      var n := |attempts| - 1;
      ContactedBy(attempts[..n]) + (if attempts[n].accepted then [attempts[n].lead] else [])
  }

  lemma ProcessOneMore(rows: seq<Row>, turns: seq<Turn>, budget: Budget, i: nat)
    requires |turns| == |rows| && i < |rows|
    ensures Process(rows[..i + 1], turns[..i + 1], budget)
         == Advance(Process(rows[..i], turns[..i], budget), rows[i], turns[i], budget)
  {
    assert rows[..i + 1][..i] == rows[..i] && turns[..i + 1][..i] == turns[..i];
  }

  lemma ContactedOneMore(attempts: seq<Attempt>, a: Attempt)
    ensures ContactedBy(attempts + [a]) == ContactedBy(attempts) + (if a.accepted then [a.lead] else [])
  {
    assert (attempts + [a])[..|attempts|] == attempts;
  }

  lemma CountOneMore(outcomes: seq<Outcome>, last: Outcome, o: Outcome)
    ensures Count(outcomes + [last], o) == Count(outcomes, o) + (if last == o then 1 else 0)
  {
    assert (outcomes + [last])[..|outcomes|] == outcomes;
  }

  /** The loop itself, with its counters and early exits. */
  method GateLoop(rows: seq<Row>, turns: seq<Turn>, budget: Budget)
    returns (outcomes: seq<Outcome>, attemptLog: seq<Attempt>, contacted: seq<LeadId>)
    requires |turns| == |rows|
    ensures Progress(outcomes, attemptLog) == Process(rows, turns, budget)
    ensures contacted == ContactedBy(attemptLog)
  {
    outcomes, attemptLog, contacted := [], [], [];
    var calloutsMade := 0;
    for i := 0 to |rows|
      invariant Progress(outcomes, attemptLog) == Process(rows[..i], turns[..i], budget)
      invariant contacted == ContactedBy(attemptLog)
      invariant calloutsMade == |attemptLog|
    {
      ProcessOneMore(rows, turns, budget, i);
      var lead, hour := rows[i].lead, turns[i].hour;
      if lead.optedOut || lead.status == Suppressed {
        outcomes := outcomes + [Blocked(AlreadySuppressed)];
        continue;
      }
      if lead.status != Ready {
        outcomes := outcomes + [Blocked(NotReady)];
        continue;
      }
      if hour.None? {
        outcomes := outcomes + [Blocked(UnknownTimezone)];
        continue;
      }
      if hour.value < QUIET_HOURS_START || hour.value >= QUIET_HOURS_END {
        outcomes := outcomes + [Blocked(QuietHours)];
        continue;
      }
      if budget.prior + calloutsMade >= budget.limit {
        outcomes := outcomes + [Blocked(RateLimited)];
        continue;
      }
      if !budget.hasTemplate {
        outcomes := outcomes + [Blocked(NoApprovedTemplate)];
        continue;
      }
      if Blank(lead.phone) {
        outcomes := outcomes + [Blocked(MissingPhone)];
        continue;
      }
      if calloutsMade >= MAX_CALLOUTS_PER_RUN {
        outcomes := outcomes + [Blocked(Deferred)];
        continue;
      }
      calloutsMade := calloutsMade + 1;
      var attempt := PerformSend(rows[i].id, turns[i]);
      ContactedOneMore(attemptLog, attempt);
      attemptLog := attemptLog + [attempt];
      if attempt.accepted {
        outcomes := outcomes + [Sent];
        contacted := contacted + [rows[i].id];
      } else {
        outcomes := outcomes + [Blocked(SendFailed)];
      }
    }
    assert rows[..|rows|] == rows && turns[..|turns|] == turns;
  }

  // --- what one run does ------------------------------------------------------------

  /** Passes every gate that does not depend on how much was already sent; the hours are 8 to 20. */
  predicate Eligible(lead: Lead, hour: Option<int>, hasTemplate: bool) {
    && !lead.optedOut && lead.status == Ready && hour.Some? && 8 <= hour.value < 21 && hasTemplate
    && !Blank(lead.phone)
  }

  function EligibleCount(rows: seq<Row>, turns: seq<Turn>, hasTemplate: bool): nat
    requires |turns| == |rows|
  {
    if rows == [] then 0
    else
      var n := |rows| - 1;
      EligibleCount(rows[..n], turns[..n], hasTemplate)
      + (if Eligible(rows[n].lead, turns[n].hour, hasTemplate) then 1 else 0)
  }

  /** What is left of the hour's allowance, and never more than 90. */
  function Allowance(budget: Budget): nat { Min(90, Max(0, budget.limit - budget.prior)) }

  /** Exactly as many callouts as leads deserve one, up to the allowance; one attempt logged for each. */
  lemma {:induction false} CalloutsAreExact(rows: seq<Row>, turns: seq<Turn>, budget: Budget)
    requires |turns| == |rows|
    ensures |Process(rows, turns, budget).attempts|
         == Min(EligibleCount(rows, turns, budget.hasTemplate), Allowance(budget))
    ensures |Process(rows, turns, budget).outcomes| == |rows|
  {
    if rows == [] {
    } else {
      var n := |rows| - 1;
      CalloutsAreExact(rows[..n], turns[..n], budget);
    }
  }

  /** Every attempt belongs to a lead of the snapshot that was clear to contact at that moment. */
  lemma {:induction false} AttemptsAreCleared(rows: seq<Row>, turns: seq<Turn>, budget: Budget)
    requires |turns| == |rows|
    ensures forall a <- Process(rows, turns, budget).attempts ::
              exists i :: 0 <= i < |rows| && a == PerformSend(rows[i].id, turns[i])
                          && Eligible(rows[i].lead, turns[i].hour, budget.hasTemplate)
  {
    if rows == [] {
    } else {
      var n := |rows| - 1;
      AttemptsAreCleared(rows[..n], turns[..n], budget);
      var before := Process(rows[..n], turns[..n], budget);
      forall a | a in Process(rows, turns, budget).attempts
        ensures exists i :: 0 <= i < |rows| && a == PerformSend(rows[i].id, turns[i])
                            && Eligible(rows[i].lead, turns[i].hour, budget.hasTemplate)
      {
        if a in before.attempts {
          var i :| 0 <= i < n && a == PerformSend(rows[..n][i].id, turns[..n][i])
                   && Eligible(rows[..n][i].lead, turns[..n][i].hour, budget.hasTemplate);
          assert a == PerformSend(rows[i].id, turns[i]);
        } else {
          assert a == PerformSend(rows[n].id, turns[n]);
        }
      }
    }
  }

  function Count(outcomes: seq<Outcome>, o: Outcome): nat {
    if outcomes == [] then 0
    else Count(outcomes[..|outcomes| - 1], o) + (if outcomes[|outcomes| - 1] == o then 1 else 0)
  }

  /** The outcomes the caller sees account for every attempt: sent, or failed after a callout. */
  lemma {:induction false} OutcomesAccountForAttempts(rows: seq<Row>, turns: seq<Turn>, budget: Budget)
    requires |turns| == |rows|
    ensures var p := Process(rows, turns, budget);
            && Count(p.outcomes, Sent) == |ContactedBy(p.attempts)|
            && Count(p.outcomes, Sent) + Count(p.outcomes, Blocked(SendFailed)) == |p.attempts|
  {
    if rows == [] {
    } else {
      var n := |rows| - 1;
      OutcomesAccountForAttempts(rows[..n], turns[..n], budget);
      AdvanceAccounts(Process(rows[..n], turns[..n], budget), rows[n], turns[n], budget);
    }
  }

  lemma AdvanceAccounts(q: Progress, row: Row, turn: Turn, budget: Budget)
    ensures var p := Advance(q, row, turn, budget);
            && Count(p.outcomes, Sent) - Count(q.outcomes, Sent) ==
               |ContactedBy(p.attempts)| - |ContactedBy(q.attempts)|
            && Count(p.outcomes, Sent) + Count(p.outcomes, Blocked(SendFailed)) - |p.attempts|
            == Count(q.outcomes, Sent) + Count(q.outcomes, Blocked(SendFailed)) - |q.attempts|
  {
    var p := Advance(q, row, turn, budget);
    var last := p.outcomes[|q.outcomes|];
    CountOneMore(q.outcomes, last, Sent);
    CountOneMore(q.outcomes, last, Blocked(SendFailed));
    ContactedOneMore(q.attempts, PerformSend(row.id, turn));
  }

  // --- tallies across chunks ------------------------------------------------------------

  /** The stateful batch job: tallies kept over all chunks executed so far (OutreachSendBatch). */
  class SendBatch {
    var sentCount: nat
    var blockedReasons: map<BlockReason, nat>
    ghost var history: seq<Outcome>

    /** The tallies are exactly the counts over the whole history. */
    ghost predicate Valid()
      reads this
    {
      && sentCount == Count(history, Sent)
      && forall r :: Count(history, Blocked(r)) == if r in blockedReasons then blockedReasons[r] else 0
    }

    constructor ()
      ensures Valid() && history == []
    {
      sentCount, blockedReasons, history := 0, map[], [];
    }

    method Execute(outcomes: seq<Outcome>)
      requires Valid()
      modifies this
      ensures Valid() && history == old(history) + outcomes
    {
      for i := 0 to |outcomes|
        invariant Valid() && history == old(history) + outcomes[..i]
      {
        var outcome := outcomes[i];
        assert (history + [outcome])[..|history|] == history;
        history := history + [outcome];
        match outcome {
          case Sent => sentCount := sentCount + 1;
          case Blocked(reason) =>
            var seen := if reason in blockedReasons then blockedReasons[reason] else 0;
            blockedReasons := blockedReasons[reason := seen + 1];
        }
        assert outcomes[..i + 1] == outcomes[..i] + [outcome];
        assert history == old(history) + outcomes[..i + 1];
      }
      assert outcomes[..|outcomes|] == outcomes;
    }
  }
}
