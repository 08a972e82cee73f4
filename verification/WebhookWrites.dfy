/**
 * What one webhook or one execution of a mirror job writes, field by field: the inbound record and its
 * review flag, the matched lead, the job it enqueues, the delivery status, the retry and its end.
 */
module WebhookWrites {
  import opened Common
  import opened SendService
  import opened EventLog
  import opened OrgProtocol
  import Guardrails

  // --- an inbound message -----------------------------------------------------------------

  /** The replies of ours the guardrails are told of: the matched lead's, none without a lead. */
  function PriorReplies(d: Delivery): int
    requires d.InboundDelivery?
  {
    match d.matched
    case Some(m) => m.autoReplies
    case None => 0
  }

  /** The record of an inbound message: flagged for a review verdict, and for an opt-out that cannot be mirrored. */
  predicate InboundRow(m: Message, d: Delivery, verdict: Action, now: int)
    requires d.InboundDelivery?
  {
    && m.sid == Some(d.sid) && m.direction == Inbound && m.createdAt == now && m.sentAt == None
    && m.verdict == Some(verdict) && m.identifier == d.identifier && m.delivery == "received"
    && (m.needsReview <==> match verdict
                           case HumanReview => true
                           case SuppressAndStop => d.identifier == None
                           case Proceed => false)
  }

  /** The matched lead afterwards: suppressed and flagged, or replied and otherwise as it was. */
  predicate LeadReplied(before: Lead, after: Lead, verdict: Action) {
    && after.phone == before.phone && after.createdAt == before.createdAt && after.autoReplies == before.autoReplies
    && match verdict
       case SuppressAndStop => after.optedOut && after.status == Suppressed
       case _ => after.optedOut == before.optedOut && after.status == Replied
  }

  predicate IsMatched(d: Delivery, l: LeadId)
    requires d.InboundDelivery?
  {
    d.matched.Some? && d.matched.value.lead == l
  }

  /** The first delivery of a message: one record, the matched lead, a mirror job for an opt-out with an identifier. */
  lemma InboundWrites(cfg: Config, s: State, index: nat)
    requires index < |s.inFlight| && s.inFlight[index].InboundDelivery? && !HasSid(s.messages, s.inFlight[index].sid)
    ensures var d, t := s.inFlight[index], Next(cfg, s, CommitDelivery(index));
            var verdict := cfg.judge(d.body, PriorReplies(d));
            && |t.messages| == |s.messages| + 1 && t.messages[..|s.messages|] == s.messages
            && InboundRow(t.messages[|s.messages|], d, verdict, s.now)
            && t.leads.Keys == s.leads.Keys
            && (forall l :: l in s.leads && IsMatched(d, l) ==> LeadReplied(s.leads[l], t.leads[l], verdict))
            && (forall l :: l in s.leads && !IsMatched(d, l) ==> t.leads[l] == s.leads[l])
            && (if verdict == Guardrails.SuppressAndStop && d.identifier.Some?
                then t.jobs == s.jobs + [Job(d.identifier.value, |s.messages|, 0)] else t.jobs == s.jobs)
            && t.aws == s.aws && t.chunk == s.chunk
  {
  }

  /** A repeated delivery of it writes nothing. */
  lemma RetryWritesNothing(cfg: Config, s: State, index: nat)
    requires index < |s.inFlight| && s.inFlight[index].InboundDelivery? && HasSid(s.messages, s.inFlight[index].sid)
    ensures var t := Next(cfg, s, CommitDelivery(index));
            t.messages == s.messages && t.leads == s.leads && t.jobs == s.jobs && t.aws == s.aws && t.chunk == s.chunk
  {
  }

  // --- whose reply it is --------------------------------------------------------------------

  /** The newest lead of a phone: it has the phone, and no lead with that phone was created after it. */
  predicate Newest(leads: map<LeadId, Lead>, phone: string, l: LeadId) {
    && l in leads && leads[l].phone == phone
    && forall o :: o in leads && leads[o].phone == phone ==> leads[o].createdAt <= leads[l].createdAt
  }

  predicate NobodyHas(leads: map<LeadId, Lead>, phone: string) {
    forall o :: o in leads ==> leads[o].phone != phone
  }

  /** The state once a message was received and, with nothing between, committed. */
  function AfterReplyTo(cfg: Config, s: State, sid: Sid, from: Option<string>, body: Option<string>,
                   matched: Option<LeadId>): State
  {
    Next(cfg, Next(cfg, s, ReceiveInbound(sid, from, body, matched)), CommitDelivery(|s.inFlight|))
  }

  /** Our earlier replies to whoever is matched. */
  function RepliesTo(leads: map<LeadId, Lead>, matched: Option<LeadId>): int {
    if matched.Some? && matched.value in leads then leads[matched.value].autoReplies else 0
  }

  /**
   * An opt-out by phone flags the newest lead of that phone and nobody else; without a readable phone,
   * or with one no lead has, it flags nobody.
   */
  lemma OptOutFlagsTheNewest(cfg: Config, s: State, sid: Sid, from: Option<string>, body: Option<string>,
                             matched: Option<LeadId>)
    requires Enabled(s, ReceiveInbound(sid, from, body, matched)) && !HasSid(s.messages, sid)
    requires Suppressing(cfg.judge(body, RepliesTo(s.leads, matched)))
    ensures var t := AfterReplyTo(cfg, s, sid, from, body, matched);
            match NormalizePhone(from)
            case None => matched == None && t.leads == s.leads
            case Some(phone) =>
              if matched == None then NobodyHas(s.leads, phone) && t.leads == s.leads
              else && Newest(s.leads, phone, matched.value) && t.leads[matched.value].optedOut
                   && t.leads == s.leads[matched.value := t.leads[matched.value]]
  {
    var received := Next(cfg, s, ReceiveInbound(sid, from, body, matched));
    var d := received.inFlight[|s.inFlight|];
    assert d.InboundDelivery? && d.sid == sid && received.messages == s.messages && received.leads == s.leads;
    InboundWrites(cfg, received, |s.inFlight|);
  }

  // --- a delivery status ---------------------------------------------------------------------

  /** A status is written to the record that has its id, and to nothing else; an unknown id gets a record of its own. */
  lemma StatusWrites(cfg: Config, s: State, index: nat)
    requires index < |s.inFlight| && s.inFlight[index].StatusDelivery?
    ensures var d, t := s.inFlight[index], Next(cfg, s, CommitDelivery(index));
            && t.leads == s.leads && t.jobs == s.jobs && t.aws == s.aws && t.chunk == s.chunk
            && if HasSid(s.messages, d.sid)
               then exists i :: 0 <= i < |s.messages| && s.messages[i].sid == Some(d.sid)
                                && t.messages == s.messages[i := s.messages[i].(delivery := d.status)]
               else t.messages == s.messages
                                  + [Message(Some(d.sid), Outbound, s.now, None, None, None, false, d.status)]
  {
    var d := s.inFlight[index];
    if HasSid(s.messages, d.sid) {
      var i := IndexOfSid(s.messages, d.sid);
      assert s.messages[i].sid == Some(d.sid);
    }
  }

  // --- a mirror job ----------------------------------------------------------------------------

  /** The event a request leaves at the far end. */
  predicate MirrorOf(e: Event, job: Job, accepted: string, now: int) {
    && e.identifier == accepted && e.raw == job.identifier && e.occurredAt == now
    && (e.kind == Email <==> '@' in job.identifier)
  }

  /** The log after a request that did or did not arrive. */
  predicate RequestLogged(before: seq<Event>, after: seq<Event>, job: Job,
                          arrives: bool, accepted: Option<string>, now: int) {
    if arrives && accepted.Some?
    then |after| == |before| + 1 && after[..|before|] == before && MirrorOf(after[|before|], job, accepted.value, now)
    else after == before
  }

  /**
   * One execution that does not throw: answered 200 it ends the job; otherwise it is queued again one
   * attempt up with the record as it was, and after the fifth attempt ends with its record flagged.
   */
  lemma ExecutionWrites(cfg: Config, s: State, index: nat, arrives: bool, heard: bool)
    requires index < |s.jobs| && s.jobs[index].message < |s.messages|
    ensures var job, t := s.jobs[index], Next(cfg, s, RunJob(index, arrives, heard));
            var accepted := cfg.accept(job.identifier);
            && t.leads == s.leads && t.chunk == s.chunk && RequestLogged(s.aws, t.aws, job, arrives, accepted, s.now)
            && t.executions[job.message] == s.executions[job.message] + 1
            && if arrives && heard && accepted.Some? then t.jobs == WithoutAt(s.jobs, index) && t.messages == s.messages
               else if job.attempt < 4
               then && t.jobs == s.jobs[index := Job(job.identifier, job.message, job.attempt + 1)]
                    && t.messages == s.messages
               else && t.jobs == WithoutAt(s.jobs, index) && t.messages[job.message].needsReview
                    && t.messages == s.messages[job.message := s.messages[job.message].(needsReview := true)]
  {
  }

  /** One that throws ends the job and tells nobody. */
  lemma ThrowWrites(cfg: Config, s: State, index: nat, arrives: bool)
    requires index < |s.jobs|
    ensures var job, t := s.jobs[index], Next(cfg, s, FailJob(index, arrives));
            && t.leads == s.leads && t.chunk == s.chunk && t.messages == s.messages
            && t.jobs == WithoutAt(s.jobs, index)
            && RequestLogged(s.aws, t.aws, job, arrives, cfg.accept(job.identifier), s.now)
  {
  }
}
