/**
 * The Salesforce side as a transition system: send chunks (query, callouts, commit), inbound and
 * status webhooks (query, commit) that may be retried and interleaved, mirror jobs whose responses
 * may be lost and whose executions may fail, and the lead edits of everyone else. One step is one
 * atomic database interaction.
 */
module OrgProtocol {
  import opened Common
  import opened SendService
  import opened EventLog
  import Guardrails

  const HOUR_SECONDS := 3600
  const MAX_ATTEMPTS := 5

  type Action = Guardrails.Action

  datatype Direction = Inbound | Outbound

  /** An Outreach_Message__c row; a row's index is its record id, rows are never deleted. */
  datatype Message = Message(sid: Option<Sid>, direction: Direction, createdAt: int, sentAt: Option<int>,
                             verdict: Option<Action>, identifier: Option<string>, needsReview: bool, delivery: string)

  /** A queued mirror of one opt-out: `message` is the record to flag when attempts run out. */
  datatype Job = Job(identifier: string, message: nat, attempt: nat)

  /** The lead an inbound delivery matched when it looked, with the reply count it read. */
  datatype Matched = Matched(lead: LeadId, autoReplies: int)

  /** A webhook transaction between its query and its commit. */
  datatype Delivery =
    | InboundDelivery(sid: Sid, identifier: Option<string>, body: Option<string>, matched: Option<Matched>)
    | StatusDelivery(sid: Sid, status: string)

  /** A send chunk between its query and its commit. */
  datatype Chunk = Chunk(rows: seq<Row>, next: nat, queryAt: int, queryStep: nat, budget: Budget, progress: Progress)

  /** History: a callout, the step of its chunk's query, and the step that made it. */
  datatype Callout = Callout(lead: LeadId, at: int, queryStep: nat, madeStep: nat)

  datatype State = State(
    now: int,
    step: nat,
    leads: map<LeadId, Lead>,
    messages: seq<Message>,
    jobs: seq<Job>,
    inFlight: seq<Delivery>,
    chunk: Option<Chunk>,
    aws: seq<Event>,
    // history, read by no transition
    callouts: seq<Callout>,
    lost: seq<Attempt>,
    optOutStep: map<LeadId, nat>,
    answered: set<Sid>,
    evaluations: seq<Sid>,
    mirrors: seq<Sid>,
    executions: multiset<nat>,
    died: set<nat>)

  /** The throttle, the guardrail verdict, and the identifiers the AWS end can normalize. */
  datatype Config = Config(limit: int, judge: (Option<string>, int) -> Action, accept: string -> Option<string>)

  datatype Step =
    | Wait(time: nat)
    | EditLead(id: LeadId, phone: string, leadStatus: LeadStatus, createdAt: int, autoReplies: int, optOut: bool)
    | OpenChunk(ids: seq<LeadId>, hasTemplate: bool)
    | TakeTurn(hour: Option<int>, reply: Reply)
    | CommitChunk
    | RollBackChunk
    | ReceiveInbound(sid: Sid, from: Option<string>, body: Option<string>, matched: Option<LeadId>)
    | ReceiveStatus(sid: Sid, status: string)
    | CommitDelivery(index: nat)
    | AbortDelivery(index: nat)
    | RunJob(index: nat, arrives: bool, heard: bool)
    | FailJob(index: nat, arrives: bool)

  // --- queries ------------------------------------------------------------------------

  /** The counts taken over message rows: the rate-limit query, and the two views of a one-hour window. */
  datatype Measure =
    | OutboundSince(since: int)
    | AttemptsLogged(from: int)
    | AttemptsSent(from: int)
    | AttemptsEver

  predicate Within(t: int, from: int) { from <= t <= from + 3600 }

  predicate Measured(k: Measure, m: Message) {
    match k
    case OutboundSince(since) => m.direction == Outbound && m.createdAt >= since
    case AttemptsLogged(from) => m.sentAt.Some? && Within(m.createdAt, from)
    case AttemptsSent(from) => m.sentAt.Some? && Within(m.sentAt.value, from)
    case AttemptsEver => m.sentAt.Some?
  }

  function NumberOf(ms: seq<Message>, k: Measure): nat {
    if ms == [] then 0 else NumberOf(ms[..|ms| - 1], k) + (if Measured(k, ms[|ms| - 1]) then 1 else 0)
  }

  predicate HasSid(ms: seq<Message>, sid: Sid) { exists i :: 0 <= i < |ms| && ms[i].sid == Some(sid) }

  function IndexOfSid(ms: seq<Message>, sid: Sid): (i: nat)
    requires HasSid(ms, sid)
    ensures i < |ms| && ms[i].sid == Some(sid)
  {
    if ms[0].sid == Some(sid) then 0 else
      assert HasSid(ms[1..], sid) by {
        var j :| 0 <= j < |ms| && ms[j].sid == Some(sid);
        assert ms[1..][j - 1].sid == Some(sid);
      }
      1 + IndexOfSid(ms[1..], sid)
  }

  /** US-region phone normalization of the webhook (TwilioWebhook.normalizePhone). */
  function NormalizePhone(raw: Option<string>): Option<string> {
    if raw.None? || Blank(raw.value) then None
    else
      var digits := DigitsOf(raw.value);
      if |digits| == 10 then Some("+1" + digits)
      else if |digits| == 11 && digits[0] == '1' then Some("+" + digits)
      else if StartsWithPlus(raw.value) && |digits| > 11 then Some("+" + digits)
      else None
  }

  function DigitsOf(s: string): string {
    if s == [] then [] else (if '0' <= s[0] <= '9' then [s[0]] else []) + DigitsOf(s[1..])
  }

  predicate StartsWithPlus(s: string) {
    s != [] && (s[0] == '+' || (s[0] <= ' ' && StartsWithPlus(s[1..])))
  }

  /** The newest lead with this phone, if any; among leads created together, any of them. */
  predicate Matches(leads: map<LeadId, Lead>, phone: Option<string>, matched: Option<LeadId>) {
    if phone.None? then matched.None?
    else if matched.None? then forall l <- leads :: leads[l].phone != phone.value
    else
      && matched.value in leads && leads[matched.value].phone == phone.value
      && forall l <- leads :: leads[l].phone == phone.value ==> leads[l].createdAt <= leads[matched.value].createdAt
  }

  // --- writes ---------------------------------------------------------------------------

  function LogOf(a: Attempt, now: int): Message {
    Message(a.sid, Outbound, now, Some(a.sentAt), None, None, false, if a.accepted then "queued" else "failed")
  }

  function LogAll(attempts: seq<Attempt>, now: int): (r: seq<Message>)
    ensures |r| == |attempts|
    ensures forall i :: 0 <= i < |r| ==> r[i] == LogOf(attempts[i], now)
  {
    seq(|attempts|, i requires 0 <= i < |attempts| => LogOf(attempts[i], now))
  }

  /** The unique index refuses the insert: an id is taken, or repeats within the batch. */
  predicate Collides(ms: seq<Message>, attempts: seq<Attempt>) {
    || (exists i :: 0 <= i < |attempts| && attempts[i].sid.Some? && HasSid(ms, attempts[i].sid.value))
    || (exists i, j :: 0 <= i < j < |attempts| && attempts[i].sid.Some? && attempts[i].sid == attempts[j].sid)
  }

  function MarkContacted(leads: map<LeadId, Lead>, contacted: seq<LeadId>): map<LeadId, Lead> {
    map l | l in leads :: if l in contacted then leads[l].(status := Contacted) else leads[l]
  }

  predicate Suppressing(a: Action) { a == Guardrails.SuppressAndStop }

  /** The lead as the inbound transaction leaves it. */
  function AfterReply(lead: Lead, suppress: bool): Lead {
    if suppress then lead.(status := Suppressed, optedOut := true) else lead.(status := Replied)
  }

  function WithoutAt<T>(s: seq<T>, i: nat): seq<T>
    requires i < |s|
  {
    s[..i] + s[i + 1..]
  }

  function InboundRecord(d: Delivery, verdict: Action, now: int): Message
    requires d.InboundDelivery?
  {
    Message(Some(d.sid), Inbound, now, None, Some(verdict), d.identifier,
            verdict == Guardrails.HumanReview || (Suppressing(verdict) && d.identifier.None?), "received")
  }

  function Stub(sid: Sid, status: string, now: int): Message {
    Message(Some(sid), Outbound, now, None, None, None, false, status)
  }

  /** The whole webhook transaction after its insert succeeded: verdict, lead update, enqueue. */
  function InboundEffects(cfg: Config, s: State, d: Delivery): State
    requires d.InboundDelivery?
  {
    var prior := if d.matched.Some? then d.matched.value.autoReplies else 0;
    var verdict := cfg.judge(d.body, prior);
    var suppress := Suppressing(verdict);
    var mirror := suppress && d.identifier.Some?;
    var lead := if d.matched.Some? && d.matched.value.lead in s.leads then Some(d.matched.value.lead) else None;
    s.(messages := s.messages + [InboundRecord(d, verdict, s.now)],
       leads := if lead.Some? then s.leads[lead.value := AfterReply(s.leads[lead.value], suppress)] else s.leads,
       jobs := if mirror then s.jobs + [Job(d.identifier.value, |s.messages|, 0)] else s.jobs,
       optOutStep := if suppress && lead.Some? && lead.value !in s.optOutStep
                     then s.optOutStep[lead.value := s.step] else s.optOutStep,
       evaluations := s.evaluations + [d.sid],
       mirrors := if mirror then s.mirrors + [d.sid] else s.mirrors)
  }

  function DeliveryEffects(cfg: Config, s: State, d: Delivery): State {
    match d
    case InboundDelivery(sid, _, _, _) =>
      if HasSid(s.messages, sid) then s else InboundEffects(cfg, s, d)
    case StatusDelivery(sid, status) =>
      if HasSid(s.messages, sid) then
        var i := IndexOfSid(s.messages, sid);
        s.(messages := s.messages[i := s.messages[i].(delivery := status)])
      else s.(messages := s.messages + [Stub(sid, status, s.now)])
  }

  function MirrorEvent(job: Job, accepted: string, now: int): Event {
    Event(accepted, job.identifier, if '@' in job.identifier then Email else Phone,
          EventLog.Text("opt_out"), EventLog.Text("salesforce_inbound_guardrail"), now)
  }

  /** One execution of a mirror job: the request may not arrive, and its answer may not be heard. */
  function JobEffects(cfg: Config, s: State, index: nat, arrives: bool, heard: bool): State
    requires index < |s.jobs|
  {
    var job := s.jobs[index];
    var accepted := cfg.accept(job.identifier);
    var appended := arrives && accepted.Some?;
    var aws := if appended then s.aws + [MirrorEvent(job, accepted.value, s.now)] else s.aws;
    var t := s.(aws := aws, executions := s.executions[job.message := s.executions[job.message] + 1]);
    if appended && heard then t.(jobs := WithoutAt(s.jobs, index))
    else if job.attempt + 1 < MAX_ATTEMPTS then t.(jobs := s.jobs[index := job.(attempt := job.attempt + 1)])
    else if job.message < |s.messages| then
      t.(jobs := WithoutAt(s.jobs, index),
         messages := s.messages[job.message := s.messages[job.message].(needsReview := true)])
    else t.(jobs := WithoutAt(s.jobs, index))
  }

  /**
   * An execution that throws, at its enqueue or its last update: what the request did stays done, the
   * job is gone and nothing is flagged.
   */
  function FailureEffects(cfg: Config, s: State, index: nat, arrives: bool): State
    requires index < |s.jobs|
  {
    var job := s.jobs[index];
    var accepted := cfg.accept(job.identifier);
    s.(aws := if arrives && accepted.Some? then s.aws + [MirrorEvent(job, accepted.value, s.now)] else s.aws,
       jobs := WithoutAt(s.jobs, index),
       executions := s.executions[job.message := s.executions[job.message] + 1],
       died := s.died + {job.message})
  }

  /** A lead created or edited by someone else, who may raise the opt-out flag and never lowers it. */
  function EditEffects(s: State, id: LeadId, phone: string, status: LeadStatus, createdAt: int, autoReplies: int,
                       optOut: bool): State
  {
    var flagged := id in s.leads && s.leads[id].optedOut;
    s.(leads := s.leads[id := Lead(phone, flagged || optOut, status, createdAt, autoReplies)],
       optOutStep := if optOut && !flagged && id !in s.optOutStep then s.optOutStep[id := s.step] else s.optOutStep)
  }

  // --- the transition relation ------------------------------------------------------------

  predicate AscendingIds(ids: seq<LeadId>) { forall i, j :: 0 <= i < j < |ids| ==> ids[i] < ids[j] }

  predicate Enabled(s: State, step: Step) {
    match step
    case OpenChunk(ids, _) => s.chunk.None? && AscendingIds(ids) && forall i :: 0 <= i < |ids| ==> ids[i] in s.leads
    case TakeTurn(_, _) => s.chunk.Some? && s.chunk.value.next < |s.chunk.value.rows|
    case CommitChunk => s.chunk.Some? && s.chunk.value.next == |s.chunk.value.rows|
    case RollBackChunk => s.chunk.Some?
    case ReceiveInbound(_, from, _, matched) => Matches(s.leads, NormalizePhone(from), matched)
    case CommitDelivery(index) => index < |s.inFlight|
    case AbortDelivery(index) => index < |s.inFlight|
    case RunJob(index, _, _) => index < |s.jobs|
    case FailJob(index, _) => index < |s.jobs|
    case _ => true
  }

  function Open(s: State, ids: seq<LeadId>, hasTemplate: bool, limit: int): Chunk
    requires forall i :: 0 <= i < |ids| ==> ids[i] in s.leads
  {
    Chunk(seq(|ids|, i requires 0 <= i < |ids| => Row(ids[i], s.leads[ids[i]])), 0, s.now, s.step,
          Budget(NumberOf(s.messages, OutboundSince(s.now - HOUR_SECONDS)), limit, hasTemplate),
          Progress([], []))
  }

  function TurnEffects(s: State, turn: Turn): State
    requires s.chunk.Some? && s.chunk.value.next < |s.chunk.value.rows|
  {
    var c := s.chunk.value;
    var row := c.rows[c.next];
    var progress := Advance(c.progress, row, turn, c.budget);
    s.(chunk := Some(c.(next := c.next + 1, progress := progress)),
       callouts := if |progress.attempts| > |c.progress.attempts|
                   then s.callouts + [Callout(row.id, turn.now, c.queryStep, s.step)] else s.callouts)
  }

  function RollBack(s: State): State
    requires s.chunk.Some?
  {
    s.(chunk := None, lost := s.lost + s.chunk.value.progress.attempts)
  }

  /** The commit inserts the whole log or nothing; on a collision the transaction rolls back. */
  function CommitEffects(s: State): State
    requires s.chunk.Some?
  {
    var attempts := s.chunk.value.progress.attempts;
    if Collides(s.messages, attempts) then RollBack(s)
    else s.(chunk := None,
            messages := s.messages + LogAll(attempts, s.now),
            leads := MarkContacted(s.leads, ContactedBy(attempts)))
  }

  function Effects(cfg: Config, s: State, step: Step): State
    requires Enabled(s, step)
  {
    match step
    case Wait(time) => s.(now := s.now + time)
    case EditLead(id, phone, status, createdAt, autoReplies, optOut) =>
      EditEffects(s, id, phone, status, createdAt, autoReplies, optOut)
    case OpenChunk(ids, hasTemplate) => s.(chunk := Some(Open(s, ids, hasTemplate, cfg.limit)))
    case TakeTurn(hour, reply) => TurnEffects(s, Turn(hour, s.now, reply))
    case CommitChunk => CommitEffects(s)
    case RollBackChunk => RollBack(s)
    case ReceiveInbound(sid, from, body, matched) =>
      if HasSid(s.messages, sid) then s.(answered := s.answered + {sid})
      else
        var m := if matched.Some? && matched.value in s.leads
                 then Some(Matched(matched.value, s.leads[matched.value].autoReplies)) else None;
        s.(inFlight := s.inFlight + [InboundDelivery(sid, NormalizePhone(from), body, m)])
    case ReceiveStatus(sid, status) => s.(inFlight := s.inFlight + [StatusDelivery(sid, status)])
    case CommitDelivery(index) =>
      var d := s.inFlight[index];
      DeliveryEffects(cfg, s, d).(inFlight := WithoutAt(s.inFlight, index), answered := s.answered + {d.sid})
    case AbortDelivery(index) => s.(inFlight := WithoutAt(s.inFlight, index))
    case RunJob(index, arrives, heard) => JobEffects(cfg, s, index, arrives, heard)
    case FailJob(index, arrives) => FailureEffects(cfg, s, index, arrives)
  }

  function Next(cfg: Config, s: State, step: Step): State {
    if Enabled(s, step) then Effects(cfg, s, step).(step := s.step + 1) else s
  }

  function Run(cfg: Config, s: State, steps: seq<Step>): State {
    if steps == [] then s else Next(cfg, Run(cfg, s, steps[..|steps| - 1]), steps[|steps| - 1])
  }

  lemma RunOn(cfg: Config, s: State, steps: seq<Step>, last: Step)
    ensures Run(cfg, s, steps + [last]) == Next(cfg, Run(cfg, s, steps), last)
  {
    assert (steps + [last])[..|steps|] == steps;
  }

  /** Any leads and any clock, nothing sent, received or queued yet. */
  predicate Initial(s: State) {
    s == State(s.now, 0, s.leads, [], [], [], None, [], [], [], map[], {}, [], [], multiset{}, {})
  }
}
