/**
 * The Apex handlers statement by statement: records inserted, read back and updated one after
 * another. Each method ends in the state its transition in `OrgProtocol` names, so what is proved of
 * every run of the transition system holds of these bodies.
 */
module OrgHandlers {
  import opened Common
  import opened SendService
  import opened EventLog
  import opened OrgProtocol
  import Guardrails

  lemma {:induction false} LogAllOneMore(attempts: seq<Attempt>, n: nat, now: int)
    requires n < |attempts|
    ensures LogAll(attempts[..n + 1], now) == LogAll(attempts[..n], now) + [LogOf(attempts[n], now)]
    ensures attempts[..n + 1] == attempts[..n] + [attempts[n]]
  {
  }

  lemma SidInLog(ms: seq<Message>, attempts: seq<Attempt>, n: nat, now: int, sid: Sid)
    requires n <= |attempts|
    ensures HasSid(ms + LogAll(attempts[..n], now), sid) <==>
            HasSid(ms, sid) || exists i :: 0 <= i < n && attempts[i].sid == Some(sid)
  {
    var all := ms + LogAll(attempts[..n], now);
    if HasSid(ms, sid) {
      var i :| 0 <= i < |ms| && ms[i].sid == Some(sid);
      assert all[i].sid == Some(sid);
    }
    forall i | 0 <= i < n && attempts[i].sid == Some(sid) ensures HasSid(all, sid) {
      assert all[|ms| + i].sid == Some(sid);
    }
    if HasSid(all, sid) {
      var i :| 0 <= i < |all| && all[i].sid == Some(sid);
      assert i < |ms| ==> ms[i].sid == Some(sid);
      assert i >= |ms| ==> attempts[i - |ms|].sid == Some(sid);
    }
  }

  /** A duplicate met while inserting is what makes the batch collide, and nothing else does. */
  lemma InsertRefusedIffTaken(ms: seq<Message>, attempts: seq<Attempt>, n: nat, now: int)
    requires n < |attempts| && !Collides(ms, attempts[..n])
    ensures Collides(ms, attempts[..n + 1]) <==>
            attempts[n].sid.Some? && HasSid(ms + LogAll(attempts[..n], now), attempts[n].sid.value)
  {
    if attempts[n].sid.Some? {
      SidInLog(ms, attempts, n, now, attempts[n].sid.value);
    }
    assert attempts[..n + 1][n] == attempts[n];
    assert forall i :: 0 <= i < n ==> attempts[..n + 1][i] == attempts[..n][i];
  }

  lemma CollisionSpreads(ms: seq<Message>, attempts: seq<Attempt>, n: nat)
    requires n <= |attempts| && Collides(ms, attempts[..n])
    ensures Collides(ms, attempts)
  {
    var some := attempts[..n];
    if i :| 0 <= i < |some| && some[i].sid.Some? && HasSid(ms, some[i].sid.value) {
      assert attempts[i].sid.Some? && HasSid(ms, attempts[i].sid.value);
    } else {
      var i, j :| 0 <= i < j < |some| && some[i].sid.Some? && some[i].sid == some[j].sid;
      assert attempts[i].sid.Some? && attempts[i].sid == attempts[j].sid;
    }
  }

  lemma MarkOneMore(leads: map<LeadId, Lead>, contacted: seq<LeadId>, n: nat)
    requires n < |contacted|
    ensures MarkContacted(leads, contacted[..n + 1]) ==
            var m := MarkContacted(leads, contacted[..n]);
            if contacted[n] in m then m[contacted[n] := m[contacted[n]].(status := Contacted)] else m
  {
    assert contacted[..n + 1] == contacted[..n] + [contacted[n]];
  }

  /** `insert attemptLog`: row by row against the unique index, all or none. */
  method InsertLog(messages: seq<Message>, attempts: seq<Attempt>, now: int) returns (r: Option<seq<Message>>)
    ensures r == if Collides(messages, attempts) then None else Some(messages + LogAll(attempts, now))
  {
    var inserted := messages;
    for i := 0 to |attempts|
      invariant inserted == messages + LogAll(attempts[..i], now)
      invariant !Collides(messages, attempts[..i])
    {
      LogAllOneMore(attempts, i, now);
      InsertRefusedIffTaken(messages, attempts, i, now);
      if attempts[i].sid.Some? && HasSid(inserted, attempts[i].sid.value) {
        CollisionSpreads(messages, attempts, i + 1);
        return None;
      }
      inserted := inserted + [LogOf(attempts[i], now)];
    }
    assert attempts[..|attempts|] == attempts;
    return Some(inserted);
  }

  class Org {
    const cfg: Config
    var now: int
    var leads: map<LeadId, Lead>
    var messages: seq<Message>
    var jobs: seq<Job>
    var aws: seq<Event>
    ghost var rest: State

    /** The transition system's state: these tables, and the history beside them. */
    ghost function View(): State
      reads this
    {
      rest.(now := now, leads := leads, messages := messages, jobs := jobs, aws := aws)
    }

    constructor (cfg: Config, s: State)
      ensures View() == s && this.cfg == cfg
    {
      this.cfg := cfg;
      now, leads, messages, jobs, aws, rest := s.now, s.leads, s.messages, s.jobs, s.aws, s;
    }

    /** handleInbound from its insert on; a lost race for the unique id ends it there. */
    method HandleInbound(d: Delivery)
      requires d.InboundDelivery?
      modifies this
      ensures View() == DeliveryEffects(cfg, old(View()), d)
    {
      if HasSid(messages, d.sid) {
        return;
      }
      var id := |messages|;
      messages := messages + [Message(Some(d.sid), Inbound, now, None, None, d.identifier, false, "received")];
      var priorAutoReplies := if d.matched.None? then 0 else d.matched.value.autoReplies;
      var verdict := cfg.judge(d.body, priorAutoReplies);
      rest := rest.(evaluations := rest.evaluations + [d.sid]);
      var suppress := verdict == Guardrails.SuppressAndStop;
      var message := messages[id].(verdict := Some(verdict));
      if verdict == Guardrails.HumanReview {
        message := message.(needsReview := true);
      }
      if suppress && d.identifier.None? {
        message := message.(needsReview := true);
      }
      messages := messages[id := message];
      if d.matched.Some? && d.matched.value.lead in leads {
        var lead := leads[d.matched.value.lead];
        lead := lead.(status := if suppress then Suppressed else Replied);
        if suppress {
          lead := lead.(optedOut := true);
          if d.matched.value.lead !in rest.optOutStep {
            rest := rest.(optOutStep := rest.optOutStep[d.matched.value.lead := rest.step]);
          }
        }
        leads := leads[d.matched.value.lead := lead];
      }
      if suppress && d.identifier.Some? {
        jobs := jobs + [Job(d.identifier.value, id, 0)];
        rest := rest.(mirrors := rest.mirrors + [d.sid]);
      }
    }

    /** handleStatus: update the record, or insert a stub; a lost race updates the winner. */
    method HandleStatus(d: Delivery)
      requires d.StatusDelivery?
      modifies this
      ensures View() == DeliveryEffects(cfg, old(View()), d)
    {
      if HasSid(messages, d.sid) {
        var i := IndexOfSid(messages, d.sid);
        messages := messages[i := messages[i].(delivery := d.status)];
      } else {
        messages := messages + [Message(Some(d.sid), Outbound, now, None, None, None, false, d.status)];
      }
    }

    /**
     * One execution of the queued mirror: done, re-enqueued with a higher attempt, or flagged. If the
     * enqueue or the update `throws`, the platform drops the job and keeps only what the request did.
     */
    method ExecuteMirror(index: nat, arrives: bool, heard: bool, throws: bool)
      requires index < |jobs|
      modifies this
      ensures View() == if throws && !(arrives && heard && cfg.accept(old(jobs)[index].identifier).Some?)
                        then FailureEffects(cfg, old(View()), index, arrives)
                        else JobEffects(cfg, old(View()), index, arrives, heard)
    {
      var job := jobs[index];
      rest := rest.(executions := rest.executions[job.message := rest.executions[job.message] + 1]);
      var status := -1;
      if arrives {
        var accepted := cfg.accept(job.identifier);
        if accepted.Some? {
          aws := aws + [MirrorEvent(job, accepted.value, now)];
        }
        if heard {
          status := if accepted.Some? then 200 else 400;
        }
      }
      if 200 <= status < 300 {
        jobs := WithoutAt(jobs, index);
        return;
      }
      if throws {
        jobs := WithoutAt(jobs, index);
        rest := rest.(died := rest.died + {job.message});
        return;
      }
      if job.attempt + 1 < MAX_ATTEMPTS {
        jobs := jobs[index := job.(attempt := job.attempt + 1)];
        return;
      }
      jobs := WithoutAt(jobs, index);
      if job.message < |messages| {
        messages := messages[job.message := messages[job.message].(needsReview := true)];
      }
    }

    /** The end of sendBatch: the attempt log, then the contacted leads; a refused insert undoes both. */
    method CommitSend(attemptLog: seq<Attempt>, contactedLeads: seq<LeadId>)
      requires rest.chunk.Some? && attemptLog == rest.chunk.value.progress.attempts
      requires contactedLeads == ContactedBy(attemptLog)
      modifies this
      ensures View() == CommitEffects(old(View()))
    {
      var inserted := InsertLog(messages, attemptLog, now);
      if inserted.None? {
        rest := rest.(chunk := None, lost := rest.lost + attemptLog);
        return;
      }
      messages := inserted.value;
      ghost var before := leads;
      for n := 0 to |contactedLeads|
        invariant leads == MarkContacted(before, contactedLeads[..n])
        invariant messages == old(messages) + LogAll(attemptLog, now)
        invariant now == old(now) && jobs == old(jobs) && aws == old(aws) && rest == old(rest)
      {
        MarkOneMore(before, contactedLeads, n);
        if contactedLeads[n] in leads {
          leads := leads[contactedLeads[n] := leads[contactedLeads[n]].(status := Contacted)];
        }
      }
      assert contactedLeads[..|contactedLeads|] == contactedLeads;
      rest := rest.(chunk := None);
    }
  }
}
