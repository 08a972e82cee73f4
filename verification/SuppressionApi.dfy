/**
 * The AWS end of the opt-out mirror (suppression/api.py): one request, at most one event appended,
 * and an answer the caller can act on.
 */
module SuppressionApi {
  import opened Common
  import opened EventLog
  import opened SuppressionStore
  import OrgProtocol

  /** The request body, its fields as JSON values; absent and empty bodies read as an object without fields. */
  datatype Body = NotJson | NotAnObject | Object(fields: map<string, Value>)

  /** 200, 400, or an exception that leaves the handler. */
  datatype Outcome = Accepted | Rejected | Raised

  type Parse = string -> Option<Timestamp>

  /** The contact a body opts out, if the handler takes it. */
  function Event200(norm: Normalizer, parse: Parse, body: Body): Result<Event, Outcome> {
    if body.NotJson? then Err(Rejected)
    else if body.NotAnObject? then Err(Raised)
    else if "occurred_at" !in body.fields then Err(Rejected)
    else if body.fields["occurred_at"].Json? then Err(Raised)
    else
      var time := parse(body.fields["occurred_at"].text);
      if time.None? || !time.value.aware then Err(Rejected)
      else if "identifier" !in body.fields || "reason" !in body.fields || "source" !in body.fields then Err(Rejected)
      else if body.fields["identifier"].Json? then Err(Raised)
      else
        match ToEvent(norm, body.fields["identifier"].text, body.fields["reason"], body.fields["source"], time.value)
        case Err(_) => Err(Rejected)
        case Ok(event) => Ok(event)
  }

  function AcceptedIdentifier(norm: Normalizer, identifier: string): Option<string> {
    if '@' in identifier then norm.email(identifier) else norm.phone(identifier)
  }

  predicate HasText(body: Body, name: string) { body.Object? && name in body.fields && body.fields[name].Text? }

  /**
   * 200 exactly for a complete request, dated with an offset, on an identifier that normalizes; reason
   * and source are kept as sent, whatever JSON values they are.
   */
  lemma AcceptedIff(norm: Normalizer, parse: Parse, body: Body)
    ensures Event200(norm, parse, body).Ok? <==>
            && HasText(body, "occurred_at") && HasText(body, "identifier")
            && "reason" in body.fields && "source" in body.fields
            && parse(body.fields["occurred_at"].text).Some? && parse(body.fields["occurred_at"].text).value.aware
            && AcceptedIdentifier(norm, body.fields["identifier"].text).Some?
    ensures Event200(norm, parse, body).Ok? ==>
              var event := Event200(norm, parse, body).value;
              && Some(event.identifier) == AcceptedIdentifier(norm, body.fields["identifier"].text)
              && event.reason == body.fields["reason"] && event.source == body.fields["source"]
  {
  }

  predicate HasJson(body: Body, name: string) { body.Object? && name in body.fields && body.fields[name].Json? }

  /**
   * An exception leaves the handler exactly for a body that is no object, a time that is no text, or an
   * identifier that is no text in a request otherwise complete; every other refusal is a 400.
   */
  lemma RaisedIff(norm: Normalizer, parse: Parse, body: Body)
    ensures Event200(norm, parse, body) == Err(Raised) <==>
            || body.NotAnObject? || HasJson(body, "occurred_at")
            || (&& HasText(body, "occurred_at") && HasJson(body, "identifier")
                && "reason" in body.fields && "source" in body.fields
                && parse(body.fields["occurred_at"].text).Some? && parse(body.fields["occurred_at"].text).value.aware)
    ensures Event200(norm, parse, body).Err? ==> Event200(norm, parse, body).error in [Raised, Rejected]
  {
  }

  /** The handler: nothing is written unless the answer is 200, and then exactly one event. */
  method Handle(log: Log, norm: Normalizer, parse: Parse, body: Body, key: Key) returns (outcome: Outcome)
    requires log.Valid() && key !in log.objects && 0 <= key < KEY_SPACE
    modifies log
    ensures log.Valid() && Grows(old(log.View()), log.View())
    ensures match Event200(norm, parse, body)
            case Ok(event) => outcome == Accepted && log.View() == Appended(old(log.View()), key, event)
            case Err(refusal) => outcome == refusal && log.View() == old(log.View())
  {
    WaitingGrows(log.View(), 0);
    if body.NotJson? {
      return Rejected;
    }
    if body.NotAnObject? {
      return Raised;
    }
    if "occurred_at" !in body.fields {
      return Rejected;
    }
    if body.fields["occurred_at"].Json? {
      return Raised;
    }
    var occurredAt := parse(body.fields["occurred_at"].text);
    if occurredAt.None? || !occurredAt.value.aware {
      return Rejected;
    }
    var store := new Store(log, norm);
    if "identifier" !in body.fields || "reason" !in body.fields || "source" !in body.fields {
      return Rejected;
    }
    if body.fields["identifier"].Json? {
      return Raised;
    }
    var added := store.AddSuppression(body.fields["identifier"].text, body.fields["reason"],
                                      body.fields["source"], occurredAt.value, key);
    return if added.Ok? then Accepted else Rejected;
  }

  /** What a mirror job sends: every field, its clock formatted with a "+00:00" offset. */
  function MirrorBody(job: OrgProtocol.Job, time: string): Body {
    Object(map["identifier" := Text(job.identifier), "reason" := Text("opt_out"),
               "source" := Text("salesforce_inbound_guardrail"), "occurred_at" := Text(time)])
  }

  /**
   * The transition system's mirror is this handler: with `accept` as the handler's normalization, a
   * job's request is answered 200 exactly when the system appends, and appends the same event.
   */
  lemma MirrorMatchesTheProtocol(norm: Normalizer, parse: Parse, job: OrgProtocol.Job, time: string, now: int)
    requires parse(time) == Some(Timestamp(now, true))
    ensures Event200(norm, parse, MirrorBody(job, time)).Ok? <==> AcceptedIdentifier(norm, job.identifier).Some?
    ensures AcceptedIdentifier(norm, job.identifier).Some? ==>
              Event200(norm, parse, MirrorBody(job, time))
              == Ok(OrgProtocol.MirrorEvent(job, AcceptedIdentifier(norm, job.identifier).value, now))
  {
    assert MirrorBody(job, time).fields["occurred_at"].text == time;
  }

  /**
   * From the 200 on: once the staleness bound has passed, every reader on the log, however warm its
   * cache and whatever others append meanwhile, reports a contact with that identifier.
   */
  method AnsweredThenReported(log: Log, norm: Normalizer, parse: Parse, body: Body, key: Key, wait: nat,
                              reader: Store, phone: Option<string>, email: Option<string>)
    returns (outcome: Outcome, answer: Result<SuppressionResult, StoreError>)
    requires log.Valid() && key !in log.objects && 0 <= key < KEY_SPACE
    requires reader.Valid() && reader.log == log && wait >= 30
    modifies log, reader
    ensures outcome == Accepted ==> Event200(norm, parse, body).Ok?
    ensures outcome == Accepted && answer.Ok?
            && Names(reader.norm, phone, email, Event200(norm, parse, body).value.identifier)
            ==> answer.value.suppressed
  {
    ghost var start := log.View();
    outcome := Handle(log, norm, parse, body, key);
    ghost var logged := log.View();
    log.Wait(wait);
    GrowsTransitive(start, logged, log.View());
    ghost var waited := log.View();
    log.Others();
    GrowsTransitive(logged, waited, log.View());
    GrowsTransitive(start, logged, log.View());
    GrowthKeepsRefinement(reader.cache, reader.loadedAt, reader.seen, reader.own, start, log.View());
    ghost var v := log.View();
    answer := reader.IsSuppressed(phone, email);
    if outcome == Accepted {
      assert Kept(logged, v, key) && logged.now + wait <= v.now;
      assert OldEnough(v, key);
    }
  }
}
