/**
 * The suppression store (suppression/store.py): a cache over the shared event log, reloaded when
 * it is older than the staleness bound, merged with the store's own writes.
 */
module SuppressionStore {
  import opened Common
  import opened EventLog
  import opened OptOutSet

  /** Seconds; below the 60-second compliance bound. */
  const REFRESH_TTL := 30

  /** The shared identifier normalization, supplied from outside this component. */
  datatype Normalizer = Normalizer(phone: string -> Option<string>, email: string -> Option<string>)

  datatype Timestamp = Timestamp(instant: int, aware: bool)

  datatype StoreError = NaiveTimestamp | CannotNormalize(raw: string) | NoIdentifier

  datatype SuppressionResult = SuppressionResult(suppressed: bool, matches: seq<Match>, indeterminate: seq<string>)

  // --- the answer to a check -----------------------------------------------------

  function Hits(cache: Cache, normalized: Option<string>): seq<Match> {
    if normalized.Some? && normalized.value in cache then [cache[normalized.value]] else []
  }

  function Unreadable(raw: string, normalized: Option<string>): seq<string> {
    if normalized.None? then [raw] else []
  }

  function Answer(cache: Cache, norm: Normalizer, phone: Option<string>, email: Option<string>): SuppressionResult {
    var byPhone := if phone.Some? then Hits(cache, norm.phone(phone.value)) else [];
    var byEmail := if email.Some? then Hits(cache, norm.email(email.value)) else [];
    var badPhone := if phone.Some? then Unreadable(phone.value, norm.phone(phone.value)) else [];
    var badEmail := if email.Some? then Unreadable(email.value, norm.email(email.value)) else [];
    SuppressionResult(byPhone + byEmail != [] || badPhone + badEmail != [], byPhone + byEmail, badPhone + badEmail)
  }

  /** The contact is known under `id` on either channel. */
  predicate Names(norm: Normalizer, phone: Option<string>, email: Option<string>, id: string) {
    || (phone.Some? && norm.phone(phone.value) == Some(id))
    || (email.Some? && norm.email(email.value) == Some(id))
  }

  /** Fail closed, and across channels: any hit or any unreadable identifier suppresses. */
  lemma AnswerMeaning(cache: Cache, norm: Normalizer, phone: Option<string>, email: Option<string>)
    ensures Answer(cache, norm, phone, email).suppressed <==>
            || (exists id :: id in cache && Names(norm, phone, email, id))
            || (phone.Some? && norm.phone(phone.value).None?)
            || (email.Some? && norm.email(email.value).None?)
  {
    if phone.Some? && norm.phone(phone.value).Some? && norm.phone(phone.value).value in cache {
      assert Names(norm, phone, email, norm.phone(phone.value).value);
    }
    if email.Some? && norm.email(email.value).Some? && norm.email(email.value).value in cache {
      assert Names(norm, phone, email, norm.email(email.value).value);
    }
  }

  // --- what the cache knows of the log ----------------------------------------------

  ghost function EventsAt(objects: map<Key, Event>, keys: set<Key>): set<Event> {
    set k | k in keys && k in objects :: objects[k]
  }

  /**
   * The cache is exactly the opt-out set of the events it has seen: every event put before the
   * load was stamped, and everything this store wrote itself.
   */
  ghost predicate Refines(cache: Cache, loadedAt: Option<int>, seen: set<Key>, own: set<Key>, v: LogView) {
    && WellFormed(v)
    && own <= seen <= v.objects.Keys
    && EarliestOf(cache, EventsAt(v.objects, seen))
    && (loadedAt.Some? ==>
          && loadedAt.value <= v.now
          && forall k {:trigger PutBefore(v, k, loadedAt.value)} :: PutBefore(v, k, loadedAt.value) ==> k in seen)
  }

  predicate PutBefore(v: LogView, k: Key, time: int) { k in v.putAt && v.putAt[k] < time }

  /** Another process's appends never spoil a store: any number of stores can share the log. */
  lemma GrowthKeepsRefinement(cache: Cache, loadedAt: Option<int>, seen: set<Key>, own: set<Key>, v: LogView,
                              w: LogView)
    requires Refines(cache, loadedAt, seen, own, v) && WellFormed(w) && Grows(v, w)
    ensures Refines(cache, loadedAt, seen, own, w)
  {
    GrowsKeepsKeys(v, w);
    forall k | k in seen ensures v.objects[k] == w.objects[k] { assert Kept(v, w, k); }
    assert EventsAt(v.objects, seen) == EventsAt(w.objects, seen);
    forall k | loadedAt.Some? && PutBefore(w, k, loadedAt.value) ensures k in seen {
      assert Kept(v, w, k) && PutBefore(v, k, loadedAt.value);
    }
  }

  /** Put at least the staleness bound ago. */
  ghost predicate OldEnough(v: LogView, k: Key) {
    k in v.objects && k in v.putAt && v.putAt[k] + 30 <= v.now
  }

  ghost predicate Loaded(keys: seq<Key>, events: seq<Event>, objects: map<Key, Event>) {
    && |keys| == |events| && Ascending(keys)
    && forall i :: 0 <= i < |keys| ==> keys[i] in objects && objects[keys[i]] == events[i]
  }

  ghost function KeySet(keys: seq<Key>): set<Key> { set k | k in keys }

  lemma LoadedEvents(keys: seq<Key>, events: seq<Event>, objects: map<Key, Event>)
    requires Loaded(keys, events, objects)
    ensures EventsAt(objects, KeySet(keys)) == Elements(events)
    ensures KeySet(keys) <= objects.Keys
  {
    forall e | e in Elements(events) ensures e in EventsAt(objects, KeySet(keys)) {
      var i :| 0 <= i < |events| && events[i] == e;
      assert keys[i] in KeySet(keys);
    }
  }

  /** The part of the listing still ahead: keys above the token, all of them before the first page. */
  ghost predicate CoversUpTo(keys: seq<Key>, token: Option<Key>, initial: set<Key>) {
    forall k :: k in initial ==> k in keys || token.None? || token.value < k
  }

  /** The event an opt-out becomes, or why it needs a human. */
  function ToEvent(norm: Normalizer, identifier: string, reason: Value, source: Value, occurredAt: Timestamp)
    : Result<Event, StoreError>
  {
    var kind := if '@' in identifier then Email else Phone;
    var normalized := if kind == Email then norm.email(identifier) else norm.phone(identifier);
    if !occurredAt.aware then Err(NaiveTimestamp)
    else if normalized.None? then Err(CannotNormalize(identifier))
    else Ok(Event(normalized.value, identifier, kind, reason, source, occurredAt.instant))
  }

  /** Appending an event and merging it keeps the cache exact. */
  lemma AppendKeepsRefinement(cache: Cache, loadedAt: Option<int>, seen: set<Key>, own: set<Key>, v: LogView,
                              key: Key, event: Event)
    requires Refines(cache, loadedAt, seen, own, v) && key !in v.objects && 0 <= key < KEY_SPACE
    ensures Refines(Merge(cache, ToMatch(event)), loadedAt, seen + {key}, own + {key}, Appended(v, key, event))
  {
    MergeKeepsEarliest(cache, EventsAt(v.objects, seen), event);
    assert EventsAt(v.objects[key := event], seen + {key}) == EventsAt(v.objects, seen) + {event};
    AppendingGrows(v, key, event);
    forall k | loadedAt.Some? && PutBefore(Appended(v, key, event), k, loadedAt.value) ensures k in seen {
      assert k == key || PutBefore(v, k, loadedAt.value);
    }
  }

  lemma LoadedUnderGrowth(keys: seq<Key>, events: seq<Event>, v: LogView, w: LogView)
    requires Loaded(keys, events, v.objects) && Grows(v, w)
    ensures Loaded(keys, events, w.objects)
  {
    forall i | 0 <= i < |keys| ensures Kept(v, w, keys[i]) {}
  }

  lemma KeptUnderGrowth(k: Key, v: LogView, w: LogView)
    requires Grows(v, w) && k in v.objects
    ensures k in w.objects && w.objects[k] == v.objects[k]
  {
    assert Kept(v, w, k);
  }

  /** A load that began at `start` knows everything put before that moment. */
  lemma FreshLoadRefines(start: LogView, v: LogView, keys: seq<Key>, events: seq<Event>, seen: set<Key>, own: set<Key>)
    requires WellFormed(start) && WellFormed(v) && Grows(start, v) && Loaded(keys, events, v.objects)
    requires forall k :: k in start.objects.Keys ==> k in keys
    requires own <= seen <= start.objects.Keys
    ensures Refines(CurrentSet(events), Some(start.now), KeySet(keys), own, v)
    ensures seen <= KeySet(keys)
    ensures start.objects.Keys <= KeySet(keys)
  {
    CurrentSetIsEarliest(events);
    LoadedEvents(keys, events, v.objects);
    forall k | k in start.objects.Keys ensures k in KeySet(keys) {
    }
    forall k | PutBefore(v, k, start.now) ensures k in KeySet(keys) {
      assert Kept(start, v, k) && k in start.objects.Keys;
    }
  }

  /** The bodies fetched for a page are the objects under its keys. */
  ghost predicate Bodies(page: seq<Key>, events: seq<Event>, v: LogView) {
    && |events| == |page|
    && forall i :: 0 <= i < |page| ==> page[i] in v.objects && v.objects[page[i]] == events[i]
  }

  lemma BodiesUnderGrowth(page: seq<Key>, events: seq<Event>, v: LogView, w: LogView)
    requires Bodies(page, events, v) && Grows(v, w)
    ensures Bodies(page, events, w)
  {
    forall i | 0 <= i < |page| ensures Kept(v, w, page[i]) {}
  }

  /** The token is the last key gathered; before the first page there is neither. */
  predicate EndsAt(keys: seq<Key>, token: Option<Key>) {
    if token.Some? then |keys| > 0 && keys[|keys| - 1] == token.value else keys == []
  }

  /** One page taken onto what was gathered so far. */
  lemma AppendPage(keys: seq<Key>, events: seq<Event>, page: seq<Key>, bodies: seq<Event>,
                   token: Option<Key>, next: Option<Key>, listing: seq<Key>, v: LogView)
    requires Loaded(keys, events, v.objects) && PageOf(page, next, token, listing)
    requires Bodies(page, bodies, v) && EndsAt(keys, token)
    ensures Loaded(keys + page, events + bodies, v.objects)
    ensures next.Some? ==> EndsAt(keys + page, next)
  {
    forall i | 0 <= i < |page| && keys != [] ensures keys[|keys| - 1] < page[i] { assert page[i] in page; }
  }

  lemma AppendPageCovers(keys: seq<Key>, page: seq<Key>, token: Option<Key>, next: Option<Key>,
                         listing: seq<Key>, initial: set<Key>)
    requires PageOf(page, next, token, listing) && CoversUpTo(keys, token, initial)
    requires forall k :: k in initial ==> k in listing
    ensures if next.Some? then CoversUpTo(keys + page, next, initial)
            else forall k :: k in initial ==> k in keys + page
  {
  }

  // --- what an answer says of the events ---------------------------------------------

  /** The entry of an event: what it says, without the text it came in. */
  predicate EntryOf(m: Match, e: Event) {
    && m.identifier == e.identifier && m.kind == e.kind && m.reason == e.reason && m.source == e.source
    && m.occurredAt == e.occurredAt
  }

  /** The event under `k` is a seen one of this identifier, and none seen is earlier. */
  ghost predicate EarliestSeen(objects: map<Key, Event>, seen: set<Key>, id: string, k: Key) {
    && k in seen && k in objects && objects[k].identifier == id
    && forall j :: j in seen && j in objects && objects[j].identifier == id ==>
         objects[k].occurredAt <= objects[j].occurredAt
  }

  ghost predicate SeenUnder(objects: map<Key, Event>, seen: set<Key>, id: string) {
    exists k :: k in seen && k in objects && objects[k].identifier == id
  }

  /** What one channel adds to the matches: the earliest seen event of its identifier, if there is one. */
  ghost predicate Reports(matches: seq<Match>, id: Option<string>, objects: map<Key, Event>, seen: set<Key>) {
    if id.Some? && SeenUnder(objects, seen, id.value)
    then |matches| == 1 && exists k :: EarliestSeen(objects, seen, id.value, k) && EntryOf(matches[0], objects[k])
    else matches == []
  }

  function IdentifierOf(normalize: string -> Option<string>, raw: Option<string>): Option<string> {
    if raw.Some? then normalize(raw.value) else None
  }

  /** The matches, phone first, and the identifiers nobody could read, phone first. */
  ghost predicate Answers(r: SuppressionResult, norm: Normalizer, phone: Option<string>, email: Option<string>,
                          objects: map<Key, Event>, seen: set<Key>)
  {
    && (exists a, b :: r.matches == a + b && Reports(a, IdentifierOf(norm.phone, phone), objects, seen)
                       && Reports(b, IdentifierOf(norm.email, email), objects, seen))
    && r.indeterminate == (if phone.Some? && norm.phone(phone.value) == None then [phone.value] else [])
                          + (if email.Some? && norm.email(email.value) == None then [email.value] else [])
  }

  lemma HitsReport(cache: Cache, id: Option<string>, objects: map<Key, Event>, seen: set<Key>)
    requires seen <= objects.Keys && EarliestOf(cache, EventsAt(objects, seen))
    ensures Reports(Hits(cache, id), id, objects, seen)
  {
    if id.Some? {
      forall k | k in seen && objects[k].identifier == id.value
        ensures id.value in cache && cache[id.value].occurredAt <= objects[k].occurredAt
      {
        assert objects[k] in EventsAt(objects, seen) && Covered(cache, objects[k]);
      }
      if id.value in cache {
        assert Backed(cache, EventsAt(objects, seen), id.value);
        var k :| && k in seen && k in objects && objects[k].identifier == id.value
                 && ToMatch(objects[k]) == cache[id.value];
        assert EarliestSeen(objects, seen, id.value, k) && EntryOf(cache[id.value], objects[k]);
      }
    }
  }

  /** A cache answers with the events it has seen: which ones, in which order, and what it could not read. */
  lemma AnswerTells(cache: Cache, norm: Normalizer, phone: Option<string>, email: Option<string>,
                    objects: map<Key, Event>, seen: set<Key>)
    requires seen <= objects.Keys && EarliestOf(cache, EventsAt(objects, seen))
    ensures Answers(Answer(cache, norm, phone, email), norm, phone, email, objects, seen)
  {
    var p, e := IdentifierOf(norm.phone, phone), IdentifierOf(norm.email, email);
    HitsReport(cache, p, objects, seen);
    HitsReport(cache, e, objects, seen);
    assert Answer(cache, norm, phone, email).matches == Hits(cache, p) + Hits(cache, e);
  }

  /** The event an opt-out becomes: the identifier normalized by the rules of its kind, text and time as given. */
  lemma EventTells(norm: Normalizer, identifier: string, reason: Value, source: Value, occurredAt: Timestamp)
    ensures match ToEvent(norm, identifier, reason, source, occurredAt)
            case Ok(e) =>
              && occurredAt.aware && e.raw == identifier && e.reason == reason && e.source == source
              && e.occurredAt == occurredAt.instant
              && if '@' in identifier then e.kind == Email && norm.email(identifier) == Some(e.identifier)
                 else e.kind == Phone && norm.phone(identifier) == Some(e.identifier)
            case Err(NaiveTimestamp) => !occurredAt.aware
            case Err(CannotNormalize(raw)) =>
              && occurredAt.aware && raw == identifier
              && (if '@' in identifier then norm.email(identifier) else norm.phone(identifier)) == None
            case Err(NoIdentifier) => false
  {
  }

  class Store {
    const log: Log
    const norm: Normalizer
    var cache: Cache
    var loadedAt: Option<int>
    ghost var seen: set<Key>
    ghost var own: set<Key>

    ghost predicate Valid()
      reads this, log
    {
      log.Valid() && Refines(cache, loadedAt, seen, own, log.View())
    }

    constructor (log: Log, norm: Normalizer)
      requires log.Valid()
      ensures Valid() && this.log == log && this.norm == norm
      ensures cache == map[] && loadedAt == None && own == {}
    {
      this.log := log;
      this.norm := norm;
      this.cache := map[];
      this.loadedAt := None;
      this.seen := {};
      this.own := {};
    }

    /** While this store's user is busy elsewhere: others append, time passes, the cache stays what it was. */
    method Meanwhile()
      requires Valid()
      modifies log
      ensures Valid() && Grows(old(log.View()), log.View())
    {
      ghost var before := log.View();
      log.Others();
      GrowthKeepsRefinement(cache, loadedAt, seen, own, before, log.View());
    }

    /** Append an opt-out under a fresh event key, or refuse and change nothing. */
    method AddSuppression(identifier: string, reason: Value, source: Value, occurredAt: Timestamp, key: Key)
      returns (r: Result<Event, StoreError>)
      requires Valid() && key !in log.objects && 0 <= key < KEY_SPACE
      modifies this, log
      ensures Valid() && Grows(old(log.View()), log.View())
      ensures r == ToEvent(norm, identifier, reason, source, occurredAt)
      ensures loadedAt == old(loadedAt)
      ensures r.Ok? ==> log.View() == Appended(old(log.View()), key, r.value)
      ensures r.Ok? ==> cache == Merge(old(cache), ToMatch(r.value))
      ensures r.Ok? ==> seen == old(seen) + {key} && own == old(own) + {key}
      ensures r.Err? ==> log.View() == old(log.View()) && cache == old(cache) && seen == old(seen) && own == old(own)
    {
      if !occurredAt.aware {
        return Err(NaiveTimestamp);
      }
      var kind := if '@' in identifier then Email else Phone;
      var normalized := if kind == Email then norm.email(identifier) else norm.phone(identifier);
      if normalized.None? {
        return Err(CannotNormalize(identifier));
      }
      var event := Event(normalized.value, identifier, kind, reason, source, occurredAt.instant);
      AppendKeepsRefinement(cache, loadedAt, seen, own, log.View(), key, event);
      log.Put(key, event);
      var m := ToMatch(event);
      if m.identifier !in cache || m.occurredAt < cache[m.identifier].occurredAt {
        cache := cache[m.identifier := m];
      }
      seen, own := seen + {key}, own + {key};
      return Ok(event);
    }

    /** Fetch the bodies of one page; objects are immutable, so appends meanwhile do not matter. */
    method FetchPage(page: seq<Key>) returns (events: seq<Event>)
      requires log.Valid() && forall j :: 0 <= j < |page| ==> page[j] in log.objects
      modifies log
      ensures log.Valid() && Grows(old(log.View()), log.View())
      ensures Bodies(page, events, log.View())
    {
      ghost var start := log.View();
      events := [];
      for i := 0 to |page|
        invariant log.Valid() && Grows(start, log.View())
        invariant Bodies(page[..i], events, log.View())
      {
        ghost var before := log.View();
        log.Others();
        GrowsTransitive(start, before, log.View());
        BodiesUnderGrowth(page[..i], events, before, log.View());
        KeptUnderGrowth(page[i], start, log.View());
        events := events + [log.objects[page[i]]];
        assert page[..i + 1] == page[..i] + [page[i]];
      }
      assert page[..|page|] == page;
    }

    /** One turn of the token loop: list a page, fetch it, and report the token to go on from. */
    method NextPage(token: Option<Key>, ghost keys: seq<Key>, ghost events: seq<Event>, ghost initial: set<Key>)
      returns (page: seq<Key>, bodies: seq<Event>, next: Option<Key>)
      requires log.Valid() && Loaded(keys, events, log.objects) && EndsAt(keys, token)
      requires token.Some? ==> token.value in log.objects
      requires initial <= log.objects.Keys && CoversUpTo(keys, token, initial)
      modifies log
      ensures log.Valid() && Grows(old(log.View()), log.View())
      ensures Loaded(keys + page, events + bodies, log.objects)
      ensures next.Some? ==> EndsAt(keys + page, next) && next.value in log.objects
      ensures next.Some? ==> 0 <= next.value < KEY_SPACE && (token.Some? ==> token.value < next.value)
      ensures if next.Some? then CoversUpTo(keys + page, next, initial)
              else forall k :: k in initial ==> k in keys + page
    {
      ghost var listing, listed := log.keys, log.View();
      page, next := log.ListPage(token);
      AppendPageCovers(keys, page, token, next, listing, initial);
      forall j | 0 <= j < |page| ensures page[j] in log.objects && (token.Some? ==> token.value < page[j]) {
        assert page[j] in page;
      }
      assert next.Some? ==> Placed(listed, next.value);
      bodies := FetchPage(page);
      GrowsKeepsKeys(listed, log.View());
      LoadedUnderGrowth(keys, events, listed, log.View());
      AppendPage(keys, events, page, bodies, token, next, listing, log.View());
    }

    /** The token loop: every key present when it starts is returned, each exactly once. */
    method LoadEvents() returns (events: seq<Event>, ghost keys: seq<Key>)
      requires log.Valid()
      modifies log
      ensures log.Valid() && Grows(old(log.View()), log.View())
      ensures Loaded(keys, events, log.objects)
      ensures forall k :: k in old(log.objects).Keys ==> k in keys
    {
      events, keys := [], [];
      var token: Option<Key> := None;
      var more := true;
      ghost var start := log.View();
      while more
        invariant log.Valid() && Grows(start, log.View())
        invariant Loaded(keys, events, log.objects)
        invariant more ==> EndsAt(keys, token) && CoversUpTo(keys, token, start.objects.Keys)
        invariant more && token.Some? ==> token.value in log.objects
        invariant !more ==> forall k :: k in start.objects.Keys ==> k in keys
        decreases more, KEY_SPACE - (if token.Some? then token.value else -1)
      {
        ghost var before := log.View();
        log.Others();
        LoadedUnderGrowth(keys, events, before, log.View());
        GrowsTransitive(start, before, log.View());
        ghost var listed := log.View();
        GrowsKeepsKeys(start, listed);
        var page, bodies, next := NextPage(token, keys, events, start.objects.Keys);
        GrowsTransitive(start, listed, log.View());
        keys, events := keys + page, events + bodies;
        more := next.Some?;
        token := next;
      }
    }

    method RefreshIfStale()
      requires Valid()
      modifies this, log
      ensures Valid() && Grows(old(log.View()), log.View())
      ensures own == old(own) && old(seen) <= seen
      ensures forall k :: OldEnough(old(log.View()), k) ==> k in seen
      ensures old(loadedAt).None? ==> old(log.objects).Keys <= seen
      ensures if old(loadedAt).Some? && old(log.now) - old(loadedAt).value < 30
              then cache == old(cache) && loadedAt == old(loadedAt) && log.View() == old(log.View())
              else loadedAt == Some(old(log.now)) && old(log.objects).Keys <= seen
    {
      var now := log.now;
      ghost var start := log.View();
      if loadedAt.Some? && now - loadedAt.value < REFRESH_TTL {
        forall k | OldEnough(start, k) ensures k in seen {
          assert PutBefore(start, k, loadedAt.value);
        }
        return;
      }
      var events, keys := LoadEvents();
      FreshLoadRefines(start, log.View(), keys, events, seen, own);
      cache := ComputeCurrentSet(events);
      loadedAt := Some(now);
      seen := KeySet(keys);
    }

    /** The cache asked on both channels. */
    method LookUp(phone: Option<string>, email: Option<string>) returns (r: SuppressionResult)
      ensures r == Answer(cache, norm, phone, email)
    {
      var matches: seq<Match> := [];
      var indeterminate: seq<string> := [];
      if phone.Some? {
        var normalized := norm.phone(phone.value);
        if normalized.None? {
          indeterminate := indeterminate + [phone.value];
        } else if normalized.value in cache {
          matches := matches + [cache[normalized.value]];
        }
      }
      if email.Some? {
        var normalized := norm.email(email.value);
        if normalized.None? {
          indeterminate := indeterminate + [email.value];
        } else if normalized.value in cache {
          matches := matches + [cache[normalized.value]];
        }
      }
      assert matches == Answer(cache, norm, phone, email).matches;
      assert indeterminate == Answer(cache, norm, phone, email).indeterminate;
      r := SuppressionResult(matches != [] || indeterminate != [], matches, indeterminate);
    }

    /** Check a contact. Opt-outs put at least the staleness bound ago are always reported. */
    method IsSuppressed(phone: Option<string>, email: Option<string>) returns (r: Result<SuppressionResult, StoreError>)
      requires Valid()
      modifies this, log
      ensures Valid() && Grows(old(log.View()), log.View())
      ensures own == old(own) && old(seen) <= seen
      ensures r == if phone.None? && email.None? then Err(NoIdentifier) else Ok(Answer(cache, norm, phone, email))
      ensures forall id :: id in old(cache) ==> id in cache && cache[id].occurredAt <= old(cache)[id].occurredAt
      ensures r.Ok? ==> Answers(r.value, norm, phone, email, log.objects, seen)
      ensures r.Ok? ==> (r.value.suppressed <==>
                NamedIn(norm, phone, email, seen, log.objects) || Unnormalizable(norm, phone, email))
      ensures r.Ok? ==> loadedAt.Some? && forall k :: OldEnough(old(log.View()), k) ==> k in seen
      ensures r.Ok? && old(loadedAt).None? ==> old(log.objects).Keys <= seen
      ensures r.Ok? && !r.value.suppressed ==>
                forall k :: OldEnough(old(log.View()), k) ==>
                  !Names(norm, phone, email, old(log.objects)[k].identifier)
      ensures forall k :: r.Ok? && k in own && Names(norm, phone, email, log.objects[k].identifier) ==>
              r.value.suppressed
    {
      if phone.None? && email.None? {
        return Err(NoIdentifier);
      }
      ghost var v := log.View();
      RefreshIfStale();
      SeenMoreKnowsMore(old(cache), cache, old(seen), seen, v, log.View());
      SeenIsReported(cache, norm, phone, email, seen, v, log.View());
      ReportedExactly(cache, norm, phone, email, seen, log.View());
      AnswerTells(cache, norm, phone, email, log.objects, seen);
      var answer := LookUp(phone, email);
      r := Ok(answer);
    }

    /** Every identifier currently suppressed, for reconciliation. */
    method CurrentIdentifiers() returns (ids: set<string>)
      requires Valid()
      modifies this, log
      ensures Valid() && Grows(old(log.View()), log.View())
      ensures own == old(own) && old(seen) <= seen
      ensures ids == set e | e in EventsAt(log.objects, seen) :: e.identifier
      ensures old(loadedAt).None? ==> old(log.objects).Keys <= seen
      ensures forall k :: OldEnough(old(log.View()), k) ==> k in seen
    {
      RefreshIfStale();
      ids := cache.Keys;
      forall id | id in ids ensures id in set e | e in EventsAt(log.objects, seen) :: e.identifier {
        assert Backed(cache, EventsAt(log.objects, seen), id);
        var e :| e in EventsAt(log.objects, seen) && e.identifier == id && ToMatch(e) == cache[id];
      }
      forall e | e in EventsAt(log.objects, seen) ensures e.identifier in ids {
        assert Covered(cache, e);
      }
    }

    /** The snapshot rows, derived from the log itself and not from the cache. */
    method ExportSnapshot() returns (rows: seq<Match>, ghost events: seq<Event>)
      requires Valid()
      modifies log
      ensures Valid() && Grows(old(log.View()), log.View())
      ensures rows == SnapshotRows(CurrentSet(events))
      ensures old(EventsAt(log.objects, log.objects.Keys)) <= Elements(events)
      ensures Elements(events) <= EventsAt(log.objects, log.objects.Keys)
    {
      ghost var v := log.View();
      var loaded, keys := LoadEvents();
      GrowthKeepsRefinement(cache, loadedAt, seen, own, v, log.View());
      LoadedEvents(keys, loaded, log.objects);
      forall k | k in v.objects ensures v.objects[k] in EventsAt(log.objects, KeySet(keys)) {
        KeptUnderGrowth(k, v, log.View());
      }
      events := loaded;
      var current := ComputeCurrentSet(loaded);
      rows := SnapshotRows(current);
    }
  }

  /** An opt-out known once stays known: a cache over more events has every name, no later. */
  lemma SeenMoreKnowsMore(cache: Cache, later: Cache, seen: set<Key>, more: set<Key>, v: LogView, w: LogView)
    requires Grows(v, w) && seen <= v.objects.Keys && more <= w.objects.Keys && seen <= more
    requires EarliestOf(cache, EventsAt(v.objects, seen)) && EarliestOf(later, EventsAt(w.objects, more))
    ensures forall id :: id in cache ==> id in later && later[id].occurredAt <= cache[id].occurredAt
  {
    forall id | id in cache ensures id in later && later[id].occurredAt <= cache[id].occurredAt {
      assert Backed(cache, EventsAt(v.objects, seen), id);
      var k :| k in seen && k in v.objects && v.objects[k].identifier == id && ToMatch(v.objects[k]) == cache[id];
      assert Kept(v, w, k);
      assert w.objects[k] in EventsAt(w.objects, more) && Covered(later, w.objects[k]);
    }
  }

  /** Some event under these keys names the contact. */
  ghost predicate NamedIn(norm: Normalizer, phone: Option<string>, email: Option<string>, keys: set<Key>,
                          objects: map<Key, Event>)
  {
    exists k :: k in keys && k in objects && Names(norm, phone, email, objects[k].identifier)
  }

  predicate Unnormalizable(norm: Normalizer, phone: Option<string>, email: Option<string>) {
    (phone.Some? && norm.phone(phone.value).None?) || (email.Some? && norm.email(email.value).None?)
  }

  /** The cache answers exactly what the events it has seen would. */
  lemma ReportedExactly(cache: Cache, norm: Normalizer, phone: Option<string>, email: Option<string>,
                        seen: set<Key>, v: LogView)
    requires seen <= v.objects.Keys && EarliestOf(cache, EventsAt(v.objects, seen))
    ensures Answer(cache, norm, phone, email).suppressed <==>
            NamedIn(norm, phone, email, seen, v.objects) || Unnormalizable(norm, phone, email)
  {
    AnswerMeaning(cache, norm, phone, email);
    forall id | id in cache && Names(norm, phone, email, id) ensures NamedIn(norm, phone, email, seen, v.objects) {
      assert Backed(cache, EventsAt(v.objects, seen), id);
      var k :| k in seen && k in v.objects && v.objects[k].identifier == id && ToMatch(v.objects[k]) == cache[id];
    }
    forall k | k in seen && Names(norm, phone, email, v.objects[k].identifier)
      ensures v.objects[k].identifier in cache
    {
      assert v.objects[k] in EventsAt(v.objects, seen) && Covered(cache, v.objects[k]);
    }
  }

  /** Any event of an earlier log that the cache has seen is reported to a contact it names. */
  lemma SeenIsReported(cache: Cache, norm: Normalizer, phone: Option<string>, email: Option<string>,
                       seen: set<Key>, v: LogView, w: LogView)
    requires Grows(v, w) && seen <= w.objects.Keys && EarliestOf(cache, EventsAt(w.objects, seen))
    ensures forall k :: k in seen && k in v.objects && Names(norm, phone, email, v.objects[k].identifier)
                        ==> Answer(cache, norm, phone, email).suppressed
  {
    AnswerMeaning(cache, norm, phone, email);
    forall k | k in seen && k in v.objects && Names(norm, phone, email, v.objects[k].identifier)
      ensures Answer(cache, norm, phone, email).suppressed
    {
      assert Kept(v, w, k);
      assert w.objects[k] in EventsAt(w.objects, seen) && Covered(cache, w.objects[k]);
    }
  }
}
