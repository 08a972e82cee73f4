/**
 * The reconciliation job itself: the vendor's list read page by page, our phones read from the shared log
 * through a store while others write to it, additions logged, the rest pushed. The vendor side is the
 * in-memory one of tests/fake_texttorrent.py.
 */
module ReconcileRun {
  import opened Common
  import opened Ordering
  import opened EventLog
  import opened SuppressionStore
  import opened Reconcile

  /** The vendor's blocked list, entries as they were entered. */
  class Vendor {
    var blocked: seq<string>

    constructor (blocked: seq<string>)
      ensures this.blocked == blocked
    {
      this.blocked := blocked;
    }

    method BlockedPage(limit: nat, page: nat) returns (rows: seq<string>)
      requires page >= 1
      ensures rows == if (page - 1) * limit >= |blocked| then []
                      else blocked[(page - 1) * limit..Min(page * limit, |blocked|)]
    {
      var start := (page - 1) * limit;
      assert start + limit == page * limit;
      rows := if start >= |blocked| then [] else blocked[start..Min(start + limit, |blocked|)];
    }

    method Block(numbers: seq<string>)
      modifies this
      ensures blocked == old(blocked) + seq(|numbers|, i requires 0 <= i < |numbers| => "+1" + numbers[i])
    {
      blocked := blocked + seq(|numbers|, i requires 0 <= i < |numbers| => "+1" + numbers[i]);
    }
  }

  /** The paging loop returns every entry once, in order, whatever the page size. */
  method BlockedNumbers(vendor: Vendor, pageSize: nat) returns (numbers: seq<string>)
    requires pageSize >= 1
    ensures numbers == vendor.blocked
  {
    numbers := [];
    var page := 1;
    while true
      invariant page >= 1 && |numbers| == (page - 1) * pageSize <= |vendor.blocked|
      invariant numbers == vendor.blocked[..|numbers|]
      decreases |vendor.blocked| - |numbers|
    {
      var entries := vendor.BlockedPage(pageSize, page);
      assert page * pageSize == (page - 1) * pageSize + pageSize;
      numbers := numbers + entries;
      if |entries| < pageSize {
        return;
      }
      page := page + 1;
    }
  }

  /** The push; an empty one makes no request, and a refused one raises. */
  method BlockNumbers(vendor: Vendor, numbers: seq<string>, accepted: bool) returns (ok: bool)
    modifies vendor
    ensures ok <==> accepted || numbers == []
    ensures vendor.blocked == if ok then old(vendor.blocked) + Wires(numbers) else old(vendor.blocked)
  {
    if numbers == [] {
      assert vendor.blocked + Wires([]) == vendor.blocked;
      return true;
    }
    if !accepted {
      return false;
    }
    var wire := seq(|numbers|, i requires 0 <= i < |numbers| => TenDigits(numbers[i]));
    vendor.Block(wire);
    assert vendor.blocked == old(vendor.blocked) + Wires(numbers);
    return true;
  }

  method Classify(norm: Norm, raw: seq<string>) returns (theirs: set<string>, unparseable: seq<string>)
    ensures theirs == Theirs(norm, raw) && unparseable == Unparseable(norm, raw)
  {
    theirs, unparseable := {}, [];
    for i := 0 to |raw|
      invariant theirs == Theirs(norm, raw[..i]) && unparseable == Unparseable(norm, raw[..i])
    {
      assert raw[..i + 1] == raw[..i] + [raw[i]] && raw[..i + 1][..i] == raw[..i];
      var normalized := norm(raw[i]);
      if normalized.None? {
        unparseable := unparseable + [raw[i]];
      } else {
        theirs := theirs + {normalized.value};
      }
    }
    assert raw[..|raw|] == raw;
  }

  /** Every identifier some event of the log names. */
  ghost function Identifiers(objects: map<Key, Event>): set<string> { set k | k in objects :: objects[k].identifier }

  ghost function Named(objects: map<Key, Event>, keys: set<Key>): set<string> {
    set k | k in keys && k in objects :: objects[k].identifier
  }

  lemma NamedUnderGrowth(v: LogView, w: LogView, keys: set<Key>)
    requires Grows(v, w) && keys <= v.objects.Keys
    ensures keys <= w.objects.Keys && Named(w.objects, keys) == Named(v.objects, keys)
  {
    forall k | k in keys ensures k in w.objects && w.objects[k] == v.objects[k] { KeptUnderGrowth(k, v, w); }
  }

  function ToSet(numbers: seq<string>): set<string> { set p | p in numbers }

  lemma ToSetOneMore(numbers: seq<string>, n: nat)
    requires n < |numbers|
    ensures ToSet(numbers[..n + 1]) == ToSet(numbers[..n]) + {numbers[n]}
  {
    assert numbers[..n + 1] == numbers[..n] + [numbers[n]];
  }

  lemma SortedHoldsAll(numbers: set<string>)
    ensures ToSet(Sorted(numbers)) == numbers
  {
  }

  lemma NothingSorted(numbers: set<string>)
    ensures Sorted(numbers) == [] <==> numbers == {}
  {
    SortedHoldsAll(numbers);
    assert Sorted(numbers) == [] ==> ToSet([]) == {};
  }

  /** Numbers the vendor knows are fit to be logged as they are. */
  lemma MissingIsSettled(norm: Norm, raw: seq<string>, numbers: set<string>)
    requires Sound(norm) && numbers <= Theirs(norm, raw)
    ensures forall p :: p in Sorted(numbers) ==> norm(p) == Some(p) && '@' !in p
  {
    TheirsSettled(norm, raw);
  }

  datatype Failure = PushRefused | IdsExhausted

  /** One event for each number, under a fresh id, through the store; others write between them. */
  method AddAll(store: Store, numbers: seq<string>, occurredAt: int) returns (ok: bool)
    requires store.Valid() && store.own == {}
    requires forall p :: p in numbers ==> store.norm.phone(p) == Some(p) && '@' !in p
    modifies store, store.log
    ensures store.Valid() && Grows(old(store.log.View()), store.log.View())
    ensures ok ==> Named(store.log.objects, store.own) == ToSet(numbers)
    ensures !ok ==> numbers != [] && NoIdLeft(store.log.objects)
  {
    ghost var start := store.log.View();
    WaitingGrows(start, 0);
    assert ToSet(numbers[..0]) == {};
    for n := 0 to |numbers|
      invariant store.Valid() && Grows(start, store.log.View())
      invariant Named(store.log.objects, store.own) == ToSet(numbers[..n])
    {
      ghost var paused, mine := store.log.View(), store.own;
      store.Meanwhile();
      GrowsTransitive(start, paused, store.log.View());
      NamedUnderGrowth(paused, store.log.View(), mine);
      var key := store.log.FreshKey();
      if key.None? {
        return false;
      }
      ghost var before, own := store.log.View(), store.own;
      assert numbers[n] in numbers;
      var added := store.AddSuppression(numbers[n], Text("present on TextTorrent blocked list"),
                                        Text("texttorrent_reconciliation"), Timestamp(occurredAt, true), key.value);
      GrowsTransitive(start, before, store.log.View());
      NamedUnderGrowth(before, store.log.View(), own);
      OneMoreNamed(store.log.objects, own, key.value);
      ToSetOneMore(numbers, n);
    }
    assert numbers[..|numbers|] == numbers;
    return true;
  }

  lemma OneMoreNamed(objects: map<Key, Event>, keys: set<Key>, key: Key)
    requires key in objects
    ensures Named(objects, keys + {key}) == Named(objects, keys) + {objects[key].identifier}
  {
  }

  /** Our phones as the store's first load shows them: all of the log's at the start, none it has not now. */
  ghost predicate SeenBetween(ids: set<string>, start: LogView, end: LogView) {
    Identifiers(start.objects) <= ids <= Identifiers(end.objects)
  }

  method LoadOurs(store: Store) returns (ids: set<string>)
    requires store.Valid() && store.loadedAt.None? && store.own == {}
    modifies store, store.log
    ensures store.Valid() && store.own == {} && Grows(old(store.log.View()), store.log.View())
    ensures SeenBetween(ids, old(store.log.View()), store.log.View())
  {
    ghost var start := store.log.View();
    ids := store.CurrentIdentifiers();
    ghost var now := store.log.View();
    forall k | k in start.objects ensures start.objects[k].identifier in ids {
      KeptUnderGrowth(k, start, now);
      assert now.objects[k] in EventsAt(now.objects, store.seen);
    }
    forall id | id in ids ensures id in Identifiers(now.objects) {
      var e :| e in EventsAt(now.objects, store.seen) && e.identifier == id;
      var k :| k in store.seen && k in now.objects && now.objects[k] == e;
    }
  }

  lemma IdentifiersGrow(v: LogView, w: LogView)
    requires Grows(v, w)
    ensures Identifiers(v.objects) <= Identifiers(w.objects)
  {
    forall k | k in v.objects ensures v.objects[k].identifier in Identifiers(w.objects) { KeptUnderGrowth(k, v, w); }
  }

  /** What the store's half leaves: our phones as it saw them, and its own events, or no id left for one. */
  ghost predicate StoreSide(norm: Norm, b: Books, start: LogView, end: LogView, own: set<Key>, ok: bool) {
    && Grows(start, end) && SeenBetween(b.ours, start, end) && own <= end.objects.Keys
    && if ok then Named(end.objects, own) == Missing(norm, b) else Missing(norm, b) != {} && NoIdLeft(end.objects)
  }

  lemma StoreSideUnderGrowth(norm: Norm, b: Books, before: LogView, start: LogView, mid: LogView, end: LogView,
                             own: set<Key>, ok: bool)
    requires StoreSide(norm, b, start, mid, own, ok) && Grows(before, start) && Grows(mid, end)
    ensures StoreSide(norm, b, before, end, own, ok)
  {
    GrowsTransitive(before, start, mid);
    GrowsTransitive(before, mid, end);
    IdentifiersGrow(before, start);
    IdentifiersGrow(mid, end);
    GrowsKeepsKeys(mid, end);
    NamedUnderGrowth(mid, end, own);
  }

  /** The additions after the load leave the store's side as it should be. */
  lemma AddedLeavesItsSide(norm: Norm, b: Books, start: LogView, loaded: LogView, end: LogView, own: set<Key>,
                           added: seq<string>, ok: bool)
    requires Grows(start, loaded) && Grows(loaded, end) && SeenBetween(b.ours, start, loaded)
    requires own <= end.objects.Keys && added == Sorted(Missing(norm, b))
    requires if ok then Named(end.objects, own) == ToSet(added) else added != [] && NoIdLeft(end.objects)
    ensures StoreSide(norm, b, start, end, own, ok)
  {
    GrowsTransitive(start, loaded, end);
    IdentifiersGrow(loaded, end);
    SortedHoldsAll(Missing(norm, b));
    NothingSorted(Missing(norm, b));
  }

  /** The store's half of the run: load, compare, log what only the vendor knew. */
  method LogMissing(norm: Normalizer, log: Log, theirs: set<string>, raw: seq<string>, occurredAt: int)
    returns (ids: set<string>, added: seq<string>, ok: bool, ghost own: set<Key>)
    requires log.Valid() && Sound(norm.phone) && theirs == Theirs(norm.phone, raw)
    modifies log
    ensures log.Valid()
    ensures StoreSide(norm.phone, Books(ids, raw), old(log.View()), log.View(), own, ok)
    ensures added == Sorted(Missing(norm.phone, Books(ids, raw)))
  {
    ghost var start := log.View();
    var store := new Store(log, norm);
    ids := LoadOurs(store);
    var ours := set i | i in ids && '@' !in i;
    assert ours == Phones(ids);
    added := Sorted(theirs - ours);
    MissingIsSettled(norm.phone, raw, theirs - ours);
    ghost var loaded := log.View();
    ok := AddAll(store, added, occurredAt);
    own := store.own;
    AddedLeavesItsSide(norm.phone, Books(ids, raw), start, loaded, log.View(), own, added, ok);
  }

  /** The same between the two requests to the vendor, during which others write. */
  method LogMissingBetweenRequests(norm: Normalizer, log: Log, theirs: set<string>, raw: seq<string>, occurredAt: int)
    returns (ids: set<string>, added: seq<string>, ok: bool, ghost own: set<Key>)
    requires log.Valid() && Sound(norm.phone) && theirs == Theirs(norm.phone, raw)
    modifies log
    ensures log.Valid()
    ensures StoreSide(norm.phone, Books(ids, raw), old(log.View()), log.View(), own, ok)
    ensures added == Sorted(Missing(norm.phone, Books(ids, raw)))
  {
    ghost var before := log.View();
    log.Others();
    ghost var start := log.View();
    ids, added, ok, own := LogMissing(norm, log, theirs, raw, occurredAt);
    ghost var mid := log.View();
    log.Others();
    StoreSideUnderGrowth(norm.phone, Books(ids, raw), before, start, mid, log.View(), own, ok);
  }

  /** One run: what it found, the log before and after, its own events, and how it ended. */
  datatype Night = Night(books: Books, start: LogView, end: LogView, own: set<Key>, vendor: seq<string>,
                         accepted: bool, result: Result<Report, Failure>)

  /** The events the run wrote name just what only the vendor knew. */
  ghost predicate Logged(norm: Norm, n: Night) { Named(n.end.objects, n.own) == Missing(norm, n.books) }

  /** How a run ends: the vendor's list, the report and the numbers the run logged itself. */
  ghost predicate Ends(norm: Norm, n: Night) {
    match n.result
    case Ok(report) =>
      && (n.accepted || Unpushed(norm, n.books) == {}) && Logged(norm, n)
      && report == ReportOf(norm, n.books) && n.vendor == AfterRun(norm, n.books).vendor
    case Err(PushRefused) =>
      !n.accepted && Unpushed(norm, n.books) != {} && Logged(norm, n) && n.vendor == n.books.vendor
    case Err(IdsExhausted) => Missing(norm, n.books) != {} && NoIdLeft(n.end.objects) && n.vendor == n.books.vendor
  }

  ghost predicate Ran(norm: Norm, n: Night) {
    && Grows(n.start, n.end) && SeenBetween(n.books.ours, n.start, n.end) && n.own <= n.end.objects.Keys
    && Ends(norm, n)
  }

  /** What only we knew goes to the vendor. */
  method PushMissing(norm: Norm, vendor: Vendor, ids: set<string>, theirs: set<string>, accepted: bool)
    returns (pushed: seq<string>, ok: bool)
    requires theirs == Theirs(norm, vendor.blocked)
    modifies vendor
    ensures pushed == Sorted(Unpushed(norm, Books(ids, old(vendor.blocked))))
    ensures ok <==> accepted || pushed == []
    ensures vendor.blocked == if ok then old(vendor.blocked) + Wires(pushed) else old(vendor.blocked)
  {
    var ours := set i | i in ids && '@' !in i;
    assert ours == Phones(ids);
    pushed := Sorted(ours - theirs);
    ok := BlockNumbers(vendor, pushed, accepted);
  }

  lemma AddingEnds(norm: Norm, n: Night)
    requires StoreSide(norm, n.books, n.start, n.end, n.own, false)
    requires n.vendor == n.books.vendor && n.result == Err(IdsExhausted)
    ensures Ran(norm, n)
  {
  }

  lemma ReportIs(norm: Norm, b: Books, added: seq<string>, pushed: seq<string>, unparseable: seq<string>)
    requires added == Sorted(Missing(norm, b)) && pushed == Sorted(Unpushed(norm, b))
    requires unparseable == Unparseable(norm, b.vendor)
    ensures Report(added, pushed, unparseable, |added| + |pushed| + |unparseable|) == ReportOf(norm, b)
    ensures b.vendor + Wires(pushed) == AfterRun(norm, b).vendor
  {
  }

  lemma StoreSideLogged(norm: Norm, n: Night)
    requires StoreSide(norm, n.books, n.start, n.end, n.own, true)
    ensures Grows(n.start, n.end) && SeenBetween(n.books.ours, n.start, n.end) && n.own <= n.end.objects.Keys
    ensures Logged(norm, n)
  {
  }

  /** The push after a finished store half ends the run as it should. */
  lemma PushEnds(norm: Norm, n: Night, added: seq<string>, pushed: seq<string>, unparseable: seq<string>, ok: bool)
    requires StoreSide(norm, n.books, n.start, n.end, n.own, true)
    requires added == Sorted(Missing(norm, n.books)) && pushed == Sorted(Unpushed(norm, n.books))
    requires unparseable == Unparseable(norm, n.books.vendor)
    requires ok <==> n.accepted || pushed == []
    requires n.vendor == if ok then n.books.vendor + Wires(pushed) else n.books.vendor
    requires n.result == if ok then Ok(Report(added, pushed, unparseable, |added| + |pushed| + |unparseable|))
                         else Err(PushRefused)
    ensures Ran(norm, n)
  {
    NothingSorted(Unpushed(norm, n.books));
    ReportIs(norm, n.books, added, pushed, unparseable);
    StoreSideLogged(norm, n);
  }

  /**
   * The nightly run over the shared log, with other writers active throughout: what the vendor alone
   * knew is logged, what we alone knew is pushed, and the report counts both.
   */
  method Run(norm: Normalizer, log: Log, vendor: Vendor, pageSize: nat, accepted: bool, occurredAt: int)
    returns (r: Result<Report, Failure>, ghost night: Night)
    requires log.Valid() && Sound(norm.phone) && pageSize >= 1
    modifies log, vendor
    ensures log.Valid() && Ran(norm.phone, night)
    ensures night.books.vendor == old(vendor.blocked) && night.vendor == vendor.blocked
    ensures night.start == old(log.View()) && night.end == log.View()
    ensures night.accepted == accepted && night.result == r
  {
    ghost var start := log.View();
    var raw := BlockedNumbers(vendor, pageSize);
    var theirs, unparseable := Classify(norm.phone, raw);
    var ids, added, logged, own := LogMissingBetweenRequests(norm, log, theirs, raw, occurredAt);
    if !logged {
      r := Err(IdsExhausted);
      night := Night(Books(ids, raw), start, log.View(), own, raw, accepted, r);
      AddingEnds(norm.phone, night);
      return;
    }
    var pushed, ok := PushMissing(norm.phone, vendor, ids, theirs, accepted);
    r := if ok then Ok(Report(added, pushed, unparseable, |added| + |pushed| + |unparseable|)) else Err(PushRefused);
    night := Night(Books(ids, raw), start, log.View(), own, vendor.blocked, accepted, r);
    PushEnds(norm.phone, night, added, pushed, unparseable, ok);
  }

  // --- the log after a run ---------------------------------------------------------------

  /** The events a run did not find and did not write: those others put meanwhile. */
  ghost function ByOthers(start: LogView, end: LogView, own: set<Key>): set<Key> {
    end.objects.Keys - start.objects.Keys - own
  }

  /** Nobody else wrote while it ran. */
  ghost predicate Alone(n: Night) { ByOthers(n.start, n.end, n.own) == {} }

  lemma IdentifiedBySource(start: LogView, end: LogView, own: set<Key>)
    requires Grows(start, end) && own <= end.objects.Keys
    ensures Identifiers(end.objects) ==
            Identifiers(start.objects) + Named(end.objects, own) + Named(end.objects, ByOthers(start, end, own))
  {
    IdentifiersGrow(start, end);
    forall k | k in end.objects
      ensures end.objects[k].identifier in
              Identifiers(start.objects) + Named(end.objects, own) + Named(end.objects, ByOthers(start, end, own))
    {
      if k in start.objects {
        KeptUnderGrowth(k, start, end);
      } else if k !in own {
        assert k in ByOthers(start, end, own);
      }
    }
  }

  /** Once the run is through, the log names what either side knew, and beyond that what others wrote. */
  lemma LogBecomesTheUnion(norm: Norm, n: Night)
    requires Ran(norm, n) && Logged(norm, n)
    ensures Identifiers(n.end.objects) ==
            AfterRun(norm, n.books).ours + Named(n.end.objects, ByOthers(n.start, n.end, n.own))
    ensures Identifiers(n.start.objects) + Theirs(norm, n.books.vendor) <= Identifiers(n.end.objects)
  {
    IdentifiedBySource(n.start, n.end, n.own);
    forall p | p in Theirs(norm, n.books.vendor) ensures p in Identifiers(n.end.objects) {
      assert p in Missing(norm, n.books) || p in Phones(n.books.ours);
    }
  }

  /** What only the vendor knew is no part of what we knew, emails included. */
  lemma MissingIsNotOurs(norm: Norm, b: Books)
    requires Sound(norm)
    ensures Missing(norm, b) !! b.ours
  {
    TheirsSettled(norm, b.vendor);
    forall id | id in b.ours ensures id !in Missing(norm, b) {
      assert '@' !in id ==> id in Phones(b.ours);
    }
  }

  /** A run during which nobody else wrote: it saw what the log held, and left what the law of the lists says. */
  lemma AloneItFollowsTheLaw(norm: Norm, n: Night)
    requires Sound(norm) && Ran(norm, n) && Alone(n) && Logged(norm, n)
    ensures n.books.ours == Identifiers(n.start.objects)
    ensures Identifiers(n.end.objects) == AfterRun(norm, n.books).ours
  {
    LogBecomesTheUnion(norm, n);
    IdentifiedBySource(n.start, n.end, n.own);
    MissingIsNotOurs(norm, n.books);
    NobodyElseNamed(n);
    OnlyTheStart(n.books.ours, Identifiers(n.start.objects), Missing(norm, n.books), Identifiers(n.end.objects));
  }

  lemma NobodyElseNamed(n: Night)
    requires Alone(n)
    ensures Named(n.end.objects, ByOthers(n.start, n.end, n.own)) == {}
  {
  }

  lemma OnlyTheStart(ours: set<string>, start: set<string>, missing: set<string>, end: set<string>)
    requires start <= ours <= end && end == start + missing && missing !! ours
    ensures ours == start
  {
  }

  /** Books a run leaves as they are have nothing missing and nothing to push. */
  lemma QuietBooks(norm: Norm, b: Books)
    requires ReportOf(norm, b).added == [] && ReportOf(norm, b).pushed == []
    ensures Missing(norm, b) == {} && Unpushed(norm, b) == {}
  {
  }

  /** The books the first night leaves, and two nights on which nobody else wrote. */
  ghost predicate TwoNights(norm: Norm, first: Night, second: Night) {
    && Ran(norm, first) && Alone(first) && first.result.Ok?
    && Ran(norm, second) && Alone(second)
    && second.start.objects == first.end.objects && second.books.vendor == first.vendor
  }

  /** The second night finds the books of the first as the law leaves them. */
  lemma SecondNightFindsTheUnion(norm: Norm, first: Night, second: Night)
    requires Sound(norm) && TwoNights(norm, first, second)
    requires Missing(norm, AfterRun(norm, first.books)) == {}
    ensures second.books == AfterRun(norm, first.books) && Logged(norm, second)
  {
    var law := AfterRun(norm, first.books);
    AloneItFollowsTheLaw(norm, first);
    assert Missing(norm, second.books) <= Missing(norm, law);
    AloneItFollowsTheLaw(norm, second);
  }

  lemma NothingNamedNothingWritten(objects: map<Key, Event>, keys: set<Key>)
    requires keys <= objects.Keys && Named(objects, keys) == {}
    ensures keys == {}
  {
    assert forall k :: k in keys ==> objects[k].identifier in Named(objects, keys);
  }

  /** With nothing missing and nothing to push a run cannot fail, and it writes nothing. */
  lemma QuietNight(norm: Norm, n: Night)
    requires Ran(norm, n) && Logged(norm, n)
    requires Missing(norm, n.books) == {} && Unpushed(norm, n.books) == {}
    ensures n.result == Ok(ReportOf(norm, n.books)) && n.vendor == AfterRun(norm, n.books).vendor && n.own == {}
  {
    NothingNamedNothingWritten(n.end.objects, n.own);
  }

  lemma NothingWritten(n: Night)
    requires Grows(n.start, n.end) && Alone(n) && n.own == {}
    ensures n.end.objects.Keys == n.start.objects.Keys
  {
    GrowsKeepsKeys(n.start, n.end);
    assert n.end.objects.Keys - n.start.objects.Keys - n.own == {};
    forall k | k in n.end.objects ensures k in n.start.objects {
      assert k !in n.end.objects.Keys - n.start.objects.Keys - n.own;
    }
  }

  /** Two nights alone: the second writes, adds and pushes nothing and reports only the unreadable entries. */
  lemma SecondNightIsQuiet(norm: Norm, first: Night, second: Night)
    requires Sound(norm) && Settled(norm, first.books.ours) && TwoNights(norm, first, second)
    requires forall p :: p in Unpushed(norm, first.books) ==> NorthAmerican(p)
    ensures var unparseable := Unparseable(norm, first.books.vendor);
            second.result == Ok(Report([], [], unparseable, |unparseable|))
    ensures second.vendor == first.vendor && second.end.objects.Keys == first.end.objects.Keys
  {
    SecondRunIsQuiet(norm, first.books);
    QuietBooks(norm, AfterRun(norm, first.books));
    SecondNightFindsTheUnion(norm, first, second);
    QuietNight(norm, second);
    NothingWritten(second);
  }
}
