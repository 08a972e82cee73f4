/** The "earliest opt-out wins" reduction of the event log (`_current_set` in suppression/store.py). */
module OptOutSet {
  import opened Ordering
  import opened EventLog

  datatype Match = Match(identifier: string, kind: Kind, reason: Value, source: Value, occurredAt: int)

  type Cache = map<string, Match>

  function ToMatch(e: Event): Match { Match(e.identifier, e.kind, e.reason, e.source, e.occurredAt) }

  function Merge(current: Cache, m: Match): Cache {
    if m.identifier !in current || m.occurredAt < current[m.identifier].occurredAt
    then current[m.identifier := m] else current
  }

  function CurrentSet(events: seq<Event>): Cache {
    if events == [] then map[]
    else Merge(CurrentSet(events[..|events| - 1]), ToMatch(events[|events| - 1]))
  }

  method ComputeCurrentSet(events: seq<Event>) returns (current: Cache)
    ensures current == CurrentSet(events)
  {
    current := map[];
    for i := 0 to |events|
      invariant current == CurrentSet(events[..i])
    {
      assert events[..i + 1][..i] == events[..i];
      var m := ToMatch(events[i]);
      if m.identifier !in current || m.occurredAt < current[m.identifier].occurredAt {
        current := current[m.identifier := m];
      }
    }
    assert events[..|events|] == events;
  }

  /**
   * `current` is the opt-out set of `events`: one entry for each identifier that has an event and for
   * no other, taken from an event of the earliest time.
   */
  ghost predicate EarliestOf(current: Cache, events: set<Event>) {
    && (forall e {:trigger Covered(current, e)} :: e in events ==> Covered(current, e))
    && (forall id {:trigger Backed(current, events, id)} :: id in current ==> Backed(current, events, id))
  }

  predicate Covered(current: Cache, e: Event) {
    e.identifier in current && current[e.identifier].occurredAt <= e.occurredAt
  }

  ghost predicate Backed(current: Cache, events: set<Event>, id: string) {
    id in current && exists e {:trigger ToMatch(e)} :: e in events && e.identifier == id && ToMatch(e) == current[id]
  }

  function Elements(events: seq<Event>): set<Event> { set e | e in events }

  lemma MergeKeepsEarliest(current: Cache, events: set<Event>, e: Event)
    requires EarliestOf(current, events)
    ensures EarliestOf(Merge(current, ToMatch(e)), events + {e})
  {
    var after := Merge(current, ToMatch(e));
    forall d | d in events + {e} ensures Covered(after, d) {
      assert d in events ==> Covered(current, d);
    }
    forall id | id in after ensures Backed(after, events + {e}, id) {
      if id in current && after[id] == current[id] {
        assert Backed(current, events, id);
        var x :| x in events && x.identifier == id && ToMatch(x) == current[id];
        assert x in events + {e};
      } else {
        assert e in events + {e};
      }
    }
  }

  lemma {:induction false} CurrentSetIsEarliest(events: seq<Event>)
    ensures EarliestOf(CurrentSet(events), Elements(events))
  {
    if events == [] {
    } else {
      var n := |events| - 1;
      CurrentSetIsEarliest(events[..n]);
      MergeKeepsEarliest(CurrentSet(events[..n]), Elements(events[..n]), events[n]);
      assert events == events[..n] + [events[n]];
      assert Elements(events) == Elements(events[..n]) + {events[n]};
    }
  }

  /** Two opt-out sets of the same events name the same identifiers at the same times. */
  lemma EarliestAgrees(a: Cache, b: Cache, events: set<Event>)
    requires EarliestOf(a, events) && EarliestOf(b, events)
    ensures a.Keys == b.Keys
    ensures forall id :: id in a ==> a[id].identifier == b[id].identifier == id && a[id].occurredAt == b[id].occurredAt
  {
    forall id | id in a || id in b
      ensures id in a && id in b && a[id].identifier == b[id].identifier == id && a[id].occurredAt == b[id].occurredAt
    {
      if id in a {
        assert Backed(a, events, id);
        var e :| e in events && e.identifier == id && ToMatch(e) == a[id];
        assert Covered(b, e);
      }
      if id in b {
        assert Backed(b, events, id);
        var e :| e in events && e.identifier == id && ToMatch(e) == b[id];
        assert Covered(a, e);
      }
    }
  }

  /** An event of an identifier's earliest time: one that can supply its entry. */
  ghost predicate Earliest(events: set<Event>, e: Event) {
    e in events && forall d :: d in events && d.identifier == e.identifier ==> e.occurredAt <= d.occurredAt
  }

  /** No two events of an identifier's earliest time differ in what the entry would say. */
  ghost predicate EarliestSettled(events: set<Event>) {
    forall d, e {:trigger Earliest(events, d), Earliest(events, e)} ::
      Earliest(events, d) && Earliest(events, e) && d.identifier == e.identifier ==> ToMatch(d) == ToMatch(e)
  }

  /** Every listing of these events gives this set. */
  ghost predicate OneSetForAll(events: set<Event>) {
    forall a, b {:trigger CurrentSet(a), CurrentSet(b)} ::
      Elements(a) == events && Elements(b) == events ==> CurrentSet(a) == CurrentSet(b)
  }

  /** Listing order never matters to identifier and time. */
  lemma OrderIndependent(a: seq<Event>, b: seq<Event>)
    requires Elements(a) == Elements(b)
    ensures CurrentSet(a).Keys == CurrentSet(b).Keys
    ensures forall id :: id in CurrentSet(a) ==> CurrentSet(a)[id].occurredAt == CurrentSet(b)[id].occurredAt
  {
    CurrentSetIsEarliest(a);
    CurrentSetIsEarliest(b);
    EarliestAgrees(CurrentSet(a), CurrentSet(b), Elements(a));
  }

  /** An entry comes from an event of its identifier's earliest time. */
  lemma EntryIsEarliest(current: Cache, events: set<Event>, id: string) returns (e: Event)
    requires EarliestOf(current, events) && id in current
    ensures Earliest(events, e) && e.identifier == id && ToMatch(e) == current[id]
  {
    assert Backed(current, events, id);
    e :| e in events && e.identifier == id && ToMatch(e) == current[id];
    forall d | d in events && d.identifier == id ensures e.occurredAt <= d.occurredAt { assert Covered(current, d); }
  }

  lemma SettledOrdersAgree(a: seq<Event>, b: seq<Event>)
    requires Elements(a) == Elements(b) && EarliestSettled(Elements(a))
    ensures CurrentSet(a) == CurrentSet(b)
  {
    OrderIndependent(a, b);
    CurrentSetIsEarliest(a);
    CurrentSetIsEarliest(b);
    forall id | id in CurrentSet(a) ensures CurrentSet(a)[id] == CurrentSet(b)[id] {
      var d := EntryIsEarliest(CurrentSet(a), Elements(a), id);
      var e := EntryIsEarliest(CurrentSet(b), Elements(a), id);
    }
  }

  /** Of the events of the earliest time the first listed supplies the entry. */
  lemma {:induction false} FirstListedStays(e: Event, rest: seq<Event>)
    requires forall d :: d in rest && d.identifier == e.identifier ==> e.occurredAt <= d.occurredAt
    ensures e.identifier in CurrentSet([e] + rest) && CurrentSet([e] + rest)[e.identifier] == ToMatch(e)
  {
    var all := [e] + rest;
    if rest == [] {
      assert all[..0] == [] && CurrentSet([]) == map[];
    } else {
      var n := |rest| - 1;
      assert all[..|all| - 1] == [e] + rest[..n] && all[|all| - 1] == rest[n] && rest[n] in rest;
      FirstListedStays(e, rest[..n]);
    }
  }

  /**
   * The whole set is independent of listing order exactly when no two events of an identifier's
   * earliest time differ; ties above the earliest time do not matter.
   */
  lemma OrderIndependentIff(events: seq<Event>)
    ensures OneSetForAll(Elements(events)) <==> EarliestSettled(Elements(events))
  {
    var all := Elements(events);
    if EarliestSettled(all) {
      forall a, b | Elements(a) == all && Elements(b) == all ensures CurrentSet(a) == CurrentSet(b) {
        SettledOrdersAgree(a, b);
      }
    } else {
      var d, e :| Earliest(all, d) && Earliest(all, e) && d.identifier == e.identifier && ToMatch(d) != ToMatch(e);
      assert Elements([d] + events) == all && Elements([e] + events) == all;
      FirstListedStays(d, events);
      FirstListedStays(e, events);
      assert CurrentSet([d] + events) != CurrentSet([e] + events);
    }
  }

  /** With a tie at the earliest time the reason does depend on listing order. */
  lemma TiesKeepTheFirstListed()
    ensures exists a: seq<Event>, b: seq<Event> :: Elements(a) == Elements(b) && CurrentSet(a) != CurrentSet(b)
  {
    var d := Event("+16502530000", "+16502530000", Phone, Text("STOP reply"), Text("sms"), 0);
    var e := d.(reason := Text("complaint"));
    FirstListedStays(d, [e]);
    FirstListedStays(e, [d]);
    assert Elements([d] + [e]) == Elements([e] + [d]);
    assert CurrentSet([d] + [e])[d.identifier] != CurrentSet([e] + [d])[d.identifier];
  }

  /** Losing nothing, gaining no name: a repeat at a later time leaves the opt-out set alone. */
  lemma LaterRepeatChangesNothing(current: Cache, events: set<Event>, e: Event)
    requires EarliestOf(current, events)
    requires exists d :: d in events && d.identifier == e.identifier && d.occurredAt <= e.occurredAt
    ensures Merge(current, ToMatch(e)) == current
    ensures EarliestOf(current, events + {e})
  {
    var d :| d in events && d.identifier == e.identifier && d.occurredAt <= e.occurredAt;
    assert Covered(current, d);
    MergeKeepsEarliest(current, events, e);
  }

  // --- the snapshot --------------------------------------------------------------

  /** The Parquet rows: the current set sorted by identifier. */
  function SnapshotRows(current: Cache): (rows: seq<Match>)
  {
    var ids := Sorted(current.Keys);
    assert forall i :: 0 <= i < |ids| ==> ids[i] in current by {
      forall i | 0 <= i < |ids| ensures ids[i] in current { assert ids[i] in ids; }
    }
    seq(|ids|, i requires 0 <= i < |ids| => current[ids[i]])
  }

  /** One row per suppressed identifier, in strictly ascending order of identifier. */
  lemma SnapshotIsSortedAndComplete(events: seq<Event>)
    ensures var rows := SnapshotRows(CurrentSet(events));
            && (forall i, j :: 0 <= i < j < |rows| ==> Before(rows[i].identifier, rows[j].identifier))
            && (forall m :: m in rows <==> m in CurrentSet(events).Values)
            && |rows| == |CurrentSet(events)|
  {
    var current := CurrentSet(events);
    CurrentSetIsEarliest(events);
    EarliestAgrees(current, current, Elements(events));
    var ids, rows := Sorted(current.Keys), SnapshotRows(current);
    forall i | 0 <= i < |ids| ensures ids[i] in current && rows[i] == current[ids[i]] { assert ids[i] in ids; }
    forall m | m in current.Values ensures m in rows {
      var id :| id in current && current[id] == m;
      assert id in ids;
      var i :| 0 <= i < |ids| && ids[i] == id;
      assert rows[i] == m;
    }
  }

  /** Row for row, two sets that agree on identifiers and times export the same. */
  lemma AgreeingRows(c: Cache, d: Cache)
    requires c.Keys == d.Keys
    requires forall id :: id in c ==> c[id].identifier == d[id].identifier && c[id].occurredAt == d[id].occurredAt
    ensures |SnapshotRows(c)| == |SnapshotRows(d)|
    ensures forall i :: 0 <= i < |SnapshotRows(c)| ==>
              SnapshotRows(c)[i].identifier == SnapshotRows(d)[i].identifier &&
              SnapshotRows(c)[i].occurredAt == SnapshotRows(d)[i].occurredAt
  {
    var ids := Sorted(c.Keys);
    forall i | 0 <= i < |ids| ensures ids[i] in c { assert ids[i] in ids; }
  }

  /** The same events in any order export the same identifiers at the same times, row for row. */
  lemma SnapshotForgetsOrder(a: seq<Event>, b: seq<Event>)
    requires Elements(a) == Elements(b)
    ensures var r, s := SnapshotRows(CurrentSet(a)), SnapshotRows(CurrentSet(b));
            && |r| == |s|
            && forall i :: 0 <= i < |r| ==> r[i].identifier == s[i].identifier && r[i].occurredAt == s[i].occurredAt
  {
    CurrentSetIsEarliest(a);
    CurrentSetIsEarliest(b);
    EarliestAgrees(CurrentSet(a), CurrentSet(b), Elements(a));
    AgreeingRows(CurrentSet(a), CurrentSet(b));
  }

  /** The rows tell the whole set: no two sets export the same. */
  lemma RowsTellTheSet(c: Cache, d: Cache)
    requires c.Keys == d.Keys && SnapshotRows(c) == SnapshotRows(d)
    ensures c == d
  {
    var ids := Sorted(c.Keys);
    forall i | 0 <= i < |ids| ensures ids[i] in c { assert ids[i] in ids; }
    forall id | id in c ensures c[id] == d[id] {
      assert id in ids;
      var i :| 0 <= i < |ids| && ids[i] == id;
      assert SnapshotRows(c)[i] == c[id] && SnapshotRows(d)[i] == d[id];
    }
  }

  ghost predicate OneSnapshotForAll(events: set<Event>) {
    forall a, b {:trigger CurrentSet(a), CurrentSet(b)} ::
      Elements(a) == events && Elements(b) == events ==> SnapshotRows(CurrentSet(a)) == SnapshotRows(CurrentSet(b))
  }

  /** The rows are the same whole for every listing exactly under the same condition. */
  lemma SnapshotForgetsOrderIff(events: seq<Event>)
    ensures OneSnapshotForAll(Elements(events)) <==> EarliestSettled(Elements(events))
  {
    OrderIndependentIff(events);
    if OneSnapshotForAll(Elements(events)) {
      forall a, b | Elements(a) == Elements(events) && Elements(b) == Elements(events)
        ensures CurrentSet(a) == CurrentSet(b)
      {
        OrderIndependent(a, b);
        RowsTellTheSet(CurrentSet(a), CurrentSet(b));
      }
    }
  }
}
