/**
 * The append-only event log behind the suppression list: one immutable object per event under a
 * unique key, read by paginated listing. Other writers may append at any moment, between two pages
 * of one listing included. The page and token rules are those of the in-memory S3 the tests use.
 */
module EventLog {
  import opened Common

  /** Event ids are 128-bit values; listing order on their fixed-width names is numeric order. */
  const KEY_SPACE: int := 0x1_0000_0000_0000_0000_0000_0000_0000_0000

  type Key = int

  datatype Kind = Phone | Email

  /** A field as the JSON event holds it: text, or any other value by its rendering. */
  datatype Value = Text(text: string) | Json(json: string)

  datatype Event = Event(identifier: string, raw: string, kind: Kind, reason: Value, source: Value, occurredAt: int)

  /** The log at one moment: its objects, when each was put, and the clock. */
  datatype LogView = LogView(objects: map<Key, Event>, putAt: map<Key, int>, now: int)

  ghost predicate WellFormed(v: LogView) {
    v.putAt.Keys == v.objects.Keys && forall k :: Placed(v, k)
  }

  predicate Placed(v: LogView, k: Key) {
    (k in v.objects ==> 0 <= k < KEY_SPACE) && (k in v.putAt ==> v.putAt[k] <= v.now)
  }

  /** Append-only growth as time passes: nothing goes or changes, new objects are put from now on. */
  ghost predicate Grows(before: LogView, after: LogView) {
    before.now <= after.now && forall k :: Kept(before, after, k)
  }

  predicate Kept(before: LogView, after: LogView, k: Key) {
    && (k in before.objects ==> k in after.objects && after.objects[k] == before.objects[k])
    && (k in before.putAt ==> k in after.putAt && after.putAt[k] == before.putAt[k])
    && (k in after.putAt && k !in before.putAt ==> before.now <= after.putAt[k])
  }

  lemma GrowsTransitive(a: LogView, b: LogView, c: LogView)
    requires Grows(a, b) && Grows(b, c)
    ensures Grows(a, c)
  {
    forall k ensures Kept(a, c, k) {
      assert Kept(a, b, k) && Kept(b, c, k);
    }
  }

  lemma GrowsKeepsKeys(a: LogView, b: LogView)
    requires Grows(a, b)
    ensures a.objects.Keys <= b.objects.Keys
  {
    forall k | k in a.objects.Keys ensures k in b.objects.Keys { assert Kept(a, b, k); }
  }

  function Appended(v: LogView, key: Key, event: Event): LogView {
    LogView(v.objects[key := event], v.putAt[key := v.now], v.now)
  }

  function Later(v: LogView, wait: nat): LogView { v.(now := v.now + wait) }

  lemma AppendingGrows(v: LogView, key: Key, event: Event)
    requires WellFormed(v) && key !in v.objects && 0 <= key < KEY_SPACE
    ensures WellFormed(Appended(v, key, event)) && Grows(v, Appended(v, key, event))
  {
    var w := Appended(v, key, event);
    forall k ensures Placed(w, k) && Kept(v, w, k) { assert Placed(v, k); }
  }

  lemma WaitingGrows(v: LogView, wait: nat)
    requires WellFormed(v)
    ensures WellFormed(Later(v, wait)) && Grows(v, Later(v, wait))
  {
    forall k ensures Placed(Later(v, wait), k) && Kept(v, Later(v, wait), k) { assert Placed(v, k); }
  }

  ghost predicate NoIdLeft(objects: map<Key, Event>) { forall k :: 0 <= k < KEY_SPACE ==> k in objects }

  ghost predicate Ascending(s: seq<Key>) { forall i, j :: 0 <= i < j < |s| ==> s[i] < s[j] }

  function IndexOf(keys: seq<Key>, k: Key): (i: nat)
    requires k in keys
    ensures i < |keys| && keys[i] == k
  {
    if keys[0] == k then 0 else 1 + IndexOf(keys[1..], k)
  }

  function Insert(keys: seq<Key>, k: Key): (r: seq<Key>)
    requires Ascending(keys) && k !in keys
    ensures Ascending(r)
    ensures forall x :: x in r <==> x == k || x in keys
  {
    if keys == [] then [k]
    else if k < keys[0] then [k] + keys
    else
      var rest := Insert(keys[1..], k);
      assert forall j :: 0 <= j < |rest| ==> keys[0] < rest[j] by {
        forall j | 0 <= j < |rest| ensures keys[0] < rest[j] { assert rest[j] in rest; }
      }
      [keys[0]] + rest
  }

  /** What one page promises, given the token it continues from. */
  ghost predicate PageOf(page: seq<Key>, next: Option<Key>, token: Option<Key>, keys: seq<Key>) {
    && Ascending(page)
    && (forall k :: k in page ==> k in keys && (token.Some? ==> token.value < k))
    && (forall k :: k in keys && (token.Some? ==> token.value < k) ==>
         k in page || (next.Some? && next.value < k))
    && (next.Some? ==> page != [] && page[|page| - 1] == next.value)
  }

  lemma SliceIsPage(keys: seq<Key>, start: nat, end: nat, token: Option<Key>)
    requires Ascending(keys)
    requires start <= end <= |keys| && (end < |keys| ==> start < end)
    requires if token.Some? then 1 <= start && keys[start - 1] == token.value else start == 0
    ensures PageOf(keys[start..end], if end < |keys| then Some(keys[end - 1]) else None, token, keys)
  {
    var page := keys[start..end];
    forall k | k in page ensures k in keys && (token.Some? ==> token.value < k) {
      var i :| 0 <= i < |page| && page[i] == k;
      assert keys[start + i] == k && k in keys;
    }
    forall k | k in keys && (token.Some? ==> token.value < k)
      ensures k in page || (end < |keys| && keys[end - 1] < k)
    {
      var i :| 0 <= i < |keys| && keys[i] == k;
      assert i >= start;
      if i < end {
        assert page[i - start] == k;
      }
    }
  }

  /** The bucket prefix shared by every store: keys in listing order, objects never overwritten. */
  class Log {
    const pageSize: nat
    var keys: seq<Key>
    var objects: map<Key, Event>
    var now: int
    ghost var putAt: map<Key, int>

    ghost function View(): LogView
      reads this
    {
      LogView(objects, putAt, now)
    }

    ghost predicate Valid()
      reads this
    {
      && pageSize >= 1 && WellFormed(View())
      && Ascending(keys) && (forall k :: k in keys <==> k in objects)
    }

    constructor (pageSize: nat, now: int)
      requires pageSize >= 1
      ensures Valid() && View() == LogView(map[], map[], now)
    {
      this.pageSize := pageSize;
      this.keys := [];
      this.objects := map[];
      this.now := now;
      this.putAt := map[];
    }

    /** Put under a fresh key. */
    method Put(key: Key, event: Event)
      requires Valid() && key !in objects && 0 <= key < KEY_SPACE
      modifies this
      ensures Valid() && Grows(old(View()), View())
      ensures View() == Appended(old(View()), key, event)
    {
      AppendingGrows(View(), key, event);
      keys := Insert(keys, key);
      objects := objects[key := event];
      putAt := putAt[key := now];
    }

    /** A new event id; there is one unless every id is taken. */
    method FreshKey() returns (key: Option<Key>)
      requires Valid()
      ensures if key.Some? then 0 <= key.value < KEY_SPACE && key.value !in objects else NoIdLeft(objects)
    {
      if k :| 0 <= k < KEY_SPACE && k !in objects {
        return Some(k);
      }
      return None;
    }

    method Wait(time: nat)
      requires Valid()
      modifies this
      ensures Valid() && Grows(old(View()), View())
      ensures View() == Later(old(View()), time)
    {
      WaitingGrows(View(), time);
      now := now + time;
    }

    /** Whatever other processes do meanwhile: any number of appends, any passage of time. */
    method Others()
      requires Valid()
      modifies this
      ensures Valid() && Grows(old(View()), View())
    {
      ghost var start := View();
      WaitingGrows(start, 0);
      var arrivals: nat :| true;
      while arrivals > 0
        invariant Valid() && Grows(start, View())
      {
        var time: nat, key: Key, event: Event :| true;
        ghost var before := View();
        Wait(time);
        GrowsTransitive(start, before, View());
        if key !in objects && 0 <= key < KEY_SPACE {
          before := View();
          Put(key, event);
          GrowsTransitive(start, before, View());
        }
        arrivals := arrivals - 1;
      }
      var time: nat :| true;
      ghost var before := View();
      Wait(time);
      GrowsTransitive(start, before, View());
    }

    /** One page of the sorted keys: the first after the token, and the token to go on from. */
    method ListPage(token: Option<Key>) returns (page: seq<Key>, next: Option<Key>)
      requires Valid() && (token.Some? ==> token.value in objects)
      ensures PageOf(page, next, token, keys)
    {
      var start := if token.Some? then IndexOf(keys, token.value) + 1 else 0;
      var truncated := start + pageSize < |keys|;
      var end := if truncated then start + pageSize else |keys|;
      page := keys[start..end];
      next := if truncated then Some(page[|page| - 1]) else None;
      SliceIsPage(keys, start, end, token);
    }
  }
}
