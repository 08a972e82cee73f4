/**
 * The cleansing chain (cleansing/steps): schema check, normalization, deliverability, dedupe and
 * suppression, from raw enrichment rows to the staged ones.
 */
module Cleansing {
  import opened Common
  import opened SuppressionStore
  import TextFolding

  /** The columns the steps look at; a blank or missing cell is None or "". */
  datatype Row = Row(company: string, phone: Option<string>, email: Option<string>,
                     enrichedAt: string, lastContacted: Option<string>)

  datatype Reason =
    | MissingCompany | MissingContact | InvalidEnrichedAt
    | CompanyEmpty | NoValidIdentifier
    | NoMailExchanger

  /** What the steps call out to: normalization, company folding, ISO parsing, MX lookup. */
  datatype Tools = Tools(norm: Normalizer, company: string -> Option<string>,
                         parse: string -> Option<Timestamp>, mx: string -> bool)

  predicate BlankText(s: Option<string>) { s.None? || forall i :: 0 <= i < |s.value| ==> TextFolding.White(s.value[i]) }

  // --- the three quarantining steps -------------------------------------------------

  datatype Stage = Schema | Normalize | Validate

  function CheckSchema(tools: Tools, row: Row): Result<Row, Reason> {
    if BlankText(Some(row.company)) then Err(MissingCompany)
    else if BlankText(row.phone) && BlankText(row.email) then Err(MissingContact)
    else if !Stamped(tools, row) then Err(InvalidEnrichedAt)
    else Ok(row.(lastContacted := if row.lastContacted == Some("") then None else row.lastContacted))
  }

  predicate Stamped(tools: Tools, row: Row) {
    tools.parse(row.enrichedAt).Some? && tools.parse(row.enrichedAt).value.aware
  }

  function NormalizeRow(tools: Tools, row: Row): Result<Row, Reason> {
    var phone := if row.phone.Some? then tools.norm.phone(row.phone.value) else None;
    var email := if row.email.Some? then tools.norm.email(row.email.value) else None;
    match tools.company(row.company)
    case None => Err(CompanyEmpty)
    case Some(company) =>
      if phone.None? && email.None? then Err(NoValidIdentifier)
      else Ok(row.(company := company, phone := phone, email := email))
  }

  function DomainOf(email: string): string {
    if email == [] || email[|email| - 1] == '@' then [] else DomainOf(email[..|email| - 1]) + [email[|email| - 1]]
  }

  function ValidateRow(tools: Tools, row: Row): Result<Row, Reason> {
    if row.email.None? || tools.mx(DomainOf(row.email.value)) then Ok(row)
    else if row.phone.None? then Err(NoMailExchanger)
    else Ok(row.(email := None))
  }

  function Decide(tools: Tools, stage: Stage, row: Row): Result<Row, Reason> {
    match stage
    case Schema => CheckSchema(tools, row)
    case Normalize => NormalizeRow(tools, row)
    case Validate => ValidateRow(tools, row)
  }

  // --- what a decision says of the row --------------------------------------------------

  /** The part after the last '@', or everything if there is none. */
  predicate MailDomain(email: string, domain: string) {
    var n := |email| - |domain|;
    n >= 0 && email[n..] == domain && '@' !in domain && (n == 0 || email[n - 1] == '@')
  }

  lemma {:induction false} DomainIsMailDomain(email: string)
    ensures MailDomain(email, DomainOf(email))
  {
    if email == [] || email[|email| - 1] == '@' {
    } else {
      var n := |email| - 1;
      DomainIsMailDomain(email[..n]);
      var m := n - |DomainOf(email[..n])|;
      assert email[m..] == email[..n][m..] + [email[n]];
    }
  }

  lemma OneMailDomain(email: string, d: string, e: string)
    requires MailDomain(email, d) && MailDomain(email, e)
    ensures d == e
  {
    assert forall k :: 0 <= k < |d| ==> d[k] == email[|email| - |d| + k] && d[k] != '@';
    assert forall k :: 0 <= k < |e| ==> e[k] == email[|email| - |e| + k] && e[k] != '@';
  }

  ghost predicate TakesMail(tools: Tools, email: string) { exists d :: MailDomain(email, d) && tools.mx(d) }

  predicate Missing(cell: Option<string>) {
    cell.None? || forall i :: 0 <= i < |cell.value| ==> TextFolding.White(cell.value[i])
  }

  predicate Dated(tools: Tools, row: Row) {
    tools.parse(row.enrichedAt).Some? && tools.parse(row.enrichedAt).value.aware
  }

  /** Kept at the schema check, as it came but for a blank contact time, or turned away for the first thing amiss. */
  predicate SchemaTells(tools: Tools, row: Row, r: Result<Row, Reason>) {
    match r
    case Ok(q) =>
      && !Missing(Some(row.company)) && (!Missing(row.phone) || !Missing(row.email)) && Dated(tools, row)
      && q.company == row.company && q.phone == row.phone && q.email == row.email && q.enrichedAt == row.enrichedAt
      && (if row.lastContacted == Some("") then q.lastContacted == None else q.lastContacted == row.lastContacted)
    case Err(reason) =>
      match reason
      case MissingCompany => Missing(Some(row.company))
      case MissingContact => !Missing(Some(row.company)) && Missing(row.phone) && Missing(row.email)
      case InvalidEnrichedAt =>
        !Missing(Some(row.company)) && (!Missing(row.phone) || !Missing(row.email)) && !Dated(tools, row)
      case _ => false
  }

  predicate Normal(normalize: string -> Option<string>, before: Option<string>, after: Option<string>) {
    match before
    case None => after == None
    case Some(raw) => after == normalize(raw)
  }

  /** Kept at normalization with every identifier that normalizes, one at least, or turned away. */
  predicate NormalTells(tools: Tools, row: Row, r: Result<Row, Reason>) {
    match r
    case Ok(q) =>
      && Some(q.company) == tools.company(row.company)
      && Normal(tools.norm.phone, row.phone, q.phone) && Normal(tools.norm.email, row.email, q.email)
      && (q.phone.Some? || q.email.Some?) && q.enrichedAt == row.enrichedAt && q.lastContacted == row.lastContacted
    case Err(reason) =>
      match reason
      case CompanyEmpty => tools.company(row.company) == None
      case NoValidIdentifier =>
        && tools.company(row.company).Some?
        && Normal(tools.norm.phone, row.phone, None) && Normal(tools.norm.email, row.email, None)
      case _ => false
  }

  /** Kept at validation, without the email if its domain takes no mail, or turned away if nothing is left. */
  ghost predicate ValidTells(tools: Tools, row: Row, r: Result<Row, Reason>) {
    var bad := row.email.Some? && !TakesMail(tools, row.email.value);
    match r
    case Ok(q) =>
      && (bad ==> row.phone.Some?) && q.email == (if bad then None else row.email)
      && q.company == row.company && q.phone == row.phone && q.enrichedAt == row.enrichedAt
      && q.lastContacted == row.lastContacted
    case Err(reason) => reason == NoMailExchanger && bad && row.phone == None
  }

  /** The decision of each step tells the truth about the row. */
  lemma DecisionTells(tools: Tools, row: Row)
    ensures SchemaTells(tools, row, Decide(tools, Schema, row))
    ensures NormalTells(tools, row, Decide(tools, Normalize, row))
    ensures ValidTells(tools, row, Decide(tools, Validate, row))
  {
    if row.email.Some? {
      var email := row.email.value;
      DomainIsMailDomain(email);
      forall d | MailDomain(email, d) ensures d == DomainOf(email) { OneMailDomain(email, d, DomainOf(email)); }
    }
  }

  function Passing(tools: Tools, stage: Stage, rows: seq<Row>): seq<Row> {
    if rows == [] then []
    else
      var last := Decide(tools, stage, rows[|rows| - 1]);
      Passing(tools, stage, rows[..|rows| - 1]) + (if last.Ok? then [last.value] else [])
  }

  function Quarantined(tools: Tools, stage: Stage, rows: seq<Row>): seq<(Row, Reason)> {
    if rows == [] then []
    else
      var last := Decide(tools, stage, rows[|rows| - 1]);
      Quarantined(tools, stage, rows[..|rows| - 1]) + (if last.Err? then [(rows[|rows| - 1], last.error)] else [])
  }

  lemma {:induction false} NothingDropped(tools: Tools, stage: Stage, rows: seq<Row>)
    ensures |Passing(tools, stage, rows)| + |Quarantined(tools, stage, rows)| == |rows|
  {
    if rows == [] {
    } else {
      NothingDropped(tools, stage, rows[..|rows| - 1]);
    }
  }

  lemma {:induction false} PassingComeFromRows(tools: Tools, stage: Stage, rows: seq<Row>)
    ensures forall r <- Passing(tools, stage, rows) :: exists q <- rows :: Decide(tools, stage, q) == Ok(r)
  {
    if rows == [] {
    } else {
      PassingComeFromRows(tools, stage, rows[..|rows| - 1]);
      forall r | r in Passing(tools, stage, rows) ensures exists q <- rows :: Decide(tools, stage, q) == Ok(r) {
        if r in Passing(tools, stage, rows[..|rows| - 1]) {
          var q :| q in rows[..|rows| - 1] && Decide(tools, stage, q) == Ok(r);
          assert q in rows;
        } else {
          assert rows[|rows| - 1] in rows;
        }
      }
    }
  }

  method SchemaValidate(tools: Tools, rows: seq<Row>) returns (valid: seq<Row>, quarantined: seq<(Row, Reason)>)
    ensures valid == Passing(tools, Schema, rows) && quarantined == Quarantined(tools, Schema, rows)
  {
    valid, quarantined := [], [];
    for i := 0 to |rows|
      invariant valid == Passing(tools, Schema, rows[..i]) && quarantined == Quarantined(tools, Schema, rows[..i])
    {
      assert rows[..i + 1][..i] == rows[..i];
      match CheckSchema(tools, rows[i]) {
        case Err(reason) => quarantined := quarantined + [(rows[i], reason)];
        case Ok(row) => valid := valid + [row];
      }
    }
    assert rows[..|rows|] == rows;
  }

  method NormalizeRows(tools: Tools, rows: seq<Row>) returns (kept: seq<Row>, quarantined: seq<(Row, Reason)>)
    ensures kept == Passing(tools, Normalize, rows) && quarantined == Quarantined(tools, Normalize, rows)
  {
    kept, quarantined := [], [];
    for i := 0 to |rows|
      invariant kept == Passing(tools, Normalize, rows[..i]) && quarantined == Quarantined(tools, Normalize, rows[..i])
    {
      assert rows[..i + 1][..i] == rows[..i];
      var row := rows[i];
      var company := tools.company(row.company);
      if company.None? {
        quarantined := quarantined + [(row, CompanyEmpty)];
        continue;
      }
      var phone := if row.phone.Some? then tools.norm.phone(row.phone.value) else None;
      var email := if row.email.Some? then tools.norm.email(row.email.value) else None;
      if phone.None? && email.None? {
        quarantined := quarantined + [(row, NoValidIdentifier)];
        continue;
      }
      kept := kept + [row.(company := company.value, phone := phone, email := email)];
    }
    assert rows[..|rows|] == rows;
  }

  /** Each domain is looked up once; the cached answers give what fresh lookups would. */
  method ValidateRows(tools: Tools, rows: seq<Row>) returns (kept: seq<Row>, quarantined: seq<(Row, Reason)>)
    ensures kept == Passing(tools, Validate, rows) && quarantined == Quarantined(tools, Validate, rows)
  {
    kept, quarantined := [], [];
    var mxCache: map<string, bool> := map[];
    for i := 0 to |rows|
      invariant kept == Passing(tools, Validate, rows[..i]) && quarantined == Quarantined(tools, Validate, rows[..i])
      invariant forall d :: d in mxCache ==> mxCache[d] == tools.mx(d)
    {
      assert rows[..i + 1][..i] == rows[..i];
      var row := rows[i];
      if row.email.Some? {
        var domain := DomainOf(row.email.value);
        if domain !in mxCache {
          mxCache := mxCache[domain := tools.mx(domain)];
        }
        if !mxCache[domain] {
          if row.phone.None? {
            quarantined := quarantined + [(row, NoMailExchanger)];
            continue;
          }
          row := row.(email := None);
        }
      }
      kept := kept + [row];
    }
    assert rows[..|rows|] == rows;
  }

  // --- identity ---------------------------------------------------------------------

  function NormalizedKey(phone: Option<string>, email: Option<string>): string { OrEmpty(phone) + "|" + OrEmpty(email) }

  function KeyOf(row: Row): string { NormalizedKey(row.phone, row.email) }

  lemma SeparatorFirst(a: string, x: string)
    requires '|' !in a
    ensures (a + "|" + x)[0] == '|' <==> a == []
  {
    assert (a + "|" + x)[0] == if a == [] then '|' else a[0];
  }

  lemma {:induction false} SplitIsUnique(a: string, x: string, b: string, y: string)
    requires a + "|" + x == b + "|" + y
    requires '|' !in a && '|' !in b
    ensures a == b && x == y
  {
    var key := a + "|" + x;
    SeparatorFirst(a, x);
    SeparatorFirst(b, y);
    if a == [] {
      assert key[1..] == x && key[1..] == y;
    } else {
      assert key[0] == a[0] == b[0];
      assert key[1..] == a[1..] + "|" + x == b[1..] + "|" + y;
      SplitIsUnique(a[1..], x, b[1..], y);
      assert a == [a[0]] + a[1..] == [b[0]] + b[1..] == b;
    }
  }

  /** The joined key tells contacts apart, as long as no phone holds the separator. */
  lemma KeyIsInjective(p: Option<string>, e: Option<string>, q: Option<string>, f: Option<string>)
    requires '|' !in OrEmpty(p) && '|' !in OrEmpty(q)
    requires p != Some("") && q != Some("") && e != Some("") && f != Some("")
    ensures NormalizedKey(p, e) == NormalizedKey(q, f) <==> p == q && e == f
  {
    if NormalizedKey(p, e) == NormalizedKey(q, f) {
      SplitIsUnique(OrEmpty(p), OrEmpty(e), OrEmpty(q), OrEmpty(f));
    }
  }

  // --- dedupe ----------------------------------------------------------------------------

  function EnrichedAt(tools: Tools, row: Row): int
    requires Stamped(tools, row)
  {
    tools.parse(row.enrichedAt).value.instant
  }

  ghost predicate AllStamped(tools: Tools, rows: seq<Row>) { forall i :: 0 <= i < |rows| ==> Stamped(tools, rows[i]) }

  /** Row `j`, if it shares row `i`'s key, is older than it, or no newer and listed after it. */
  predicate Yields(tools: Tools, rows: seq<Row>, j: nat, i: nat)
    requires i < |rows| && j < |rows| && Stamped(tools, rows[i]) && Stamped(tools, rows[j])
  {
    KeyOf(rows[j]) == KeyOf(rows[i]) ==>
      || EnrichedAt(tools, rows[j]) < EnrichedAt(tools, rows[i])
      || (i <= j && EnrichedAt(tools, rows[j]) == EnrichedAt(tools, rows[i]))
  }

  /** Row `i` is the first of the newest rows with its key among the first `n`. */
  ghost predicate NewestOfItsKey(tools: Tools, rows: seq<Row>, n: nat, i: nat)
    requires n <= |rows| && AllStamped(tools, rows)
  {
    i < n && forall j :: 0 <= j < n ==> Yields(tools, rows, j, i)
  }

  /** A kept row, where it came from and why it was chosen. */
  ghost predicate Chosen(tools: Tools, rows: seq<Row>, r: Row)
    requires AllStamped(tools, rows)
  {
    exists i: nat :: NewestOfItsKey(tools, rows, |rows|, i) && rows[i] == r
  }

  predicate DistinctKeys(rows: seq<Row>) {
    forall i, j :: 0 <= i < j < |rows| ==> KeyOf(rows[i]) != KeyOf(rows[j])
  }

  ghost predicate Represented(kept: seq<Row>, r: Row) { exists i :: 0 <= i < |kept| && KeyOf(kept[i]) == KeyOf(r) }

  /** What the deduplicated rows are: one per key, each the first newest of its group. */
  ghost predicate Deduped(tools: Tools, rows: seq<Row>, kept: seq<Row>)
    requires AllStamped(tools, rows)
  {
    && DistinctKeys(kept)
    && (forall i :: 0 <= i < |kept| ==> Chosen(tools, rows, kept[i]))
    && (forall i :: 0 <= i < |rows| ==> Represented(kept, rows[i]))
  }

  ghost predicate SameKeys(order: seq<string>, best: map<string, Row>) { forall k :: k in order <==> k in best }

  /** The dictionary after `n` rows: its keys in insertion order, under each the row at `at`. */
  ghost predicate Progress(tools: Tools, rows: seq<Row>, n: nat, order: seq<string>, best: map<string, Row>,
                           at: map<string, nat>)
    requires n <= |rows| && AllStamped(tools, rows)
  {
    && |order| <= n
    && (forall a, b :: 0 <= a < b < |order| ==> order[a] != order[b])
    && SameKeys(order, best)
    && (forall j :: 0 <= j < n ==> KeyOf(rows[j]) in best)
    && (forall k {:trigger Incumbent(tools, rows, n, k, best, at)} ::
        k in best ==> Incumbent(tools, rows, n, k, best, at))
  }

  ghost predicate Incumbent(tools: Tools, rows: seq<Row>, n: nat, k: string, best: map<string, Row>,
                            at: map<string, nat>)
    requires n <= |rows| && AllStamped(tools, rows)
  {
    k in best && k in at && NewestOfItsKey(tools, rows, n, at[k]) && rows[at[k]] == best[k] && KeyOf(best[k]) == k
  }

  predicate Beats(tools: Tools, row: Row, best: map<string, Row>)
    requires Stamped(tools, row) && (KeyOf(row) in best ==> Stamped(tools, best[KeyOf(row)]))
  {
    KeyOf(row) !in best || EnrichedAt(tools, row) > EnrichedAt(tools, best[KeyOf(row)])
  }

  lemma IncumbentStays(tools: Tools, rows: seq<Row>, n: nat, k: string, best: map<string, Row>, at: map<string, nat>)
    requires n < |rows| && AllStamped(tools, rows) && Incumbent(tools, rows, n, k, best, at)
    requires KeyOf(rows[n]) == k ==> !Beats(tools, rows[n], best)
    ensures Incumbent(tools, rows, n + 1, k, best, at)
  {
    assert Yields(tools, rows, n, at[k]);
  }

  lemma NewcomerTakesOver(tools: Tools, rows: seq<Row>, n: nat, order: seq<string>, best: map<string, Row>,
                          at: map<string, nat>)
    requires n < |rows| && AllStamped(tools, rows) && Progress(tools, rows, n, order, best, at)
    requires KeyOf(rows[n]) in best ==> Incumbent(tools, rows, n, KeyOf(rows[n]), best, at)
    requires Beats(tools, rows[n], best)
    ensures NewestOfItsKey(tools, rows, n + 1, n)
  {
    forall j | 0 <= j < n + 1 ensures Yields(tools, rows, j, n) {
      if j < n && KeyOf(rows[j]) == KeyOf(rows[n]) {
        assert KeyOf(rows[j]) in best;
        assert Yields(tools, rows, j, at[KeyOf(rows[n])]);
      }
    }
  }

  lemma IncumbentIsStamped(tools: Tools, rows: seq<Row>, n: nat, order: seq<string>, best: map<string, Row>,
                           at: map<string, nat>, k: string)
    requires n <= |rows| && AllStamped(tools, rows) && Progress(tools, rows, n, order, best, at) && k in best
    ensures Incumbent(tools, rows, n, k, best, at) && Stamped(tools, best[k])
  {
    assert Incumbent(tools, rows, n, k, best, at);
  }

  /** The row replaces the incumbent, or opens its key. */
  lemma ReplacingProgresses(tools: Tools, rows: seq<Row>, n: nat, order: seq<string>, best: map<string, Row>,
                            at: map<string, nat>)
    requires n < |rows| && AllStamped(tools, rows) && Progress(tools, rows, n, order, best, at)
    requires KeyOf(rows[n]) in best ==> Incumbent(tools, rows, n, KeyOf(rows[n]), best, at)
    requires Beats(tools, rows[n], best)
    ensures var key := KeyOf(rows[n]);
            Progress(tools, rows, n + 1, if key in best then order else order + [key], best[key := rows[n]],
                     at[key := n])
  {
    var key := KeyOf(rows[n]);
    NewcomerTakesOver(tools, rows, n, order, best, at);
    var after, afterAt := best[key := rows[n]], at[key := n];
    forall k | k in after ensures Incumbent(tools, rows, n + 1, k, after, afterAt) {
      if k != key {
        assert Incumbent(tools, rows, n, k, best, at);
        IncumbentStays(tools, rows, n, k, best, at);
      }
    }
  }

  lemma KeepingProgresses(tools: Tools, rows: seq<Row>, n: nat, order: seq<string>, best: map<string, Row>,
                          at: map<string, nat>)
    requires n < |rows| && AllStamped(tools, rows) && Progress(tools, rows, n, order, best, at)
    requires KeyOf(rows[n]) in best && Incumbent(tools, rows, n, KeyOf(rows[n]), best, at)
    requires !Beats(tools, rows[n], best)
    ensures Progress(tools, rows, n + 1, order, best, at)
  {
    forall k | k in best ensures Incumbent(tools, rows, n + 1, k, best, at) {
      assert Incumbent(tools, rows, n, k, best, at);
      IncumbentStays(tools, rows, n, k, best, at);
    }
  }

  /** `list(best.values())`: the values in insertion order of their keys. */
  ghost predicate Values(order: seq<string>, best: map<string, Row>, kept: seq<Row>) {
    |kept| == |order| && forall a :: 0 <= a < |order| ==> order[a] in best && kept[a] == best[order[a]]
  }

  lemma ValuesAreDeduped(tools: Tools, rows: seq<Row>, order: seq<string>, best: map<string, Row>,
                         at: map<string, nat>, kept: seq<Row>)
    requires AllStamped(tools, rows) && Progress(tools, rows, |rows|, order, best, at) && Values(order, best, kept)
    ensures Deduped(tools, rows, kept)
  {
    forall i | 0 <= i < |kept| ensures KeyOf(kept[i]) == order[i] && Chosen(tools, rows, kept[i]) {
      assert Incumbent(tools, rows, |rows|, order[i], best, at);
    }
    forall i | 0 <= i < |rows| ensures Represented(kept, rows[i]) {
      assert KeyOf(rows[i]) in order;
      var a :| 0 <= a < |order| && order[a] == KeyOf(rows[i]);
      assert KeyOf(kept[a]) == KeyOf(rows[i]);
    }
  }

  // --- how many were superseded ---------------------------------------------------------

  /** The places of `n` rows. */
  function Places(n: nat): (places: set<int>)
    ensures |places| == n && forall i :: i in places <==> 0 <= i < n
  {
    if n == 0 then {} else Places(n - 1) + {n - 1}
  }

  /** The rows that are not the first newest of their key: what dedupe removes. */
  ghost function Superseded(tools: Tools, rows: seq<Row>): set<int>
    requires AllStamped(tools, rows)
  {
    set i | i in Places(|rows|) && !NewestOfItsKey(tools, rows, |rows|, i)
  }

  ghost function Newest(tools: Tools, rows: seq<Row>): set<int>
    requires AllStamped(tools, rows)
  {
    set i | i in Places(|rows|) && NewestOfItsKey(tools, rows, |rows|, i)
  }

  ghost predicate PlacedAt(tools: Tools, rows: seq<Row>, kept: seq<Row>, places: seq<int>)
    requires AllStamped(tools, rows)
  {
    |places| == |kept| && forall a :: 0 <= a < |kept| ==> places[a] in Newest(tools, rows) && rows[places[a]] == kept[a]
  }

  lemma {:induction false} PlacesOf(tools: Tools, rows: seq<Row>, kept: seq<Row>) returns (places: seq<int>)
    requires AllStamped(tools, rows) && forall a :: 0 <= a < |kept| ==> Chosen(tools, rows, kept[a])
    ensures PlacedAt(tools, rows, kept, places)
  {
    if kept == [] {
      places := [];
    } else {
      var n := |kept| - 1;
      var before := PlacesOf(tools, rows, kept[..n]);
      assert Chosen(tools, rows, kept[n]);
      var i: nat :| NewestOfItsKey(tools, rows, |rows|, i) && rows[i] == kept[n];
      places := before + [i];
    }
  }

  /** Two first-newest rows of one key are one row. */
  lemma NewestIsUnique(tools: Tools, rows: seq<Row>, i: nat, j: nat)
    requires AllStamped(tools, rows) && i in Newest(tools, rows) && j in Newest(tools, rows)
    requires KeyOf(rows[i]) == KeyOf(rows[j])
    ensures i == j
  {
    assert Yields(tools, rows, j, i) && Yields(tools, rows, i, j);
  }

  lemma {:induction false} DistinctElements(places: seq<int>)
    requires forall a, b :: 0 <= a < b < |places| ==> places[a] != places[b]
    ensures |set p | p in places| == |places|
  {
    if places == [] {
    } else {
      var n := |places| - 1;
      DistinctElements(places[..n]);
      assert (set p | p in places) == (set p | p in places[..n]) + {places[n]};
    }
  }

  /** Every first newest row is kept, once; the rest are superseded. */
  lemma KeptAreTheNewest(tools: Tools, rows: seq<Row>, kept: seq<Row>)
    requires AllStamped(tools, rows) && Deduped(tools, rows, kept)
    ensures |kept| + |Superseded(tools, rows)| == |rows|
  {
    var places := PlacesOf(tools, rows, kept);
    forall a, b | 0 <= a < b < |places| ensures places[a] != places[b] {
      assert KeyOf(kept[a]) != KeyOf(kept[b]) && rows[places[a]] == kept[a] && rows[places[b]] == kept[b];
    }
    DistinctElements(places);
    PlacesAreAll(tools, rows, kept, places);
    assert Newest(tools, rows) + Superseded(tools, rows) == Places(|rows|);
    assert Newest(tools, rows) !! Superseded(tools, rows);
  }

  lemma PlacesAreAll(tools: Tools, rows: seq<Row>, kept: seq<Row>, places: seq<int>)
    requires AllStamped(tools, rows) && Deduped(tools, rows, kept) && PlacedAt(tools, rows, kept, places)
    ensures (set p | p in places) == Newest(tools, rows)
  {
    forall i | i in Newest(tools, rows) ensures i in places {
      assert Represented(kept, rows[i]);
      var a :| 0 <= a < |kept| && KeyOf(kept[a]) == KeyOf(rows[i]);
      NewestIsUnique(tools, rows, i, places[a]);
    }
  }

  ghost predicate AllIn(order: seq<string>, best: map<string, Row>) {
    forall a :: 0 <= a < |order| ==> order[a] in best
  }

  lemma InsertionOrderHasKeys(tools: Tools, rows: seq<Row>, n: nat, order: seq<string>, best: map<string, Row>,
                              at: map<string, nat>)
    requires n <= |rows| && AllStamped(tools, rows) && Progress(tools, rows, n, order, best, at)
    ensures AllIn(order, best) && |order| <= n
  {
    forall a | 0 <= a < |order| ensures order[a] in best { assert order[a] in order; }
  }

  method ListValues(order: seq<string>, best: map<string, Row>) returns (kept: seq<Row>)
    requires AllIn(order, best)
    ensures Values(order, best, kept)
  {
    kept := [];
    for n := 0 to |order|
      invariant Values(order[..n], best, kept)
    {
      kept := kept + [best[order[n]]];
      assert order[..n + 1] == order[..n] + [order[n]];
    }
    assert order[..|order|] == order;
  }

  /** The dictionary loop: the newest row so far under each key, the first of them on a tie. */
  method Dedupe(tools: Tools, rows: seq<Row>) returns (kept: seq<Row>)
    requires AllStamped(tools, rows)
    ensures Deduped(tools, rows, kept)
    ensures |kept| <= |rows|
  {
    var order: seq<string> := [];
    var best: map<string, Row> := map[];
    ghost var at: map<string, nat> := map[];
    for i := 0 to |rows|
      invariant Progress(tools, rows, i, order, best, at)
    {
      var row := rows[i];
      var key := KeyOf(row);
      if key in best {
        IncumbentIsStamped(tools, rows, i, order, best, at, key);
      }
      if key !in best || EnrichedAt(tools, row) > EnrichedAt(tools, best[key]) {
        ReplacingProgresses(tools, rows, i, order, best, at);
        if key !in best {
          order := order + [key];
        }
        best := best[key := row];
        at := at[key := i];
      } else {
        KeepingProgresses(tools, rows, i, order, best, at);
      }
    }
    InsertionOrderHasKeys(tools, rows, |rows|, order, best, at);
    kept := ListValues(order, best);
    ValuesAreDeduped(tools, rows, order, best, at, kept);
  }
}
