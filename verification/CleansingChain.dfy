/**
 * The last cleansing step, suppression and cooldown (cleansing/steps/suppress.py), over a store of
 * its own on the shared log, and the five steps end to end.
 */
module CleansingChain {
  import opened Common
  import opened EventLog
  import opened SuppressionStore
  import opened Cleansing
  import EmailNormalization
  import TextFolding

  datatype Verdict = Stay | Suppressed | InCooldown

  datatype StepError = NoContact | UnusableLastContact(text: string)

  datatype Partition = Partition(kept: seq<Row>, excluded: seq<(Row, Verdict)>)

  /** Contacted within the window before `asOf`; times of different awareness cannot be compared. */
  function Cooling(tools: Tools, asOf: Timestamp, window: int, row: Row): Result<bool, StepError> {
    if row.lastContacted.None? then Ok(false)
    else
      var last := tools.parse(row.lastContacted.value);
      if last.None? || last.value.aware != asOf.aware then Err(UnusableLastContact(row.lastContacted.value))
      else Ok(asOf.instant - last.value.instant < window)
  }

  /** Never contacted, or at a time whose window is over. */
  predicate Rested(tools: Tools, asOf: Timestamp, window: int, row: Row) {
    row.lastContacted.Some? ==>
      var last := tools.parse(row.lastContacted.value);
      last.Some? && last.value.aware == asOf.aware && last.value.instant + window <= asOf.instant
  }

  /** Contacted at a time whose window still runs. */
  predicate Recent(tools: Tools, asOf: Timestamp, window: int, row: Row) {
    && row.lastContacted.Some?
    && var last := tools.parse(row.lastContacted.value);
       last.Some? && last.value.aware == asOf.aware && last.value.instant + window > asOf.instant
  }

  /** Contacted at a time nobody can compare. */
  predicate Undatable(tools: Tools, asOf: Timestamp, row: Row, text: string) {
    && row.lastContacted == Some(text)
    && (tools.parse(text) == None || tools.parse(text).value.aware != asOf.aware)
  }

  lemma CoolingMeaning(tools: Tools, asOf: Timestamp, window: int, row: Row)
    ensures match Cooling(tools, asOf, window, row)
            case Ok(cooling) => if cooling then Recent(tools, asOf, window, row) else Rested(tools, asOf, window, row)
            case Err(error) => error.UnusableLastContact? && Undatable(tools, asOf, row, error.text)
  {
  }

  function Staying(rows: seq<Row>, verdicts: seq<Verdict>): seq<Row>
    requires |rows| == |verdicts|
  {
    if rows == [] then []
    else
      var n := |rows| - 1;
      Staying(rows[..n], verdicts[..n]) + (if verdicts[n] == Stay then [rows[n]] else [])
  }

  function Leaving(rows: seq<Row>, verdicts: seq<Verdict>): seq<(Row, Verdict)>
    requires |rows| == |verdicts|
  {
    if rows == [] then []
    else
      var n := |rows| - 1;
      Leaving(rows[..n], verdicts[..n]) + (if verdicts[n] == Stay then [] else [(rows[n], verdicts[n])])
  }

  lemma {:induction false} EveryRowIsPlaced(rows: seq<Row>, verdicts: seq<Verdict>)
    requires |rows| == |verdicts|
    ensures |Staying(rows, verdicts)| + |Leaving(rows, verdicts)| == |rows|
  {
    if rows == [] {
    } else {
      EveryRowIsPlaced(rows[..|rows| - 1], verdicts[..|rows| - 1]);
    }
  }

  /** Places in ascending order. */
  ghost predicate Ascend(places: seq<nat>) { forall a, b :: 0 <= a < b < |places| ==> places[a] < places[b] }

  /** Where the staying rows stood: their places ascend, so order and distinctness carry over. */
  ghost predicate StayAt(rows: seq<Row>, verdicts: seq<Verdict>, places: seq<nat>, stay: seq<Row>)
    requires |rows| == |verdicts|
  {
    |places| == |stay| && forall a :: 0 <= a < |places| ==>
      places[a] < |rows| && verdicts[places[a]] == Stay && stay[a] == rows[places[a]]
  }

  ghost predicate LeaveAt(rows: seq<Row>, verdicts: seq<Verdict>, places: seq<nat>, leave: seq<(Row, Verdict)>)
    requires |rows| == |verdicts|
  {
    |places| == |leave| && forall a :: 0 <= a < |places| ==>
      places[a] < |rows| && verdicts[places[a]] != Stay && leave[a] == (rows[places[a]], verdicts[places[a]])
  }

  lemma {:induction false} StayingPlaces(rows: seq<Row>, verdicts: seq<Verdict>) returns (places: seq<nat>)
    requires |rows| == |verdicts|
    ensures Ascend(places) && StayAt(rows, verdicts, places, Staying(rows, verdicts))
  {
    places := [];
    if rows == [] {
    } else {
      var n := |rows| - 1;
      places := StayingPlaces(rows[..n], verdicts[..n]);
      StayOneMore(rows, verdicts, places, Staying(rows[..n], verdicts[..n]));
      if verdicts[n] == Stay {
        places := places + [n];
      }
    }
  }

  lemma StayOneMore(rows: seq<Row>, verdicts: seq<Verdict>, places: seq<nat>, stay: seq<Row>)
    requires |rows| == |verdicts| > 0
    requires Ascend(places) && StayAt(rows[..|rows| - 1], verdicts[..|rows| - 1], places, stay)
    ensures StayAt(rows, verdicts, places, stay)
    ensures var n := |rows| - 1;
            verdicts[n] == Stay ==> Ascend(places + [n]) && StayAt(rows, verdicts, places + [n], stay + [rows[n]])
  {
  }

  lemma {:induction false} LeavingPlaces(rows: seq<Row>, verdicts: seq<Verdict>) returns (places: seq<nat>)
    requires |rows| == |verdicts|
    ensures Ascend(places) && LeaveAt(rows, verdicts, places, Leaving(rows, verdicts))
  {
    places := [];
    if rows == [] {
    } else {
      var n := |rows| - 1;
      places := LeavingPlaces(rows[..n], verdicts[..n]);
      LeaveOneMore(rows, verdicts, places, Leaving(rows[..n], verdicts[..n]));
      if verdicts[n] != Stay {
        places := places + [n];
      }
    }
  }

  lemma LeaveOneMore(rows: seq<Row>, verdicts: seq<Verdict>, places: seq<nat>, leave: seq<(Row, Verdict)>)
    requires |rows| == |verdicts| > 0
    requires Ascend(places) && LeaveAt(rows[..|rows| - 1], verdicts[..|rows| - 1], places, leave)
    ensures LeaveAt(rows, verdicts, places, leave)
    ensures var n := |rows| - 1;
            verdicts[n] != Stay ==>
              Ascend(places + [n]) && LeaveAt(rows, verdicts, places + [n], leave + [(rows[n], verdicts[n])])
  {
  }

  /** No row goes missing: where its verdict sends it, there it is. */
  lemma {:induction false} RowIsFound(rows: seq<Row>, verdicts: seq<Verdict>, i: nat)
    requires |rows| == |verdicts| && i < |rows|
    ensures if verdicts[i] == Stay then rows[i] in Staying(rows, verdicts)
            else (rows[i], verdicts[i]) in Leaving(rows, verdicts)
  {
    var n := |rows| - 1;
    if i == n {
    } else {
      RowIsFound(rows[..n], verdicts[..n], i);
    }
  }

  ghost predicate NamedBy(tools: Tools, row: Row, v: LogView) {
    NamedIn(tools.norm, row.phone, row.email, v.objects.Keys, v.objects)
  }

  /** What a row's verdict says of the log when the step began, and of the log when it ended. */
  ghost predicate Judged(tools: Tools, asOf: Timestamp, window: int, row: Row, verdict: Verdict,
                         start: LogView, end: LogView)
  {
    if verdict == Suppressed then
      NamedBy(tools, row, end) || Unnormalizable(tools.norm, row.phone, row.email)
    else
      && !NamedBy(tools, row, start)
      && !Unnormalizable(tools.norm, row.phone, row.email)
      && if verdict == InCooldown then Recent(tools, asOf, window, row) else Rested(tools, asOf, window, row)
  }

  lemma JudgedUnderGrowth(tools: Tools, asOf: Timestamp, window: int, row: Row, verdict: Verdict,
                          start: LogView, mid: LogView, end: LogView)
    requires Judged(tools, asOf, window, row, verdict, start, mid) && Grows(mid, end)
    ensures Judged(tools, asOf, window, row, verdict, start, end)
  {
    if NamedBy(tools, row, mid) {
      NamedUnderGrowth(tools, row, mid.objects.Keys, mid, end);
    }
  }

  lemma NamedUnderGrowth(tools: Tools, row: Row, keys: set<Key>, v: LogView, w: LogView)
    requires Grows(v, w) && NamedIn(tools.norm, row.phone, row.email, keys, v.objects)
    ensures NamedIn(tools.norm, row.phone, row.email, keys, w.objects) && NamedBy(tools, row, w)
  {
    var k :| k in keys && k in v.objects && Names(tools.norm, row.phone, row.email, v.objects[k].identifier);
    KeptUnderGrowth(k, v, w);
  }

  /** The store's answer, from a cache that knows everything the log held at the start. */
  lemma AnswerIsAJudgement(tools: Tools, row: Row, suppressed: bool, seen: set<Key>, start: LogView, now: LogView)
    requires Grows(start, now) && start.objects.Keys <= seen <= now.objects.Keys
    requires suppressed <==> NamedIn(tools.norm, row.phone, row.email, seen, now.objects)
                             || Unnormalizable(tools.norm, row.phone, row.email)
    ensures suppressed ==> NamedBy(tools, row, now) || Unnormalizable(tools.norm, row.phone, row.email)
    ensures !suppressed ==> !NamedBy(tools, row, start) && !Unnormalizable(tools.norm, row.phone, row.email)
  {
    if NamedBy(tools, row, start) {
      NamedUnderGrowth(tools, row, start.objects.Keys, start, now);
      assert NamedIn(tools.norm, row.phone, row.email, seen, now.objects);
    }
  }

  ghost predicate AllJudged(tools: Tools, asOf: Timestamp, window: int, rows: seq<Row>, verdicts: seq<Verdict>,
                            start: LogView, end: LogView)
    requires |verdicts| <= |rows|
  {
    forall i :: 0 <= i < |verdicts| ==> Judged(tools, asOf, window, rows[i], verdicts[i], start, end)
  }

  lemma AllJudgedUnderGrowth(tools: Tools, asOf: Timestamp, window: int, rows: seq<Row>, verdicts: seq<Verdict>,
                             start: LogView, mid: LogView, end: LogView)
    requires |verdicts| <= |rows| && AllJudged(tools, asOf, window, rows, verdicts, start, mid) && Grows(mid, end)
    ensures AllJudged(tools, asOf, window, rows, verdicts, start, end)
  {
    forall i | 0 <= i < |verdicts| ensures Judged(tools, asOf, window, rows[i], verdicts[i], start, end) {
      JudgedUnderGrowth(tools, asOf, window, rows[i], verdicts[i], start, mid, end);
    }
  }

  /** A row's check at a moment between: unless it suppressed, nothing thirty seconds old by then named the row. */
  ghost predicate AskedAt(tools: Tools, row: Row, verdict: Verdict, at: LogView, start: LogView, end: LogView) {
    && Grows(start, at) && Grows(at, end)
    && (verdict != Suppressed ==> NoOldEventNames(tools, row, at))
  }

  ghost predicate NoOldEventNames(tools: Tools, row: Row, at: LogView) {
    forall k :: OldEnough(at, k) ==> !Names(tools.norm, row.phone, row.email, at.objects[k].identifier)
  }

  ghost predicate AllAsked(tools: Tools, rows: seq<Row>, verdicts: seq<Verdict>, asked: seq<LogView>,
                           start: LogView, end: LogView)
    requires |asked| == |verdicts| <= |rows|
  {
    forall i :: 0 <= i < |asked| ==> AskedAt(tools, rows[i], verdicts[i], asked[i], start, end)
  }

  lemma AllAskedUnderGrowth(tools: Tools, rows: seq<Row>, verdicts: seq<Verdict>, asked: seq<LogView>,
                            start: LogView, mid: LogView, end: LogView)
    requires |asked| == |verdicts| <= |rows| && AllAsked(tools, rows, verdicts, asked, start, mid) && Grows(mid, end)
    ensures AllAsked(tools, rows, verdicts, asked, start, end)
  {
    forall i | 0 <= i < |asked| ensures AskedAt(tools, rows[i], verdicts[i], asked[i], start, end) {
      GrowsTransitive(asked[i], mid, end);
    }
  }

  /** Why the step can stop: a row with no contact, or one whose last contact cannot be dated. */
  predicate Stops(tools: Tools, asOf: Timestamp, row: Row, error: StepError) {
    if error == NoContact then row.phone.None? && row.email.None?
    else Undatable(tools, asOf, row, error.text)
  }

  /** One row: asked of the store first, then the cooldown. */
  method JudgeRow(tools: Tools, store: Store, asOf: Timestamp, window: int, row: Row, ghost start: LogView)
    returns (r: Result<Verdict, StepError>)
    requires store.Valid() && store.norm == tools.norm && WellFormed(start) && Grows(start, store.log.View())
    requires store.loadedAt.None? || start.objects.Keys <= store.seen
    modifies store, store.log
    ensures store.Valid() && Grows(old(store.log.View()), store.log.View())
    ensures r.Err? ==> Stops(tools, asOf, row, r.error)
    ensures r.Ok? ==> store.loadedAt.Some? && start.objects.Keys <= store.seen
    ensures r.Ok? ==> Judged(tools, asOf, window, row, r.value, start, store.log.View())
    ensures r.Ok? && r.value != Suppressed ==> NoOldEventNames(tools, row, old(store.log.View()))
  {
    GrowsKeepsKeys(start, store.log.View());
    ghost var before := store.log.View();
    var answer := store.IsSuppressed(row.phone, row.email);
    if answer.Err? {
      return Err(NoContact);
    }
    GrowsTransitive(start, before, store.log.View());
    AnswerIsAJudgement(tools, row, answer.value.suppressed, store.seen, start, store.log.View());
    if answer.value.suppressed {
      return Ok(Suppressed);
    }
    var cooling := Cooling(tools, asOf, window, row);
    CoolingMeaning(tools, asOf, window, row);
    match cooling {
      case Err(error) => return Err(error);
      case Ok(yes) => return Ok(if yes then InCooldown else Stay);
    }
  }

  lemma PlacedOneMore(rows: seq<Row>, verdicts: seq<Verdict>, verdict: Verdict)
    requires |verdicts| < |rows|
    ensures var n := |verdicts|;
            && Staying(rows[..n + 1], verdicts + [verdict])
               == Staying(rows[..n], verdicts) + (if verdict == Stay then [rows[n]] else [])
            && Leaving(rows[..n + 1], verdicts + [verdict])
               == Leaving(rows[..n], verdicts) + (if verdict == Stay then [] else [(rows[n], verdict)])
  {
    var n := |verdicts|;
    assert rows[..n + 1][..n] == rows[..n] && (verdicts + [verdict])[..n] == verdicts;
  }

  /** The log view and the store a row's check starts from. */
  ghost predicate Asking(tools: Tools, store: Store, start: LogView)
    reads store, store.log
  {
    && store.Valid() && store.norm == tools.norm && WellFormed(start) && Grows(start, store.log.View())
    && (store.loadedAt.None? || start.objects.Keys <= store.seen)
  }

  /** One turn of the step: others use the log, then the row is judged. */
  method NextRow(tools: Tools, store: Store, asOf: Timestamp, window: int, rows: seq<Row>, ghost verdicts: seq<Verdict>,
                 i: nat, ghost asked: seq<LogView>, ghost start: LogView)
    returns (r: Result<Verdict, StepError>, ghost at: LogView)
    requires Asking(tools, store, start) && i == |asked| == |verdicts| < |rows|
    requires AllJudged(tools, asOf, window, rows, verdicts, start, store.log.View())
    requires AllAsked(tools, rows, verdicts, asked, start, store.log.View())
    modifies store, store.log
    ensures Grows(old(store.log.View()), store.log.View())
    ensures r.Err? ==> store.Valid() && Grows(start, store.log.View()) && Stops(tools, asOf, rows[i], r.error)
    ensures r.Ok? ==> Asking(tools, store, start)
    ensures r.Ok? ==> AllJudged(tools, asOf, window, rows, verdicts + [r.value], start, store.log.View())
    ensures r.Ok? ==> AllAsked(tools, rows, verdicts + [r.value], asked + [at], start, store.log.View())
  {
    ghost var before := store.log.View();
    store.Meanwhile();
    at := store.log.View();
    GrowsTransitive(start, before, at);
    r := JudgeRow(tools, store, asOf, window, rows[i], start);
    ghost var end := store.log.View();
    GrowsTransitive(before, at, end);
    GrowsTransitive(start, at, end);
    AllJudgedUnderGrowth(tools, asOf, window, rows, verdicts, start, before, end);
    AllAskedUnderGrowth(tools, rows, verdicts, asked, start, before, end);
  }

  /** The step: rows in order, each kept or excluded with its reason; others write before every row. */
  method Suppress(tools: Tools, log: Log, rows: seq<Row>, asOf: Timestamp, window: int)
    returns (r: Result<Partition, StepError>, ghost verdicts: seq<Verdict>, ghost asked: seq<LogView>)
    requires log.Valid()
    modifies log
    ensures log.Valid() && Grows(old(log.View()), log.View())
    ensures r.Ok? ==> |verdicts| == |rows|
    ensures r.Ok? ==> AllJudged(tools, asOf, window, rows, verdicts, old(log.View()), log.View())
    ensures r.Ok? ==> |asked| == |rows| && AllAsked(tools, rows, verdicts, asked, old(log.View()), log.View())
    ensures r.Ok? ==> r.value == Partition(Staying(rows, verdicts), Leaving(rows, verdicts))
    ensures r.Err? ==> exists i :: 0 <= i < |rows| && Stops(tools, asOf, rows[i], r.error)
  {
    var store := new Store(log, tools.norm);
    ghost var start := log.View();
    WaitingGrows(start, 0);
    var kept: seq<Row> := [];
    var excluded: seq<(Row, Verdict)> := [];
    verdicts, asked := [], [];
    for i := 0 to |rows|
      invariant store.log == log && fresh(store) && Asking(tools, store, start)
      invariant |verdicts| == i && AllJudged(tools, asOf, window, rows, verdicts, start, log.View())
      invariant |asked| == i && AllAsked(tools, rows, verdicts, asked, start, log.View())
      invariant kept == Staying(rows[..i], verdicts) && excluded == Leaving(rows[..i], verdicts)
    {
      var verdict, at := NextRow(tools, store, asOf, window, rows, verdicts, i, asked, start);
      if verdict.Err? {
        return Err(verdict.error), verdicts, asked;
      }
      PlacedOneMore(rows, verdicts, verdict.value);
      verdicts, asked := verdicts + [verdict.value], asked + [at];
      if verdict.value == Stay {
        kept := kept + [rows[i]];
      } else {
        excluded := excluded + [(rows[i], verdict.value)];
      }
    }
    assert rows[..|rows|] == rows;
    r := Ok(Partition(kept, excluded));
  }

  // --- end to end ----------------------------------------------------------------------

  /** What the rules make of a phone can be read again, is not empty and never holds the key separator. */
  predicate ReadablePhone(norm: Normalizer, raw: string) {
    norm.phone(raw).Some? ==>
      var phone := norm.phone(raw).value;
      norm.phone(phone).Some? && phone != "" && '|' !in phone
  }

  predicate ReadableEmail(norm: Normalizer, raw: string) {
    norm.email(raw).Some? ==> norm.email(norm.email(raw).value).Some? && norm.email(raw).value != ""
  }

  /** What the chain asks of the normalizer, on the identifiers it is given and on no others. */
  ghost predicate ReadableOn(norm: Normalizer, rows: seq<Row>) {
    forall r :: r in rows ==> RowReads(norm, r)
  }

  predicate RowReads(norm: Normalizer, r: Row) {
    (r.phone.Some? ==> ReadablePhone(norm, r.phone.value)) && (r.email.Some? ==> ReadableEmail(norm, r.email.value))
  }

  /** The email rules meet their half on every address: the canonical form is read, if not as itself. */
  lemma EmailsAreReadable(phone: string -> Option<string>, raw: string)
    requires TextFolding.OverAccentedAlphabet(raw)
    ensures ReadableEmail(Normalizer(phone, EmailNormalization.NormalizeEmail), raw)
  {
    if EmailNormalization.NormalizeEmail(raw).Some? {
      EmailNormalization.CanonicalIsComposed(raw);
    }
  }

  /** Normalizing again changes nothing. */
  predicate SettledEmail(norm: Normalizer, raw: string) {
    norm.email(raw).Some? ==> norm.email(norm.email(raw).value) == norm.email(raw)
  }

  /**
   * The email rules settle on an address exactly when its canonical form holds no letter right before
   * an accent it composes with; without a zero-width character in the address they always do.
   */
  lemma EmailSettlesIff(phone: string -> Option<string>, raw: string)
    requires TextFolding.OverAccentedAlphabet(raw) && EmailNormalization.NormalizeEmail(raw).Some?
    ensures SettledEmail(Normalizer(phone, EmailNormalization.NormalizeEmail), raw) <==>
            !TextFolding.Composable(EmailNormalization.NormalizeEmail(raw).value)
    ensures (forall i :: 0 <= i < |raw| ==> !TextFolding.ZeroWidth(raw[i])) ==>
            SettledEmail(Normalizer(phone, EmailNormalization.NormalizeEmail), raw)
  {
    EmailNormalization.CanonicalIsNormalIff(raw);
    if forall i :: 0 <= i < |raw| ==> !TextFolding.ZeroWidth(raw[i]) {
      EmailNormalization.NoZeroWidthSettles(raw);
    }
  }

  /**
   * A canonical row finds the opt-out of the address it came from exactly then: the event holds the
   * canonical form, the row's check composes that once more and looks for the result.
   */
  lemma OptOutIsFoundIff(phone: string -> Option<string>, raw: string, event: Event)
    requires TextFolding.OverAccentedAlphabet(raw) && EmailNormalization.NormalizeEmail(raw) == Some(event.identifier)
    ensures var norm := Normalizer(phone, EmailNormalization.NormalizeEmail);
            && (Names(norm, None, Some(event.identifier), event.identifier) <==>
                !TextFolding.Composable(event.identifier))
            && Names(norm, None, Some(event.identifier), TextFolding.Compose(event.identifier))
  {
    EmailNormalization.CanonicalIsNormalIff(raw);
    EmailNormalization.CanonicalIsComposed(raw);
  }

  /** A row fit to contact: dated, with at least one identifier, each one readable and in canonical form. */
  predicate Fit(tools: Tools, row: Row) {
    && Stamped(tools, row) && (row.phone.Some? || row.email.Some?)
    && (row.phone.Some? ==>
          tools.norm.phone(row.phone.value).Some? && row.phone.value != "" && '|' !in row.phone.value)
    && (row.email.Some? ==> tools.norm.email(row.email.value).Some? && row.email.value != "")
  }

  predicate Ready(tools: Tools, stage: Stage, row: Row) {
    match stage
    case Schema => Stamped(tools, row)
    case Normalize => Fit(tools, row)
    case Validate => Fit(tools, row) && (row.email.Some? ==> tools.mx(DomainOf(row.email.value)))
  }

  /** Every stage hands on rows ready for the next. */
  lemma PassingIsReady(tools: Tools, stage: Stage, row: Row)
    requires stage == Normalize ==> Ready(tools, Schema, row) && RowReads(tools.norm, row)
    requires stage == Validate ==> Ready(tools, Normalize, row)
    requires Decide(tools, stage, row).Ok?
    ensures Ready(tools, stage, Decide(tools, stage, row).value)
  {
  }

  ghost predicate AllReady(tools: Tools, stage: Stage, rows: seq<Row>) {
    forall r :: r in rows ==> Ready(tools, stage, r)
  }

  lemma PassingAreReady(tools: Tools, stage: Stage, rows: seq<Row>)
    requires stage == Normalize ==> AllReady(tools, Schema, rows) && ReadableOn(tools.norm, rows)
    requires stage == Validate ==> AllReady(tools, Normalize, rows)
    ensures AllReady(tools, stage, Passing(tools, stage, rows))
  {
    PassingComeFromRows(tools, stage, rows);
    forall r | r in Passing(tools, stage, rows) ensures Ready(tools, stage, r) {
      var q :| q in rows && Decide(tools, stage, q) == Ok(r);
      PassingIsReady(tools, stage, q);
    }
  }

  function Validated(tools: Tools, rows: seq<Row>): seq<Row> {
    Passing(tools, Validate, Passing(tools, Normalize, Passing(tools, Schema, rows)))
  }

  /** What the three quarantining steps turn away, in order. */
  function TurnedAway(tools: Tools, rows: seq<Row>): seq<(Row, Reason)> {
    var valid := Passing(tools, Schema, rows);
    Quarantined(tools, Schema, rows) + Quarantined(tools, Normalize, valid)
    + Quarantined(tools, Validate, Passing(tools, Normalize, valid))
  }

  lemma SchemaKeepsIdentifiers(tools: Tools, rows: seq<Row>)
    requires ReadableOn(tools.norm, rows)
    ensures ReadableOn(tools.norm, Passing(tools, Schema, rows))
  {
    PassingComeFromRows(tools, Schema, rows);
    forall r | r in Passing(tools, Schema, rows) ensures RowReads(tools.norm, r) {
      var q :| q in rows && Decide(tools, Schema, q) == Ok(r);
      assert RowReads(tools.norm, q);
    }
  }

  lemma ValidatedAreReady(tools: Tools, rows: seq<Row>)
    requires ReadableOn(tools.norm, rows)
    ensures AllReady(tools, Validate, Validated(tools, rows))
  {
    PassingAreReady(tools, Schema, rows);
    SchemaKeepsIdentifiers(tools, rows);
    PassingAreReady(tools, Normalize, Passing(tools, Schema, rows));
    PassingAreReady(tools, Validate, Passing(tools, Normalize, Passing(tools, Schema, rows)));
  }

  ghost predicate AllDated(tools: Tools, rows: seq<Row>) { forall r :: r in rows ==> Stamped(tools, r) }

  lemma PassingAreDated(tools: Tools, stage: Stage, rows: seq<Row>)
    requires stage != Schema ==> AllDated(tools, rows)
    ensures AllDated(tools, Passing(tools, stage, rows))
  {
    PassingComeFromRows(tools, stage, rows);
    forall r | r in Passing(tools, stage, rows) ensures Stamped(tools, r) {
      var q :| q in rows && Decide(tools, stage, q) == Ok(r);
    }
  }

  /** Dates survive the steps whatever the normalizer does. */
  lemma ValidatedAreStamped(tools: Tools, rows: seq<Row>)
    ensures AllStamped(tools, Validated(tools, rows))
  {
    var valid := Passing(tools, Schema, rows);
    PassingAreDated(tools, Schema, rows);
    PassingAreDated(tools, Normalize, valid);
    PassingAreDated(tools, Validate, Passing(tools, Normalize, valid));
    var validated := Validated(tools, rows);
    forall i | 0 <= i < |validated| ensures Stamped(tools, validated[i]) { assert validated[i] in validated; }
  }

  lemma ChosenAreReady(tools: Tools, validated: seq<Row>, kept: seq<Row>)
    requires AllReady(tools, Validate, validated) && AllStamped(tools, validated) && Deduped(tools, validated, kept)
    ensures AllReady(tools, Validate, kept)
  {
    forall r | r in kept ensures Ready(tools, Validate, r) {
      var i :| 0 <= i < |kept| && kept[i] == r;
      assert Chosen(tools, validated, kept[i]);
      var j: nat :| NewestOfItsKey(tools, validated, |validated|, j) && validated[j] == kept[i];
      assert validated[j] in validated;
    }
  }

  predicate SameContact(a: Row, b: Row) { a.phone == b.phone && a.email == b.email }

  ghost predicate DistinctContacts(rows: seq<Row>) {
    forall i, j :: 0 <= i < j < |rows| ==> !SameContact(rows[i], rows[j])
  }

  /** Keys and contacts tell fit rows apart alike. */
  lemma KeysAreContacts(tools: Tools, a: Row, b: Row)
    requires Fit(tools, a) && Fit(tools, b)
    ensures KeyOf(a) == KeyOf(b) <==> SameContact(a, b)
  {
    KeyIsInjective(a.phone, a.email, b.phone, b.email);
  }

  function RowsOf(excluded: seq<(Row, Verdict)>): seq<Row> {
    seq(|excluded|, i requires 0 <= i < |excluded| => excluded[i].0)
  }

  /** At some moment of the chain the row was checked against all that was thirty seconds old then. */
  ghost predicate Cleared(tools: Tools, row: Row, start: LogView, end: LogView) {
    exists at :: AskedAt(tools, row, Stay, at, start, end)
  }

  /**
   * A staged row: fit, the newest of its contact, and neither in cooldown nor opted out, by an event
   * from before the chain or by one thirty seconds old when its turn came.
   */
  ghost predicate Deliverable(tools: Tools, asOf: Timestamp, window: int, validated: seq<Row>, start: LogView,
                              end: LogView, row: Row)
    requires AllStamped(tools, validated)
  {
    && Ready(tools, Validate, row) && Chosen(tools, validated, row) && Rested(tools, asOf, window, row)
    && !NamedBy(tools, row, start) && Cleared(tools, row, start, end)
  }

  /** An excluded row: fit and the newest of its contact, but opted out by an event of the log or in cooldown. */
  ghost predicate Withheld(tools: Tools, asOf: Timestamp, window: int, validated: seq<Row>, end: LogView,
                           x: (Row, Verdict))
    requires AllStamped(tools, validated)
  {
    && Ready(tools, Validate, x.0) && Chosen(tools, validated, x.0)
    && match x.1
       case Suppressed => NamedBy(tools, x.0, end)
       case InCooldown => Recent(tools, asOf, window, x.0)
       case Stay => false
  }

  lemma StayingAreDeliverable(tools: Tools, asOf: Timestamp, window: int, validated: seq<Row>, kept: seq<Row>,
                              verdicts: seq<Verdict>, asked: seq<LogView>, start: LogView, end: LogView)
    requires AllReady(tools, Validate, validated) && AllStamped(tools, validated) && Deduped(tools, validated, kept)
    requires |asked| == |verdicts| == |kept| && AllJudged(tools, asOf, window, kept, verdicts, start, end)
    requires AllAsked(tools, kept, verdicts, asked, start, end)
    ensures forall r :: r in Staying(kept, verdicts) ==> Deliverable(tools, asOf, window, validated, start, end, r)
  {
    var places := StayingPlaces(kept, verdicts);
    ChosenAreReady(tools, validated, kept);
    forall r | r in Staying(kept, verdicts) ensures Deliverable(tools, asOf, window, validated, start, end, r) {
      var a :| 0 <= a < |places| && Staying(kept, verdicts)[a] == r;
      var p := places[a];
      assert Judged(tools, asOf, window, kept[p], verdicts[p], start, end);
      assert AskedAt(tools, kept[p], verdicts[p], asked[p], start, end);
      assert kept[p] in kept && Chosen(tools, validated, kept[p]);
    }
  }

  /** With readable identifiers nothing is excluded as unreadable: a suppressed row has its event. */
  lemma LeavingAreWithheld(tools: Tools, asOf: Timestamp, window: int, validated: seq<Row>, kept: seq<Row>,
                           verdicts: seq<Verdict>, start: LogView, end: LogView)
    requires AllReady(tools, Validate, validated) && AllStamped(tools, validated) && Deduped(tools, validated, kept)
    requires |verdicts| == |kept| && AllJudged(tools, asOf, window, kept, verdicts, start, end)
    ensures forall x :: x in Leaving(kept, verdicts) ==> Withheld(tools, asOf, window, validated, end, x)
  {
    var places := LeavingPlaces(kept, verdicts);
    ChosenAreReady(tools, validated, kept);
    forall x | x in Leaving(kept, verdicts) ensures Withheld(tools, asOf, window, validated, end, x) {
      var a :| 0 <= a < |places| && Leaving(kept, verdicts)[a] == x;
      var p := places[a];
      assert kept[p] in kept && Chosen(tools, validated, kept[p]);
      JudgedIsWithheld(tools, asOf, window, validated, kept[p], verdicts[p], start, end);
    }
  }

  lemma JudgedIsWithheld(tools: Tools, asOf: Timestamp, window: int, validated: seq<Row>, row: Row, verdict: Verdict,
                         start: LogView, end: LogView)
    requires AllStamped(tools, validated) && Ready(tools, Validate, row) && Chosen(tools, validated, row)
    requires verdict != Stay && Judged(tools, asOf, window, row, verdict, start, end)
    ensures Withheld(tools, asOf, window, validated, end, (row, verdict))
  {
  }

  /** Two kept rows at different places are different contacts. */
  lemma KeptDiffer(tools: Tools, kept: seq<Row>, p: nat, q: nat)
    requires AllReady(tools, Validate, kept) && DistinctKeys(kept) && p < |kept| && q < |kept| && p != q
    ensures !SameContact(kept[p], kept[q])
  {
    assert kept[p] in kept && kept[q] in kept;
    KeysAreContacts(tools, kept[p], kept[q]);
    assert p < q ==> KeyOf(kept[p]) != KeyOf(kept[q]);
    assert q < p ==> KeyOf(kept[q]) != KeyOf(kept[p]);
  }

  /** All these rows stood at different places of `kept`. */
  ghost predicate ApartIn(kept: seq<Row>, rows: seq<Row>, places: seq<nat>) {
    && |places| == |rows| && (forall a :: 0 <= a < |rows| ==> places[a] < |kept| && rows[a] == kept[places[a]])
    && forall a, b :: 0 <= a < b < |places| ==> places[a] != places[b]
  }

  lemma OutcomePlaces(kept: seq<Row>, verdicts: seq<Verdict>) returns (places: seq<nat>)
    requires |verdicts| == |kept|
    ensures ApartIn(kept, Staying(kept, verdicts) + RowsOf(Leaving(kept, verdicts)), places)
  {
    var stays := StayingPlaces(kept, verdicts);
    var leaves := LeavingPlaces(kept, verdicts);
    places := stays + leaves;
    JoinedApart(kept, verdicts, stays, Staying(kept, verdicts), leaves, Leaving(kept, verdicts));
  }

  lemma JoinedApart(kept: seq<Row>, verdicts: seq<Verdict>, stays: seq<nat>, stay: seq<Row>, leaves: seq<nat>,
                    leave: seq<(Row, Verdict)>)
    requires |verdicts| == |kept| && Ascend(stays) && Ascend(leaves)
    requires StayAt(kept, verdicts, stays, stay) && LeaveAt(kept, verdicts, leaves, leave)
    ensures ApartIn(kept, stay + RowsOf(leave), stays + leaves)
  {
    var places := stays + leaves;
    forall a, b | 0 <= a < b < |places| ensures places[a] != places[b] {
      if a < |stays| <= b {
        assert verdicts[stays[a]] == Stay && verdicts[leaves[b - |stays|]] != Stay;
      }
    }
  }

  /** Staged and excluded rows together name every contact once. */
  lemma OutcomesAreDistinct(tools: Tools, kept: seq<Row>, verdicts: seq<Verdict>)
    requires AllReady(tools, Validate, kept) && DistinctKeys(kept) && |verdicts| == |kept|
    ensures DistinctContacts(Staying(kept, verdicts) + RowsOf(Leaving(kept, verdicts)))
  {
    var places := OutcomePlaces(kept, verdicts);
    ApartAreDistinct(tools, kept, Staying(kept, verdicts) + RowsOf(Leaving(kept, verdicts)), places);
  }

  lemma ApartAreDistinct(tools: Tools, kept: seq<Row>, rows: seq<Row>, places: seq<nat>)
    requires AllReady(tools, Validate, kept) && DistinctKeys(kept) && ApartIn(kept, rows, places)
    ensures DistinctContacts(rows)
  {
    forall a, b | 0 <= a < b < |rows| ensures !SameContact(rows[a], rows[b]) {
      KeptDiffer(tools, kept, places[a], places[b]);
    }
  }

  /** Somewhere among the rows this contact is found. */
  ghost predicate Found(rows: seq<Row>, r: Row) { exists q :: q in rows && SameContact(q, r) }

  /** A kept row is among the staged or the excluded rows. */
  lemma KeptIsFound(kept: seq<Row>, verdicts: seq<Verdict>, a: nat)
    requires |verdicts| == |kept| && a < |kept|
    ensures kept[a] in Staying(kept, verdicts) + RowsOf(Leaving(kept, verdicts))
  {
    var stay, leave := Staying(kept, verdicts), Leaving(kept, verdicts);
    RowIsFound(kept, verdicts, a);
    if verdicts[a] != Stay {
      var k :| 0 <= k < |leave| && leave[k] == (kept[a], verdicts[a]);
      assert RowsOf(leave)[k] == kept[a];
    }
  }

  lemma ContactIsFound(tools: Tools, kept: seq<Row>, verdicts: seq<Verdict>, v: Row)
    requires AllReady(tools, Validate, kept) && Ready(tools, Validate, v) && Represented(kept, v)
    requires |verdicts| == |kept|
    ensures Found(Staying(kept, verdicts) + RowsOf(Leaving(kept, verdicts)), v)
  {
    var a :| 0 <= a < |kept| && KeyOf(kept[a]) == KeyOf(v);
    assert kept[a] in kept;
    KeysAreContacts(tools, kept[a], v);
    KeptIsFound(kept, verdicts, a);
  }

  /** Every validated contact is among the staged or the excluded rows. */
  lemma ContactsAreFound(tools: Tools, validated: seq<Row>, kept: seq<Row>, verdicts: seq<Verdict>)
    requires AllReady(tools, Validate, validated) && AllStamped(tools, validated) && Deduped(tools, validated, kept)
    requires |verdicts| == |kept|
    ensures AllFound(Staying(kept, verdicts) + RowsOf(Leaving(kept, verdicts)), validated)
  {
    ChosenAreReady(tools, validated, kept);
    forall v | v in validated ensures Found(Staying(kept, verdicts) + RowsOf(Leaving(kept, verdicts)), v) {
      var i :| 0 <= i < |validated| && validated[i] == v;
      assert Represented(kept, validated[i]);
      ContactIsFound(tools, kept, verdicts, v);
    }
  }

  ghost predicate AllFound(rows: seq<Row>, contacts: seq<Row>) { forall v :: v in contacts ==> Found(rows, v) }

  datatype Report = Report(staged: seq<Row>, quarantined: seq<(Row, Reason)>, duplicates: nat,
                           excluded: seq<(Row, Verdict)>)

  /** Every input row is in one place, and each place holds what it should. */
  ghost predicate Accounted(tools: Tools, rows: seq<Row>, report: Report)
    requires AllStamped(tools, Validated(tools, rows))
  {
    var validated, outcomes := Validated(tools, rows), report.staged + RowsOf(report.excluded);
    && |rows| == |report.staged| + |report.quarantined| + report.duplicates + |report.excluded|
    && report.quarantined == TurnedAway(tools, rows)
    && report.duplicates == |Superseded(tools, validated)|
    && DistinctContacts(outcomes)
    && AllFound(outcomes, validated)
  }

  lemma ChainAccounts(tools: Tools, rows: seq<Row>, kept: seq<Row>, verdicts: seq<Verdict>)
    requires AllStamped(tools, Validated(tools, rows)) && Deduped(tools, Validated(tools, rows), kept)
    requires AllReady(tools, Validate, Validated(tools, rows)) && |verdicts| == |kept| <= |Validated(tools, rows)|
    ensures Accounted(tools, rows, Report(Staying(kept, verdicts), TurnedAway(tools, rows),
                                          |Validated(tools, rows)| - |kept|, Leaving(kept, verdicts)))
  {
    var valid, validated := Passing(tools, Schema, rows), Validated(tools, rows);
    NothingDropped(tools, Schema, rows);
    NothingDropped(tools, Normalize, valid);
    NothingDropped(tools, Validate, Passing(tools, Normalize, valid));
    KeptAreTheNewest(tools, validated, kept);
    ChosenAreReady(tools, validated, kept);
    EveryRowIsPlaced(kept, verdicts);
    OutcomesAreDistinct(tools, kept, verdicts);
    ContactsAreFound(tools, validated, kept, verdicts);
  }

  /** The chain: every row is accounted for, what is staged may be contacted, what is excluded may not. */
  method Cleanse(tools: Tools, log: Log, rows: seq<Row>, asOf: Timestamp, window: int)
    returns (r: Result<Report, StepError>)
    requires ReadableOn(tools.norm, rows) && log.Valid()
    modifies log
    ensures log.Valid() && Grows(old(log.View()), log.View())
    ensures AllStamped(tools, Validated(tools, rows))
    ensures r.Ok? ==> Accounted(tools, rows, r.value)
    ensures r.Ok? ==> forall s :: s in r.value.staged ==>
              Deliverable(tools, asOf, window, Validated(tools, rows), old(log.View()), log.View(), s)
    ensures r.Ok? ==> forall x :: x in r.value.excluded ==>
              Withheld(tools, asOf, window, Validated(tools, rows), log.View(), x)
    ensures r.Err? ==> r.error.UnusableLastContact?
  {
    ghost var start := log.View();
    ValidatedAreReady(tools, rows);
    ValidatedAreStamped(tools, rows);
    var valid, badSchema := SchemaValidate(tools, rows);
    var normalized, badIdentity := NormalizeRows(tools, valid);
    var validated, badDomain := ValidateRows(tools, normalized);
    var kept := Dedupe(tools, validated);
    var outcome, verdicts, asked := Suppress(tools, log, kept, asOf, window);
    if outcome.Err? {
      ChosenAreReady(tools, validated, kept);
      forall i | 0 <= i < |kept| ensures Fit(tools, kept[i]) { assert kept[i] in kept; }
      return Err(outcome.error);
    }
    ChainAccounts(tools, rows, kept, verdicts);
    StayingAreDeliverable(tools, asOf, window, validated, kept, verdicts, asked, start, log.View());
    LeavingAreWithheld(tools, asOf, window, validated, kept, verdicts, start, log.View());
    var turnedAway := badSchema + badIdentity + badDomain;
    r := Ok(Report(outcome.value.kept, turnedAway, |validated| - |kept|, outcome.value.excluded));
  }
}
