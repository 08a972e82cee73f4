# Outreach compliance: a verified model

The outreach system may contact a lead only while nobody has opted out, within hourly limits, and
must carry every opt-out from an inbound SMS to a shared suppression list within a bounded time.
This project models that logic in Dafny and proves what it keeps, over every input, every run or
every interleaving.

| cluster | files |
|---|---|
| Suppression list: append-only log, paged listing, cache, snapshot, the API that appends | `EventLog`, `OptOutSet`, `Ordering`, `SuppressionStore`, `SuppressionApi` |
| Salesforce protocol: send chunks, webhooks, mirror jobs | `SendService`, `OrgProtocol` (the transition system), `OrgHandlers` (the Apex bodies that refine it), `SendGates`, `WebhookWrites`, `SendThrottle`, `OptOutSafety`, `WebhookOnce`, `MirrorDelivery`, `ReviewFlags`, `WebhookPhone`, `OptOutEndToEnd` |
| Guardrails: canonicalization, fuzzy matching, two implementations | `EditDistance`, `TextFolding`, `Guardrails`, `ErrorCodes`, `ApexGuardrails`, `GuardrailAccents`, `BounceAccents`, `RuleBook`, `ShortTexts`, `Buckets`, `TopicBook` |
| Batch transforms and arithmetic | `BusinessHours`, `EmailNormalization`, `Cleansing`, `CleansingChain`, `Reconcile`, `ReconcileRun`, `SmsSegments` |
| Parsers and the auto-chat bot | `Multipart`, `CsvParser`, `AutoChat` |

How it is put together:

- **Shared state is a class.** `EventLog.Log` is the bucket prefix with its clock; `Others` lets any
  number of other writers append and any time pass; the store calls it between pages and between
  object reads, the cleansing step before every row, the reconciliation before every addition and around
  its requests to the vendor. `SuppressionStore.Store` holds the cache and its load time, and its ghost fields say
  which events it has seen. `Valid` is an exact statement: the cache is the opt-out set of those events.
- **The Salesforce side is a transition system.** `OrgProtocol.Step` has one constructor per atomic
  database interaction; `Run` folds any sequence of them. The six safety files each prove an
  inductive invariant of `Run`. `OrgHandlers.Org` is the same code statement by statement, and each
  of its methods is proved to end in the state its transition names.
- **Every operation is also read off its results.** `RuleBook`, `TopicBook`, `SendGates` and
  `WebhookWrites` say with the numbers and words written out what a verdict, a topic, an outcome and a
  written record tell of the input, without the functions that compute them.
- **Loops keep their form.** Where the source runs a loop, a method runs it and is proved against an
  independent definition, about which the laws are then proved.

What the code does not do, each shown by concrete inputs or runs of the model, with the exact condition
where it does hold:

- A send chunk that rolls back after callouts, for one because a delivery status took a message id before
  the chunk's all-or-none insert, leaves those callouts unlogged and uncounted
  (`StatusCanOvertakeTheLog`). Callouts go missing exactly in such steps; without one no hour exceeds the
  limit, with them any number of callouts goes out within the hour, whatever the limit
  (`LostIffAChunkRollsBack`, `CalloutsWithinTheLimit`, `RollBacksEvadeAnyLimit`).
- A status stub with the id of an inbound message makes the inbound delivery look like a retry: it is
  answered 200 and never evaluated (`StubSwallowsTheDelivery`). An answered id was evaluated exactly
  when its record is an inbound one.
- A mirror execution that throws at its enqueue or its last update takes the job with it, unflagged. An
  opt-out is lost exactly when that happens and no request for its identifier has landed
  (`LostIffItsJobDied`, `FailingJobLosesAnOptOut`).
- A Suppressed status, unlike the opt-out flag, does not last: an edit, a chunk that had already sent, or
  a later reply overwrites it, and nothing else does (`SuppressedStatusChangesIff`, `StatusDoesNotLast`).
- NFKC runs before zero-width removal. A zero-width character between a letter and its accent keeps them
  apart for good: for every letter that composes there is a body that is an opt-out with the character
  out and none with it in (`ZeroWidthInvisibleIff`), an accented "end" the other way round
  (`AccentedEnd`), and an email whose stored opt-out is looked up under another address
  (`ZeroWidthUnsettles`, `OptOutIsFoundIff`).
- The port has no NFKC composition: on every letter followed by its accent the two implementations part
  (`AccentsPartTheImplementations`); they fold alike exactly where nothing composes.
- Where nothing composes, the two still read an uncomposed accent differently at the edge of an email's
  bounce code: to Python's `\w` it is no word character, to Java's `\b` it belongs to the letter or digit
  it stands on. With nothing before them in the rule order they name different rules exactly when every
  code in the body touches such an accent (`RulesDifferIff`), and one verdict exactly when the first code
  reads as the first untouched one (`ImplementationsAgreeIff`). "b", accent, "550" is such a body
  (`AccentHidesACode`). On SMS, and over the plain alphabet, they always agree.
- An opt-out's reason and source depend on listing order exactly when two events of the identifier's
  earliest time differ (`OrderIndependentIff`).
- The ten-digit wire form cannot carry a number from outside North America: it is pushed again every
  night, and a London number blocks a stranger who is then opted out on our side as well
  (`ForeignNumberOptsOutAStranger`). Reconciliation converges exactly for North American pushes.
- The webhook takes any ten-digit international number for a North American one, and reads no
  eleven-digit one that does not begin with 1 (`WhatIsKept`).
- An auto-chat send that raises after the vendor took the line is not counted: calls exceed the cap by at
  most the number of raising cycles, and for every cap and every number of them by exactly that
  (`RaisedCallsEvadeTheCap`); a closing line that raises leaves the thread open (`RaisedCloseStaysOpen`).
- The CSV parser drops a last record of one empty field when no line break follows it
  (`UnterminatedLastRow`).
- The port accepts channel names in any letter case, the reference does not
  (`UpperCaseChannelDisagrees`), although its header presents it as the port of that reference.

## Model

| member | source | states |
|---|---|---|
| EditDistance.WithinIsLevenshtein | src/guardrails/text.py:55-68 | the matrix-free test holds of two strings exactly when their recursively defined Levenshtein distance is at most 1, for all strings |
| EditDistance.ComputeWithinEditDistance1 | src/guardrails/text.py:55-68 | the loop with its argument swap and greedy prefix returns true exactly when the Levenshtein distance is at most 1 |
| TextFolding.FoldsAgree | salesforce/force-app/main/default/classes/OutreachGuardrails.cls:135-152 | over the shared alphabet the one-pass port yields what the four passes of the reference yield |
| TextFolding.TablesAgree | salesforce/force-app/main/default/classes/OutreachGuardrails.cls:74-95 | the port's tables of lookalikes and zero-width characters, by code point, are those of the reference |
| TextFolding.FoldsAgreeIffNothingComposes | src/guardrails/text.py:42-48 | over the alphabet with the acute accent the two folds agree exactly when no letter stands right before an accent it composes with |
| TextFolding.ComputeApexFold | salesforce/force-app/main/default/classes/OutreachGuardrails.cls:136-151 | the character loop computes the port's fold |
| TextFolding.FoldLeavesLowerAscii | src/guardrails/text.py:42-48 | folding text over the alphabet leaves ASCII without capital letters |
| TextFolding.FoldLeavesAccents | src/guardrails/text.py:42-48 | folding text over the alphabet and the accent leaves such ASCII, the accent and small accented letters of the table, so the word test of the code search misses no letter |
| TextFolding.FoldIdempotent | src/guardrails/text.py:42-48 | folding twice is folding once |
| TextFolding.FoldSkipsZeroWidth | src/guardrails/text.py:37-48 | in text over the alphabet and the accent, inserting a zero-width character changes nothing in the folded text exactly when it does not go between a letter and an accent the letter composes with |
| TextFolding.CanonicalizeMeaning | src/guardrails/text.py:51-52 | the canonical form is lower-case words with single spaces between and none outside, and without its spaces it is exactly the alphanumerics of the text in order |
| TextFolding.CanonicalIsFixed | src/guardrails/text.py:51-52 | text already canonical is left alone |
| Guardrails.ImperativeMeaning | src/guardrails/rules.py:41-43 | the pattern finds the imperative in canonical text exactly when the text is, or goes on after a space, "stop" or "please stop" and one of the six contact verbs |
| Guardrails.OptOutCharacterized | src/guardrails/rules.py:112-128 | a body is suppressed exactly when its canonical form opens like that, or its canonical form or its alphanumerics lie within true edit distance 1 of a keyword of four or more letters or equal a shorter one |
| RuleBook.EveryContinuationSuppresses | src/guardrails/rules.py:125-127 | each of the twelve openings followed by a space suppresses with any continuation whatever |
| RuleBook.VisitsDoNotSuppress | src/guardrails/rules.py:9-14 | "stop by" and seven letters or more of canonical text never suppresses |
| RuleBook.NegationsDoNotSuppress | src/guardrails/rules.py:9-14 | "please don t stop" and any canonical text never suppresses |
| RuleBook.RuleThatFires | src/guardrails/rules.py:88-109 | on every body, thread and channel a rule is the verdict's exactly when what it looks for is in the text or the thread and nothing an earlier rule looks for is; the action is the rule's |
| RuleBook.OnlyTwoChannels | src/guardrails/rules.py:90-91 | an evaluation is an error exactly for a channel other than "sms" and "email" |
| RuleBook.LegalMeaning | src/guardrails/rules.py:131-141 | the legal rule matches exactly a text with "report you" in it, with a form of "sue" as a word, or with a word that begins with a legal stem |
| RuleBook.HostilityMeaning | src/guardrails/rules.py:144-151 | the hostility rule matches exactly a text with one of its phrases, or one of its words between spaces |
| RuleBook.CodeMeaning | src/guardrails/rules.py:70-71 | the codes found are exactly 550 to 554, and "5.", a digit, a dot and one to three digits, with no word character on either side |
| RuleBook.LoopingMeaning | src/guardrails/rules.py:171-172 | the loop breaker counts two exactly when two of our automatic replies stand in the thread |
| Guardrails.ScatteredKeywordSuppresses | src/guardrails/rules.py:118-128 | any separators scattered through a keyword still suppress |
| Guardrails.LongBodyNeedsTheImperative | src/guardrails/rules.py:118-128 | a body with thirteen or more folded alphanumerics is suppressed exactly when it opens with the imperative |
| BounceAccents.TwoDigitsNeedTheImperative | src/guardrails/rules.py:112-128 | a body with two digits in it is suppressed exactly when it opens with the imperative, since every digit costs an edit against every keyword |
| Guardrails.ZeroWidthIsInvisible | src/guardrails/rules.py:88-109 | in such text a zero-width character that does not part a letter from its accent changes neither action, rule nor trigger |
| GuardrailAccents.ZeroWidthInvisibleIff | src/guardrails/text.py:42-48 | between two given characters of the alphabet or the accent it is invisible in every body over them, every thread and channel exactly when the second is no accent the first composes with |
| GuardrailAccents.ZeroWidthHidesAnOptOut | src/guardrails/rules.py:118-128 | for every letter that composes, a body that suppresses and that a zero-width character before the accent makes proceed |
| GuardrailAccents.AccentedEnd | src/guardrails/text.py:42-48 | "end" with an accent on its first letter is no opt-out, and with a zero-width character before the accent it is one |
| GuardrailAccents.AccentsPartTheImplementations | salesforce/force-app/main/default/classes/OutreachGuardrails.cls:135-152 | for every letter that composes, a body the reference suppresses and the port does not |
| ErrorCodes.PortReadsUntouched | salesforce/force-app/main/default/classes/OutreachGuardrails.cls:69-70 | at each place of any text the port reads exactly the code the reference reads there, unless an accent on a letter or digit stands right before it or any accent right after it |
| ApexGuardrails.ImplementationsAgreeIff | salesforce/force-app/main/default/classes/OutreachGuardrails.cls:102-131 | for every body over the alphabet and the accent in which nothing composes, every thread and both channels, both implementations give the same action, rule and trigger exactly when the channel is "sms", an earlier rule or phrase hits, or the first code is the first that no accent touches |
| ApexGuardrails.ImplementationsAgree | salesforce/force-app/main/default/classes/OutreachGuardrails.cls:102-131 | over the alphabet both implementations name they give the same action, rule and trigger for every body, thread and channel |
| ApexGuardrails.RulesDifferIff | src/guardrails/rules.py:154-168 | on email they name different rules exactly when nothing earlier hits and an accent touches every code the body has |
| BounceAccents.AccentHidesACode | src/guardrails/rules.py:70-71 | for each letter the accent does not compose with and each of the codes 550 to 554: letter, accent and code is a bounce to the reference and proceeds in the port |
| ApexGuardrails.PortSuppressesIff | salesforce/force-app/main/default/classes/OutreachGuardrails.cls:198-215 | on any body whatever the port suppresses exactly when the reference's opt-out rule matches the port's own fold |
| ApexGuardrails.ChannelAgreement | salesforce/force-app/main/default/classes/OutreachGuardrails.cls:103-107 | on bodies in which nothing composes the two agree exactly when the channel is "sms", or "email" with the codes read alike, or neither name in any letter case |
| ApexGuardrails.UpperCaseChannelDisagrees | src/guardrails/rules.py:90-91 | channel "SMS" is an error in the reference and a verdict in the port |
| ApexGuardrails.NullsReadAsEmpty | salesforce/force-app/main/default/classes/OutreachGuardrails.cls:108-129 | a null body and a null count read as the empty body and an empty thread, and agree with the reference on those exactly under the condition above |
| ApexGuardrails.SplitsAgree | salesforce/force-app/main/default/classes/OutreachGuardrails.cls:221-240 | splitting canonical text at single spaces gives the words the reference's whitespace split gives |
| Buckets.ConversationalIffNoGuardrail | src/classifier/buckets.py:73-107 | the intent is a conversational one exactly when no guardrail rule other than the loop breaker named it |
| TopicBook.TopicIsWhatFits | src/classifier/buckets.py:78-107 | a message no rule took has a topic exactly when that topic's sign is in the text and no earlier topic's is |
| TopicBook.NotInterestedIsNoInterest | src/classifier/buckets.py:94-103 | a message with "not interested" in it never counts as interest, whatever else it says |
| TopicBook.CollapseKeeps | src/classifier/buckets.py:77-77 | the text looked at holds every character of the body that is no white space, lower-cased and in order |
| TopicBook.CollapseIsCollapsed | src/classifier/buckets.py:77-77 | between words it has single spaces, at its ends none, and no capital letter |
| TopicBook.StripMeaning | src/classifier/buckets.py:78-78 | the bare text lacks exactly the full stops, exclamation marks and commas at the end |
| TopicBook.AmountMeaning | src/classifier/buckets.py:42-42 | the amount pattern takes exactly the texts of an optional dollar sign, an optional space, a digit, any digits, commas and points, and at the end at most a space and at most one unit |
| TopicBook.EmailMeaning | src/classifier/buckets.py:43-43 | the address pattern finds something exactly where user, "@", host, a point and a rest stand next to one another |
| TopicBook.RulesNameTheirIntents | src/classifier/buckets.py:17-22 | a message one of the four rules took has that rule's intent, whatever its text says |
| BusinessHours.BusinessTime | src/salesforce/inbound_gap.py:48-71 | the day-by-day loop returns the number of wall-clock ticks in the half-open interval that fall on Monday to Friday inside the window |
| BusinessHours.TicksSplit | src/salesforce/inbound_gap.py:48-71 | business time is additive over adjoining intervals |
| BusinessHours.BoundedAndMonotone | src/salesforce/inbound_gap.py:48-71 | it never exceeds elapsed time, never falls as the end moves on, and grows no faster than the clock |
| BusinessHours.QuietStretchAddsNothing | src/salesforce/inbound_gap.py:62-69 | a stretch without business ticks adds nothing |
| BusinessHours.WeekendAddsNothing | src/salesforce/inbound_gap.py:63-63 | from Friday's close to Monday's opening nothing is added |
| BusinessHours.WeekAddsFiveWindows | src/salesforce/inbound_gap.py:62-70 | moving the end a whole week on adds exactly five windows, from any start and end |
| BusinessHours.WholeWeeks | src/salesforce/inbound_gap.py:62-70 | any number of whole weeks from any start holds exactly that many times five windows |
| BusinessHours.DayTicks | src/salesforce/inbound_gap.py:63-69 | the ticks of one weekday within the interval are the overlap of interval and window |
| EventLog.Log.ListPage | tests/fake_s3.py:30-51 | a page holds the ascending keys after the token up to the next token, all of them, and the next token is its last key, whatever keys exist now |
| EventLog.Log.Put | src/suppression/store.py:107-112 | one new object under a fresh key, put now; every other object and time is as before |
| EventLog.Log.Others | tests/fake_s3.py:20-23 | any appends of other writers and any passage of time: the log only grows |
| OptOutSet.ComputeCurrentSet | src/suppression/store.py:198-206 | the reduction loop computes the fold the next rows characterize |
| OptOutSet.CurrentSetIsEarliest | src/suppression/store.py:198-206 | every identifier with an event, and no other, maps to one of its events of the earliest time |
| OptOutSet.OrderIndependent | src/suppression/store.py:198-206 | listing order never matters to identifiers and times |
| OptOutSet.OrderIndependentIff | src/suppression/store.py:198-206 | every listing of the same events gives the same whole set exactly when no two events of an identifier's earliest time differ in their entry |
| OptOutSet.TiesKeepTheFirstListed | src/suppression/store.py:204-204 | two events of one time and different reasons give different sets in the two orders |
| OptOutSet.LaterRepeatChangesNothing | src/suppression/store.py:204-205 | an event no earlier than a known one of the same identifier leaves the set unchanged |
| OptOutSet.SnapshotIsSortedAndComplete | src/suppression/store.py:146-159 | the exported rows hold each current entry exactly once in strictly ascending order of identifier |
| OptOutSet.SnapshotForgetsOrder | src/suppression/store.py:146-159 | the same events in any order export the same identifiers and times row for row |
| OptOutSet.SnapshotForgetsOrderIff | src/suppression/store.py:146-159 | every listing exports the same whole rows exactly under the same condition |
| SuppressionStore.Store.AddSuppression | src/suppression/store.py:87-116 | refuses a naive time or an identifier that does not normalize and then changes nothing; otherwise appends exactly that event and merges it, keeping the cache exact |
| SuppressionStore.Store.LoadEvents | src/suppression/store.py:172-185 | the token loop returns every key present when it started, each key once and in order, although others append between pages |
| SuppressionStore.Store.RefreshIfStale | src/suppression/store.py:165-170 | within the bound nothing is touched; otherwise the load time is the clock before loading and every event present then is in the cache; either way every event put at least thirty seconds ago is known |
| SuppressionStore.Store.IsSuppressed | src/suppression/store.py:118-139 | the matches are, phone first, the earliest event the cache has seen of each channel's identifier, and the unreadable identifiers are listed; suppressed exactly when an event the cache has seen names the contact on either channel or an identifier does not normalize; events put thirty seconds ago and own writes are always among them; no known identifier is forgotten or gets a later time |
| SuppressionStore.Store.CurrentIdentifiers | src/suppression/store.py:141-144 | the identifiers of exactly the events seen, which include all put thirty seconds ago |
| SuppressionStore.Store.ExportSnapshot | src/suppression/store.py:146-163 | the rows are the sorted opt-out set of events that include all present at the start and come from the log, not the cache |
| SuppressionStore.AnswerMeaning | src/suppression/store.py:123-139 | any hit on either channel, or any identifier that does not normalize, suppresses, and nothing else does |
| SuppressionStore.AnswerTells | src/suppression/store.py:123-139 | from a cache that is the opt-out set of some events the answer lists of those events the earliest of each identifier asked for, phone before email, and what it could not read |
| SuppressionStore.EventTells | src/suppression/store.py:87-106 | an event carries the identifier normalized by the rules of its kind, the text as given, reason, source and time; a naive time or an unreadable identifier is refused |
| SuppressionStore.ReportedExactly | src/suppression/store.py:123-139 | a cache answers what the events it has seen answer |
| SuppressionStore.GrowthKeepsRefinement | src/suppression/store.py:1-11 | appends of other processes never spoil a store's cache, so any number of stores can share the log |
| SuppressionStore.AppendKeepsRefinement | src/suppression/store.py:107-116 | appending and merging one event keeps the cache the opt-out set of what was seen |
| SuppressionStore.FreshLoadRefines | src/suppression/store.py:165-170 | a load begun at some moment knows everything put before it and all the store knew before, own writes included |
| SuppressionStore.SeenMoreKnowsMore | src/suppression/store.py:165-170 | a cache over more events has every identifier of the smaller one, never later |
| SuppressionApi.Handle | src/suppression/api.py:26-40 | answers 200 and appends exactly one event, or answers 400 or raises and leaves the log as it was |
| SuppressionApi.AcceptedIff | src/suppression/api.py:26-40 | the answer is 200 exactly for a complete request with an offset in its time and an identifier that normalizes, and the event keeps reason and source as sent |
| SuppressionApi.RaisedIff | src/suppression/api.py:26-40 | the handler raises exactly for a body that is no object, a time that is no string, or an identifier that is no string in an otherwise complete request; every other failure is a 400 |
| SuppressionApi.MirrorMatchesTheProtocol | salesforce/force-app/main/default/classes/OutreachSuppressionSyncQueueable.cls:33-47 | a mirror job's request is accepted exactly when its identifier normalizes, and appends the event the transition system appends |
| SuppressionApi.AnsweredThenReported | src/suppression/api.py:26-40 | thirty seconds after a 200 every reader, however warm its cache and whatever others append, reports the contact |
| SendService.GateLoop | salesforce/force-app/main/default/classes/OutreachSendService.cls:46-104 | the loop with its early exits and counters yields the fold of single gate decisions, and the contacted leads are those of the accepted attempts |
| SendService.CalloutsAreExact | salesforce/force-app/main/default/classes/OutreachSendService.cls:70-91 | a chunk attempts exactly the smaller of the eligible leads and min(90, max(0, limit less the prior hour)), one log row each |
| SendService.AttemptsAreCleared | salesforce/force-app/main/default/classes/OutreachSendService.cls:55-89 | every attempt is for a lead of the query that was not opted out, Ready, inside its window, with a phone and a template |
| SendService.OutcomesAccountForAttempts | salesforce/force-app/main/default/classes/OutreachSendService.cls:92-103 | sent outcomes are the contacted leads, and sent plus failed are the attempts |
| SendGates.OutcomesTell | salesforce/force-app/main/default/classes/OutreachSendService.cls:51-104 | each lead's outcome is the one that is true of it, its turn and the callouts before it: suppressed, not ready, no zone, outside 8 to 20 o'clock, limit used up, no template, no phone, 90 callouts made, refused, or sent |
| SendGates.CalloutsAreLogged | salesforce/force-app/main/default/classes/OutreachSendService.cls:85-104 | the attempts are the callouts in order, each with its lead, its moment and the provider's answer |
| SendGates.EveryCalloutWasCleared | salesforce/force-app/main/default/classes/OutreachSendService.cls:31-128 | in every run each callout goes back to a query with an approved template that found the lead Ready, not opted out and with a phone, and to a turn between 8 and 20 o'clock of the recipient |
| SendGates.CommitWrites | salesforce/force-app/main/default/classes/OutreachSendService.cls:106-107 | a commit appends a row for every attempt in order and marks exactly the leads sent to as Contacted, or on a taken id writes nothing |
| SendService.SendBatch.Execute | salesforce/force-app/main/default/classes/OutreachSendBatch.cls:27-40 | after any chunks the tallies are the counts over all outcomes so far |
| SendThrottle.NoHourExceedsTheLimit | salesforce/force-app/main/default/classes/OutreachSendService.cls:40-74 | over every run no one-hour window, by log time or by send time, the running chunk included, holds more logged attempts than the limit |
| SendThrottle.AlwaysThrottled | salesforce/force-app/main/default/classes/OutreachSendService.cls:40-74 | the invariant behind it holds in every reachable state |
| SendThrottle.CalloutsExceedOnlyByTheLost | salesforce/force-app/main/default/classes/OutreachSendService.cls:88-107 | callouts made in any hour exceed the limit by no more than those whose chunk was rolled back |
| SendThrottle.LostIffAChunkRollsBack | salesforce/force-app/main/default/classes/OutreachSendService.cls:88-107 | in every run callouts get lost exactly in a step that rolls a chunk back after callouts, or commits one whose log collides with an id already taken |
| SendThrottle.CalloutsWithinTheLimit | salesforce/force-app/main/default/classes/OutreachSendService.cls:70-107 | in a run without such a step no hour holds more callouts than the limit |
| SendThrottle.EveryCalloutIsLoggedIffNoChunkRollsBack | salesforce/force-app/main/default/classes/OutreachSendService.cls:90-106 | between chunks callouts and logged attempts are equal in number exactly when the run had no such step |
| SendThrottle.RollBacksEvadeAnyLimit | salesforce/force-app/main/default/classes/OutreachSendService.cls:88-107 | for every positive limit and every n a run of rolled-back chunks makes n callouts within one hour |
| SendThrottle.StatusCanOvertakeTheLog | salesforce/force-app/main/default/classes/TwilioStatusCallbackRest.cls:38-47 | a run with limit 2 in which a status callback before the commit leads to three callouts within the hour |
| OptOutSafety.OptedOutForever | salesforce/force-app/main/default/classes/TwilioInboundRest.cls:95-96 | in every run a lead once flagged as opted out stays flagged |
| OptOutSafety.NoCalloutAfterTheQuerySawIt | salesforce/force-app/main/default/classes/OutreachSendService.cls:32-59 | no lead flagged before the run is ever called; a lead flagged since, by its reply or by hand, was called only by chunks whose query ran before, even when later commits overwrite the status |
| OptOutSafety.AtMostOneLateCallout | salesforce/force-app/main/default/classes/OutreachSendService.cls:32-59 | at most one callout to a lead follows its opt-out, the one of the chunk that had already queried it |
| OptOutSafety.AlwaysSafe | salesforce/force-app/main/default/classes/OutreachSendService.cls:32-107 | the invariant behind both holds in every reachable state |
| OptOutSafety.OptOutRaisesTheFlag | salesforce/force-app/main/default/classes/TwilioInboundRest.cls:92-103 | a committed suppress verdict flags the matched lead and touches no other |
| OptOutSafety.SuppressedStatusChangesIff | salesforce/force-app/main/default/classes/TwilioInboundRest.cls:92-103 | a step changes a Suppressed status exactly when it is an edit to another status, a commit that is not refused of a chunk that sent to the lead, or the commit of a first delivery matched to it that does not suppress |
| OptOutSafety.StatusDoesNotLast | salesforce/force-app/main/default/classes/OutreachSendService.cls:94-107 | one run from an initial state in which the status goes from Suppressed to Contacted and then to Replied while the flag stays |
| WebhookWrites.InboundWrites | salesforce/force-app/main/default/classes/TwilioInboundRest.cls:50-106 | the first delivery writes one record with its verdict, flagged exactly for a review verdict or an opt-out without identifier, updates the matched lead and no other, and enqueues a mirror exactly for an opt-out with identifier |
| WebhookWrites.RetryWritesNothing | salesforce/force-app/main/default/classes/TwilioInboundRest.cls:43-48 | a delivery whose id is taken changes no record, lead, job or log |
| WebhookWrites.OptOutFlagsTheNewest | salesforce/force-app/main/default/classes/TwilioInboundRest.cls:112-125 | an opt-out flags the lead with that phone than which none with that phone was created later, and nobody else; without a readable or known phone nobody |
| WebhookWrites.StatusWrites | salesforce/force-app/main/default/classes/TwilioStatusCallbackRest.cls:29-61 | a status changes the delivery status of the record with its id and nothing else; an unknown id gets an outbound record of its own |
| WebhookWrites.ExecutionWrites | salesforce/force-app/main/default/classes/OutreachSuppressionSyncQueueable.cls:32-75 | an execution answered 200 ends the job; any other leaves it queued one attempt up and the record alone, and after the fifth attempt ends it with the record flagged |
| WebhookWrites.ThrowWrites | salesforce/force-app/main/default/classes/OutreachSuppressionSyncQueueable.cls:57-75 | an execution that throws ends the job and flags nothing; what its request did stays |
| ReviewFlags.ReviewReachesAHuman | salesforce/force-app/main/default/classes/TwilioInboundRest.cls:83-90 | in every run a message judged for review is flagged and stays so; one judged to proceed, and an outbound one, never is |
| ReviewFlags.OptOutIsFlaggedAfterFive | salesforce/force-app/main/default/classes/OutreachSuppressionSyncQueueable.cls:16-75 | in every run an opt-out without identifier is flagged; one with identifier only after exactly five executions, and after five it is flagged, in the log, or its job died |
| ReviewFlags.UnheardIsRetried | salesforce/force-app/main/default/classes/OutreachSuppressionSyncQueueable.cls:57-69 | in every run an execution below the fifth that neither throws nor is answered 200 leaves the job queued one attempt up and its record unflagged |
| WebhookOnce.AtMostOnce | salesforce/force-app/main/default/classes/TwilioInboundRest.cls:43-68 | over every run, with any repeated and racing deliveries, each provider id has at most one record, one evaluation and one mirror, only evaluated ids are mirrored, and every answered id has a record |
| WebhookOnce.EvaluatedIffInboundRow | salesforce/force-app/main/default/classes/TwilioInboundRest.cls:43-78 | an answered id was evaluated exactly when its record is an inbound one |
| WebhookOnce.StubSwallowsTheDelivery | salesforce/force-app/main/default/classes/TwilioStatusCallbackRest.cls:38-47 | a run in which a status stub makes an inbound delivery answered but never evaluated |
| WebhookOnce.AlwaysOnce | salesforce/force-app/main/default/classes/TwilioStatusCallbackRest.cls:29-60 | the invariant behind them holds in every reachable state |
| MirrorDelivery.LostIffItsJobDied | salesforce/force-app/main/default/classes/OutreachSuppressionSyncQueueable.cls:32-75 | in every reachable state an inbound message with a suppress verdict is neither flagged, nor being mirrored, nor in the log exactly when an execution of its job threw and no request for its identifier landed; no message's mirror executes more than five times |
| MirrorDelivery.NoOptOutIsLost | salesforce/force-app/main/default/classes/OutreachSuppressionSyncQueueable.cls:32-75 | in a run in which no execution throws, each such message is flagged, being mirrored or in the log |
| MirrorDelivery.FailingJobLosesAnOptOut | salesforce/force-app/main/default/classes/OutreachSuppressionSyncQueueable.cls:58-74 | a run in which the first execution throws and the opt-out is nowhere |
| MirrorDelivery.QuietQueueClosesEveryOptOut | salesforce/force-app/main/default/classes/OutreachSuppressionSyncQueueable.cls:54-74 | once no job is queued an opt-out is flagged for review or in the log exactly when its identifier landed or no execution of its job threw |
| MirrorDelivery.LostResponsesChangeNothing | salesforce/force-app/main/default/classes/OutreachSuppressionSyncQueueable.cls:48-68 | a retry of a request that had landed, heard or not, leaves the opt-out set exactly as it was |
| MirrorDelivery.LogOnlyGrows | src/suppression/store.py:107-112 | no step of the system removes an event or an identifier from the log |
| MirrorDelivery.AlwaysMirrored | salesforce/force-app/main/default/classes/TwilioInboundRest.cls:79-108 | the invariant behind them holds in every reachable state |
| OrgHandlers.Org.HandleInbound | salesforce/force-app/main/default/classes/TwilioInboundRest.cls:61-108 | insert, verdict, record update, lead update and enqueue, one after another, end in the state the inbound transition names |
| OrgHandlers.Org.HandleStatus | salesforce/force-app/main/default/classes/TwilioStatusCallbackRest.cls:29-60 | update-or-stub ends in the state the status transition names |
| OrgHandlers.Org.ExecuteMirror | salesforce/force-app/main/default/classes/OutreachSuppressionSyncQueueable.cls:32-75 | one execution ends the job, re-enqueues it with a higher attempt, or flags the message, as the transition names; if it throws, the job is gone and only what the request did stays |
| OrgHandlers.Org.CommitSend | salesforce/force-app/main/default/classes/OutreachSendService.cls:106-107 | the log insert and the lead updates end in the commit transition's state, and a refused insert undoes both |
| OrgHandlers.InsertLog | salesforce/force-app/main/default/classes/OutreachSendService.cls:106-106 | inserting row by row against the unique index adds all rows or, exactly when an id is taken or repeats in the batch, none |
| OptOutEndToEnd.VerdictIsTheEvaluation | salesforce/force-app/main/default/classes/TwilioInboundRest.cls:74-78 | the verdict of the transition system is the action of the port's public entry on channel "sms", which never refuses it |
| OptOutEndToEnd.VerdictSuppressesIff | salesforce/force-app/main/default/classes/TwilioInboundRest.cls:71-79 | the webhook's verdict suppresses a body in which nothing composes exactly when it is near a keyword or opens with the imperative |
| OptOutEndToEnd.StopIsAnOptOutForGood | salesforce/force-app/main/default/classes/TwilioInboundRest.cls:61-108 | with the port's guardrails and the API's normalization in place, after any run and before any other, a first delivery of such a body leaves a record that keeps the port's verdict on it and stays an opt-out, flagged, being mirrored or in the log unless an execution of its job threw, and its lead opted out |
| OptOutEndToEnd.LiveStatusDoesNotLast | salesforce/force-app/main/default/classes/OutreachSendService.cls:94-107 | with those guardrails the replies "stop" and "?" make both overwrites of the status happen |
| WebhookPhone.WhatIsKept | salesforce/force-app/main/default/classes/TwilioWebhook.cls:58-73 | a plus and digits are kept exactly when North American or longer than eleven digits; a ten-digit number becomes a North American one; the rest are unreadable |
| WebhookPhone.NormalizePhoneIdempotent | salesforce/force-app/main/default/classes/TwilioWebhook.cls:58-73 | normalizing a normalized phone changes nothing, for every input |
| EmailNormalization.CanonicalIsComposed | src/cleansing/normalize.py:24-65 | for addresses over the alphabet and the accent, normalizing a canonical email composes it and does nothing else; no canonical email is unreadable |
| EmailNormalization.CanonicalIsNormalIff | src/cleansing/normalize.py:24-65 | so it normalizes to itself exactly when it holds no letter right before an accent the letter composes with |
| EmailNormalization.TwoRoundsSettle | src/cleansing/normalize.py:24-65 | whatever the address, what two rounds leave a third leaves alone |
| EmailNormalization.PlusTagIsDropped | src/cleansing/normalize.py:60-64 | what stands from the first '+' to the last '@' of an address makes no difference, whatever it holds |
| EmailNormalization.OuterSpaceIsDropped | src/cleansing/normalize.py:24-25 | any white space before and after an address makes no difference |
| EmailNormalization.NoZeroWidthSettles | src/cleansing/normalize.py:24-65 | the canonical form of such an address without zero-width characters normalizes to itself |
| EmailNormalization.ZeroWidthUnsettles | src/cleansing/normalize.py:24-25 | for every letter that composes, every zero-width character and every ordinary domain: the canonical form of letter, character, accent and domain is looked up under another address |
| EmailNormalization.CanonicalIsSettled | src/cleansing/normalize.py:24-25 | each character of a canonical email is one that compatibility mapping, case folding, zero-width removal and stripping leave alone; composition of neighbours is the row above |
| Cleansing.SchemaValidate | src/cleansing/steps/schema_validate.py:20-51 | the loop keeps and quarantines, in order and with its reason, what the row check decides |
| Cleansing.NormalizeRows | src/cleansing/steps/normalize.py:22-34 | the loop keeps and quarantines, in order and with its reason, what row normalization decides |
| Cleansing.ValidateRows | src/cleansing/steps/validate.py:57-74 | with one lookup per domain the loop decides every row as a fresh lookup would |
| Cleansing.DecisionTells | src/cleansing/steps/schema_validate.py:21-32 | what each of the three quarantining steps does to a row tells the truth about it: kept as it came but for a blank contact time, with the identifiers that normalize, without an email whose domain takes no mail, or turned away for the first thing amiss |
| Cleansing.NothingDropped | src/cleansing/steps/validate.py:57-87 | in each of the three steps kept and quarantined rows together are as many as the input |
| Cleansing.KeyIsInjective | src/cleansing/identity.py:14-16 | two contacts have the same key exactly when phone and email are the same, given no separator in a phone |
| Cleansing.Dedupe | src/cleansing/steps/dedupe.py:25-31 | one row per key, each the first row of greatest enrichment time in its group, and every key is represented |
| Cleansing.KeptAreTheNewest | src/cleansing/steps/dedupe.py:25-40 | the rows removed are exactly as many as those that are not the first newest of their key |
| CleansingChain.Suppress | src/cleansing/steps/suppress.py:27-41 | with other writers before every row: every row is kept or excluded in order; a kept or cooling row is named by no event logged before the step began and by none thirty seconds old when it was checked, and has readable identifiers; a suppressed one is named by an event or unreadable; an error only for a row without contact or with an unusable contact time |
| CleansingChain.JudgeRow | src/cleansing/steps/suppress.py:33-41 | the store is asked before the cooldown; a row stays with no last contact, or one whose time plus the window is not after the run's, and cools with one whose time plus the window is; nothing thirty seconds old names either |
| CleansingChain.PassingIsReady | src/cleansing/steps/normalize.py:24-34 | each stage hands on rows the next relies on: dated, with an identifier, every identifier readable, not empty and free of the key separator |
| CleansingChain.EmailsAreReadable | src/cleansing/normalize.py:52-65 | the email rules meet what the chain asks of them on every address over the alphabet and the accent |
| CleansingChain.EmailSettlesIff | src/cleansing/normalize.py:52-65 | a canonical address is a fixed point exactly when it holds no letter before its accent, so on every address without zero-width characters |
| CleansingChain.OptOutIsFoundIff | src/cleansing/steps/suppress.py:34-34 | a canonical row finds the stored opt-out of the address it came from exactly under the same condition; what it looks for instead is the composed form |
| CleansingChain.StayingAreDeliverable | src/cleansing/steps/suppress.py:33-41 | each staged row is ready, the first newest of its key, without a last contact or with one a whole window ago, and named by no event logged before the step or thirty seconds old at its check |
| CleansingChain.LeavingAreWithheld | src/cleansing/steps/suppress.py:34-40 | each excluded row is ready and the first newest of its key, and is named by an event of the log if suppressed, and otherwise was last contacted less than a window ago; none is excluded as unreadable |
| CleansingChain.OutcomesAreDistinct | src/cleansing/identity.py:14-16 | staged and excluded rows together are pairwise distinct in phone and email |
| CleansingChain.ContactsAreFound | src/cleansing/steps/dedupe.py:25-31 | the phone and email of every validated row are those of some staged or excluded row |
| CleansingChain.Cleanse | infra/pipeline_stack.py:121-123 | over the chain input rows equal staged plus quarantined plus duplicates plus excluded; the quarantined are what the three steps turn away in order, the duplicates are the validated rows that are not the first newest of their contact, every validated contact is staged or excluded and once only, and staged and excluded rows are what the rows above say |
| Reconcile.WireFaithful | src/texttorrent/client.py:45-47 | the ten-digit wire form gives a number back exactly when it is "+1" and ten digits |
| Reconcile.ConvergesIffNorthAmerican | src/texttorrent/reconcile.py:48-69 | one run makes the two lists equal exactly when every pushed number is North American |
| Reconcile.OursBecomesTheUnion | src/texttorrent/reconcile.py:57-67 | after a run our phones are the union of both lists and nothing was removed from either |
| Reconcile.OthersArePushedForever | src/texttorrent/reconcile.py:68-69 | a pushed number is pushed again the next night exactly when it is not North American |
| Reconcile.SecondRunIsQuiet | src/texttorrent/reconcile.py:48-71 | after a converging run the next adds and pushes nothing, changes nothing and reports only the unparseable entries |
| Reconcile.RerunAfterFailedPush | src/texttorrent/reconcile.py:61-69 | a run after a push that failed past the adds reaches the state of a run that did not fail and pushes the same numbers |
| Reconcile.DivergenceIsTheDifference | src/texttorrent/reconcile.py:71-71 | the divergence is the size of the symmetric difference plus the unparseable entries, and zero exactly when the lists agree and every entry is readable |
| Reconcile.ForeignNumberOptsOutAStranger | src/texttorrent/client.py:171-182 | a London number pushed one night opts out a stranger in Maine the next |
| ReconcileRun.BlockedNumbers | src/texttorrent/client.py:159-169 | the paging loop returns every vendor entry once and in order for every page size |
| ReconcileRun.BlockNumbers | src/texttorrent/client.py:171-182 | an empty push makes no request, a refused one raises and changes nothing, an accepted one appends the wire form of each number |
| ReconcileRun.Vendor.BlockedPage | tests/fake_texttorrent.py:152-162 | the entries of one page of the vendor's list, none past its end |
| ReconcileRun.Run | src/texttorrent/reconcile.py:35-93 | on the shared log with other writers around the requests, during the load and before every addition: the identifiers compared are all of the log's at the start and none it lacks at the end; what only the vendor knew is logged, what only we knew is pushed, the report is exact, and after a refused push only the logging has happened |
| ReconcileRun.LogBecomesTheUnion | src/texttorrent/reconcile.py:57-67 | when a run has logged its additions, the log names exactly what the law of the two lists says our side becomes, and what others wrote meanwhile |
| ReconcileRun.AloneItFollowsTheLaw | src/texttorrent/reconcile.py:57-67 | with no other writer the run compares exactly the log's identifiers, and leaves exactly the law's |
| ReconcileRun.SecondNightIsQuiet | src/texttorrent/reconcile.py:48-71 | two nights with no other writer and North American pushes: the second cannot fail, writes no event, pushes nothing and reports only the unreadable entries |
| SmsSegments.TextTakesFewest | research/conversation_harness.py:94-101 | a text takes the least number of segments that carries its units: one of 160 septets or several of 153 in GSM-7, one of 70 or several of 67 in UCS-2 |
| SmsSegments.EncodingIff | research/conversation_harness.py:97-97 | GSM-7 is chosen exactly when every character is of its alphabet |
| SmsSegments.SegmentsNeverDrop | research/conversation_harness.py:94-101 | a text never takes fewer segments than any subsequence of it, across the switch of encoding |
| SmsSegments.InsertionNeverLowersSegments | research/conversation_harness.py:94-101 | inserting any character anywhere never lowers the segment count |
| SmsSegments.UnitsDropIff | research/conversation_harness.py:96-101 | inserting a character lowers the unit count exactly when it forces a GSM text to UCS-2 and the text has more extension characters than the character takes units |
| Multipart.RoundTrip | src/texttorrent/client.py:50-56 | parsing the built body gives the fields back for all usable names and values free of the delimiter, blank lines and headers in values included |
| Multipart.RoundTripIffDelimiterFree | tests/fake_texttorrent.py:26-35 | with distinct names the fields come back exactly when the delimiter occurs in no name and no value |
| Multipart.BoundaryReadsBack | src/texttorrent/client.py:56-56 | the boundary read from the content type is the one written |
| Multipart.WireForm | src/texttorrent/client.py:50-56 | the body on the wire is, per field, the boundary, the disposition header with the name, a blank line and the value, and at the end the closing boundary |
| Multipart.ParseMultipart | tests/fake_texttorrent.py:26-35 | the loop over the parts computes the fold the round trip is about, a part without a name failing the parse |
| CsvParser.ParseCsv | salesforce/force-app/main/default/classes/OutreachGuardrailsTest.cls:64-102 | the index loop with its look-ahead computes the scan the next rows are about |
| CsvParser.ParseInvertsRender | salesforce/force-app/main/default/classes/OutreachGuardrailsTest.cls:64-102 | writing every field quoted, or plain where it needs no quotes, and ending rows with LF or CRLF, both in any mix, then parsing, returns the table |
| CsvParser.UnterminatedLastRow | salesforce/force-app/main/default/classes/OutreachGuardrailsTest.cls:97-101 | without a final line break the last row comes back too, unless it is one empty field, which is dropped |
| AutoChat.ThreadSafety | research/auto_chat.py:205-287 | over every sequence of polls with the real guardrails: handled ids strictly increase, replies stay within the cap, no reply repeats the one before, the Unclear line is sent at most once, and nothing follows a closing line |
| AutoChat.HaltIsFinal | research/auto_chat.py:187-189 | once halted a thread never changes again, whatever arrives |
| AutoChat.HaltsExactly | research/auto_chat.py:231-287 | a poll with something new halts the thread exactly for a halting rule or a closing line that was sent |
| AutoChat.PollAnswers | research/auto_chat.py:205-265 | a poll of an open thread takes up the newest unread message, and sends the line of its intent exactly when no halting rule fired, the guardrails let it proceed, the cap is not reached, and the line is neither a second clarifier nor the last one again |
| AutoChat.CallsExceedOnlyByTheRaised | research/auto_chat.py:244-265 | over every sequence of polls send calls exceed the cap by no more than the cycles whose call raises, so not at all without one |
| AutoChat.RaisedCallsEvadeTheCap | research/auto_chat.py:264-265 | for every positive cap and every k there are cycles of amounts and questions, k of them raising, with k calls more than the cap |
| AutoChat.RaisedCloseStaysOpen | research/auto_chat.py:264-287 | a closing line whose send raises leaves the thread open and the count as it was |
| AutoChat.RealJudgeIsSound | src/classifier/buckets.py:73-107 | whatever the guardrails let proceed names no rule and has a conversational intent |
| AutoChat.Runner.ProcessThread | research/auto_chat.py:205-287 | the fields after one poll are those the state machine names |

## Left out

- ApexGuardrails.ImplementationsAgreeIff: Apex regular expressions are taken to be those of java.util.regex, where `\b` counts letters and digits of any script, `_`, and a non-spacing mark on a letter or digit. Bodies in which something composes are covered by AccentsPartTheImplementations only.
- Guardrails.OptOutCharacterized: bodies are strings over the characters `TextFolding` distinguishes; full NFKC and Unicode case folding are reduced to fullwidth forms, wide spaces, letter case, the listed lookalikes, and composition with the acute accent.
- GuardrailAccents.ZeroWidthInvisibleIff: the acute accent is the one combining mark that composes here; other marks compose in the same way in the code.
- EmailNormalization.CanonicalIsNormalIff: letters whose composed form case-folds to several characters are outside the alphabet. The capital Greek iota with diaeresis before an acute accent is one: its canonical form changes again without any zero-width character.
- BusinessHours.BusinessTime: local wall time is an integer tick count, as same-zone subtraction treats it; the zone conversion itself and floating-point seconds are not modelled.
- SuppressionStore.Store.AddSuppression: the key is a parameter the caller promises to be unused; the random 128-bit id is taken to be fresh, and keys are numbers in name order.
- ReconcileRun.Run: the vendor answers any push alike, also one of fewer than ten digits, and its list changes only by the push; the CSV export input is the same list of raw entries; a run stops with an error should every event id be taken.
- Reconcile.ConvergesIffNorthAmerican: asks of the phone normalizer that its results are fixed points without "@" and that a wire number reads as itself or not at all; `phonenumbers` is otherwise uninterpreted.
- CleansingChain.Cleanse: asks of the normalizer, on the identifiers of the given rows, that its results normalize to something, are not empty and, for phones, without the key separator; that the results are fixed points it does not ask, and OptOutIsFoundIff says what follows where they are not; external ids, the line-type annotation, staging files and metrics are left out. Rows come as records, ragged CSV rows do not arise.
- OptOutSafety.OptedOutForever: other processes may edit every lead field and raise the opt-out flag, but do not clear it; no code of the repository does.
- OrgHandlers.Org.HandleInbound: begins at the insert; signature check, form parsing and the 400 for a missing id come before it. Provider ids are compared as written, without regard to a case-insensitive index.
- SendGates.CommitWrites: the provider's status text of an accepted send is always "queued"; the record's body and template fields are left out.
- OrgHandlers.Org.HandleStatus: the fallback after a lost insert race and the first branch are one, since at the commit both update the record that holds the id.
- SendThrottle.NoHourExceedsTheLimit: chunks of one run are serialized, as the platform runs a batch; overlapping batch jobs and a limit changed between chunks are not modelled.
- MirrorDelivery.LostIffItsJobDied: the delay before a retry is any time.
- SmsSegments.SegmentsNeverDrop: characters are code points, as in the source; the alphabet is that of section 6.2.1 of 3GPP TS 23.038 as the source lists it.
- Multipart.RoundTrip: text rather than bytes; the boundary is any quote- and line-free string longer than two characters, which the generated one is.
- AutoChat.ThreadSafety: a canned line is identified with its intent, since the lines are pairwise different; the transcript, the opener and the poll timing are left out.
- Buckets.ConversationalIffNoGuardrail: the regular expressions' character classes are ASCII.
- Threads inside one store object: each store is used by one thread, as its callers do.
- `src/salesforce/bulk.py`, `src/salesforce/sync.py`, token signing, webhook signatures, HTTP, S3 and queue transports, the CDK stacks and permission metadata: transports and configuration.
- Reply-template lifecycle, `classify` routing, rule hashes, drift metrics and response shapes: settled by reading one body.
