# Verified models of ddmailserver

Dafny 4.11 models of the parts of the mail server where a mistake loses mail,
locks users out or corrupts a calendar, with proofs about them. `dafny verify
dfyconfig.toml` verifies every method against its contract and every lemma below.

| part of the server | modules |
|---|---|
| SPF evaluation (RFC 7208) | `SpfText` (reading terms), `SpfPolicy` (unlimited reference semantics), `SpfBudget` (the evaluation with its limits), `SpfEvaluator` (the same as a class with shared counters), `SpfTheorems`, `SpfLimits`, `SpfRfc`, `SpfLeaves`, `SpfReading` (records as written), `SpfAnswers` (mechanisms and errors on the DNS content) |
| Password-guess limiter | `AuthLimit` (the limiter), `AuthHistory` (the record that is never pruned), `AuthWindow` (what the limiter counts in any interval), `AuthCapacity` (full tables, and guessing stopped) |
| iCalendar text (RFC 5545) | `ContentLines` (escape and fold on octets), `ICalendar` (the event writer and a reader), `CalendarLines`, `Todo`, `DtStamp` (document rewriters) |
| Configuration profiles | `Plist` (token parser), `PlistTree` (what a property list means), `MobileConfig` (writer), `MobileConfigParse` (reader), `ProfileRoundTrip`, `ProfileRoot` (documents without a root), `ProfileImport` (profiles of any origin) |
| Backoff after rejected credentials | `AuthBackoff` (schedule and transactions), `AuthRuns` (any workers and verdicts), `AuthLateness` (how late verdicts may be), `AuthBursts` (rejections that count once) |
| Flag push queue and upstream pull | `FlagStore` (statements on tables), `FlagSync` (their interleavings) |
| Change journal | `Journal`, `JournalClient` |
| Schema migration | `Migrate` (plans and runs), `MigrateRuns` (instances that race and die) |
| IMAP sequence numbers | `SeqNums` |
| LIKE patterns, invite routing | `LikePattern`, `InviteCalendar` |
| Shared helpers | `Wrappers`, `Strings` |

Code that works in place is modelled by methods and classes proved against
specification functions; the theorems are lemmas about those functions, about runs of
calls, or about state machines whose steps are single SQL statements or transactions.

Main results:

- The budgeted SPF evaluator returns a result that is not an error exactly when the
  evaluation rules of RFC 7208, read with the code's liberties (a term is looked at only
  when its turn comes, a mechanism with a macro does not match, exp is ignored, any
  domain it would query will do), derive it with at most 10 counted terms and 2 void
  lookups, counted where the code counts them. The strict reading gives none for a
  malformed domain, and for any other it derives the result exactly when, besides, the
  evaluation queried no malformed domain, read no record with a faulty mechanism or a
  second exp, and passed over no macro. The loop check and the depth check never change
  a result, and no evaluation makes more than 111 resolver queries.
- Any record written from the grammar of the RFC, in any case and spacing, is read as
  exactly the directives and redirects that were written, each with the result of its
  sign; so `v=spf1 -all` fails. A prefix is compared in its leading bits.
- Until a run names more than 100000 addresses, users or pairs the limiter answers as a
  history that is never compacted, pruned or full, and a failure is dropped only for at
  least 100000 busy others. As many different guesses as allowed block the key until the
  block ends; and in every run, full tables included, no more than that are counted of a
  key in any interval of the shorter of window and block.
- A generated calendar reads back as the intended properties if and only if the
  recurrence rule has no CR LF of its own, and a reader finds in it exactly the event.
- Over balanced tokens, parsing a printed property list gives it back and stops right
  after it, and a generated profile parses back unchanged if and only if its host, names
  and paths have no white space at their ends. A profile of any origin is imported if and
  only if no mail payload is POP or lacks its host and there is an account at all, and
  then as its entries say, with the default ports and fallbacks.
- At most 27 rejected logins are counted in 24 hours besides those with late verdicts
  or started by hand. With verdicts always less late than some bound, 27 is the limit
  if and only if that bound is at most two minutes. A rejection counts if and only if it
  is the first or comes 30 seconds or more after the latest one, counted or not.
- A flag change is never lost, whatever is queued while the push worker holds the row,
  as long as each removal of a row takes only what was stored, and is queued for the
  place of its upstream copy. On a message still upstream a removal that takes more
  loses one, and such a run is given.
- A journal client that resyncs on reset and pages through the rest converges to the
  visible mail after any writes and compactions. One that always adopts the head has
  received everything up to its cursor if and only if no poll since its last resync met
  a backlog above a page.
- Whatever instances race and die, a transactional migration is kept once or never,
  exactly as its row says.

Where the code does less than its comments or callers assume:

- `internal/worker/flag_sync_task.go` deletes a queue row by id after storing the copy
  it read. A change queued in between keeps the row id and is deleted unpushed
  (`FlagSync.ChangeLost`), which is harmless exactly when the row still says what was
  stored (`FlagSync.RemovalLosesExactly`). Comparing `created_at` would tell
  (`FlagSync.CreatedAtTells`).
- `GetMessageChanges` reads head, watermark and tail in three statements. A compaction
  between the last two loses entries without a reset exactly when it prunes a row of
  the page (`JournalClient.PartsAreExact`, `JournalClient.TombstoneLost`).
- `desktop/native/src/engine.rs` adopts the head after every page, which is right
  exactly when the page was the whole backlog (`JournalClient.AdoptingTheHead`,
  `JournalClient.AlwaysAdoptingTheHead`). After
  everything newer was pruned the head is behind the watermark and the client resyncs
  again and again (`JournalClient.ResyncsAgain`).
- `SetTodoCompletion` writes the properties of an empty task behind its END, so a later
  write does not replace them (`Todo.LaterWinsExactly`).
- `parse.go` reads `root.Kind` without checking for a nil root, which it gets exactly
  when the first element inside `plist` is an unknown one or a key; the model reports
  `NilRoot` there (`ProfileRoot.NilRootExactly`, `ProfileRoot.NilRootHappens`).
- A record with a syntax error behind the deciding mechanism still gives a result, and a
  macro is passed over (`SpfRfc.ReadingsDiffer`). A malformed domain is queried or gives
  permerror instead of none, and a second exp goes unnoticed (`SpfRfc.StrictRfcExactly`).
- A verdict 30 seconds late or more escapes the login schedule, and five that are two
  minutes late break the bound of a day (`AuthLateness.BurstWindowExactly`,
  `AuthLateness.TwentyEightHappen`).
- A migration outside a transaction can be executed twice
  (`MigrateRuns.PlainRunsTwice`), as its marker's comment allows.

## Model

| member | source | states |
|---|---|---|
| `SpfRfc.CheckHostRefinesRfc` | internal/parser/spf.go:166-413 | check_host returns pass, fail, softfail, neutral or none if and only if RFC 7208 sections 4.6.2, 5.2 and 6.1, with terms looked at in turn and macro mechanisms not matching as the code has it, derive that result with at most 10 counted terms and 2 void lookups |
| `SpfRfc.StrictRfcExactly` | internal/parser/spf.go:180-413 | read strictly, RFC 7208 derives none for a malformed domain (section 4.3), and for any other exactly the result check_host returns when its evaluation queried no malformed domain, read no record with a mechanism it rejects (4.6) or a second exp (6), and passed over no macro (7) |
| `SpfRfc.ReadingsDiffer` | internal/parser/spf.go:255-271 | a syntax error behind a matching mechanism and a macro in front of one, each with the result the code gives |
| `SpfRfc.RfcIsDeterministic` | internal/parser/spf.go:234-305 | either reading gives at most one result and one cost per domain |
| `SpfReading.RecordIsRead` | internal/parser/spf.go:234-316 | a record written from the grammar of RFC 7208 (version, signed directives with domains and prefix lengths in any case and spacing, modifiers) is read as exactly the steps and redirects that were written |
| `SpfReading.StepIsRead` | internal/parser/spf.go:264-291 | each directive is read with the result of its sign and as its own mechanism, target and lengths; one with a macro as a macro |
| `SpfReading.PolicyTextIs` | internal/parser/spf.go:216-221 | a text is a policy if and only if it starts with the version, in any case, alone or before a blank |
| `SpfAnswers.RecordIs` | internal/parser/spf.go:207-230 | a domain has a policy exactly when one text is one, none when none is, and is in error when two are |
| `SpfAnswers.RecordDecides` | internal/parser/spf.go:166-257 | none, temporary and permanent errors as the TXT record of the domain itself decides them |
| `SpfAnswers.AllDecides` | internal/parser/spf.go:234-286 | a domain whose one text is v=spf1 and a signed all gets fail for -, softfail for ~, neutral for ?, pass for + and for no sign |
| `SpfAnswers.OnlyFailuresAreTemporary` | internal/parser/spf.go:166-176 | a temporary error is returned only if some lookup fails |
| `SpfAnswers.FaultyTerms` | internal/parser/spf.go:321-413 | an unknown name, an all with an argument, an address without colon, a missing domain and an unreadable length are errors, the last two after the term was counted |
| `SpfAnswers.LengthOutOfRange` | internal/parser/spf.go:504-544 | a prefix length that is no number or out of range makes the argument unreadable |
| `SpfAnswers.InPrefixIsLeadingBits` | internal/parser/spf.go:547-557 | an address is in a prefix exactly when both are of one family and agree in that many leading bits |
| `SpfAnswers.NetDecides` | internal/parser/spf.go:560-588 | ip4 and ip6 match exactly the senders of their family that agree in the leading bits; an unreadable address or one of the other family is an error |
| `SpfAnswers.LookupsDecide` | internal/parser/spf.go:402-447 | a matches exactly when an address of the target is in the prefix, exists when there is an IPv4 address; only a failed lookup is an error |
| `SpfAnswers.MxDecides` | internal/parser/spf.go:450-474 | mx is decided by the first of at most ten hosts that hits or fails, and more than ten are an error |
| `SpfAnswers.PtrExactly` | internal/parser/spf.go:476-501 | ptr matches exactly when one of the first ten reverse names is the target or below it and leads back to the sender |
| `SpfAnswers.CountsAre` | internal/parser/spf.go:321-474 | which mechanisms count a term, and that a void lookup is counted for an empty answer to a, exists and mx and for nothing else |
| `SpfTheorems.EvalIsCut` | internal/parser/spf.go:179-413 | the evaluation with shared counters, path and depth is the unlimited run of the same terms, cut where the budget runs out |
| `SpfTheorems.CheckHostIsCutRun` | internal/parser/spf.go:166-204 | the whole check returns what the unlimited run cut at the budget returns, with or without the loop check |
| `SpfTheorems.LoopCheckIsRedundant` | internal/parser/spf.go:186-194 | deleting the include/redirect loop check changes no result for any domain and sender |
| `SpfTheorems.ClosedNeverLoops` | internal/parser/spf.go:186-194 | an evaluation that can finish without limits never re-enters a domain of its own chain |
| `SpfTheorems.NeverTooDeep` | internal/parser/spf.go:183-185 | the nesting check never fires: depth stays at most the number of counted lookups |
| `SpfTheorems.OpenCosts` | internal/parser/spf.go:286-302 | every level of nesting costs a counted term, so an endless chain runs out of budget |
| `SpfTheorems.ClosedIsStable` | internal/parser/spf.go:179-204 | a finished evaluation does not depend on how much deeper nesting is allowed |
| `SpfTheorems.LeafPlain` | internal/parser/spf.go:321-413 | a mechanism other than include counts at most one term, before anything else, and makes at most 11 queries |
| `SpfLimits.EvaluationIsBounded` | internal/parser/spf.go:98-112 | one evaluation makes at most 111 queries, lets at most 10 terms and 2 voids past the limits, and exceeds a limit only with the error that reports it |
| `SpfLimits.ModifierMayMove` | internal/parser/spf.go:239-258 | moving a modifier anywhere in a record changes neither result nor cost |
| `SpfLeaves.MailHostsDecide` | internal/parser/spf.go:461-473 | mx matches iff some host has an address in the prefix and no earlier host is unreachable, and errs iff an unreachable host comes first |
| `SpfLeaves.PtrDecides` | internal/parser/spf.go:476-501 | ptr matches iff one of the first ten reverse names lies under the target and resolves back to the sender, and never errs |
| `SpfEvaluator.Evaluation.CountLookup` | internal/parser/spf.go:98-104 | raises the counter and reports the limit exactly from the eleventh term on |
| `SpfEvaluator.Evaluation.CountVoid` | internal/parser/spf.go:106-112 | raises the counter and reports the limit exactly from the third void lookup on |
| `SpfEvaluator.Evaluation.FetchRecord` | internal/parser/spf.go:207-230 | finds the single policy record, reports several as an error, and makes one query |
| `SpfEvaluator.Evaluation.LookupIP` | internal/parser/spf.go:416-428 | returns the addresses and charges a void lookup when there are none |
| `SpfEvaluator.Evaluation.MatchHostIP` | internal/parser/spf.go:437-448 | spends and decides as the reference does for a |
| `SpfEvaluator.Evaluation.MatchMX` | internal/parser/spf.go:450-474 | spends and decides as the reference does for mx, stopping at the first deciding host |
| `SpfEvaluator.Evaluation.MatchPTR` | internal/parser/spf.go:476-501 | spends and decides as the reference does for ptr |
| `SpfEvaluator.Evaluation.CheckMechanism` | internal/parser/spf.go:321-413 | evaluates one mechanism against the shared budget and restores path and depth |
| `SpfEvaluator.Evaluation.FindRedirect` | internal/parser/spf.go:239-253 | finds the redirect modifier wherever it stands, and a second one |
| `SpfEvaluator.Evaluation.EvaluateRecord` | internal/parser/spf.go:234-305 | evaluates the terms left to right, then the redirect, and restores path and depth on every return |
| `SpfEvaluator.Evaluation.FollowRedirect` | internal/parser/spf.go:286-302 | counts the redirect and turns a target without a policy into an error |
| `SpfEvaluator.Evaluation.EvalDomain` | internal/parser/spf.go:179-204 | is the specified evaluation of a domain from any counters, path and depth, and restores path and depth on every return |
| `SpfEvaluator.Check` | internal/parser/spf.go:166-176 | a fresh evaluation gives the specified result, errors becoming permerror or temperror |
| `AuthHistory.PruningIsInvisible` | internal/authlimit/authlimit.go:151-302 | while no table is full, any run of calls with sweeps at any moments gets the same answers and reports the same blocks as a history that is never compacted or pruned |
| `AuthHistory.StepTracks` | internal/authlimit/authlimit.go:151-302 | one call keeps the limiter in step with the full history and answers alike |
| `AuthHistory.RecordedRepresents` | internal/authlimit/authlimit.go:249-272 | in-place compaction keeps a counter time-sorted and equal to the recent part of its full log, and blocks at the same calls |
| `AuthHistory.PrunedRepresents` | internal/authlimit/authlimit.go:281-302 | a counter that pruning removes answers as an absent one from then on |
| `AuthWindow.AtMostMaxPerSpan` | internal/authlimit/authlimit.go:233-273 | in any run of the limiter, full tables and sweeps included, no half-open interval of the shorter of window and block holds more than max failures that record counted for a key, and their fingerprints differ |
| `AuthWindow.RunFollows` | internal/authlimit/authlimit.go:149-302 | after any run the counter of every key, or its absence, answers as the log of what record counted for it |
| `AuthWindow.CountingShows` | internal/authlimit/authlimit.go:249-272 | counting a failure shows: the key is blocked, or the failure ends its compacted counter |
| `AuthWindow.BlocksAtTheMax` | internal/authlimit/authlimit.go:191-196 | after any run a failed login is reported to block the address, or the user, exactly when it is counted there and is the max-th inside the window since the last block |
| `AuthCapacity.FewAreRemembered` | internal/authlimit/authlimit.go:179-302 | a run that names at most 100000 addresses, users and pairs never drops a call, and every answer is that of the history that forgets nothing |
| `AuthCapacity.DroppedExactly` | internal/authlimit/authlimit.go:233-247 | record drops a failure if and only if its key is new and at least 100000 others are blocked or have a failure inside the window |
| `AuthCapacity.DropMeansFull` | internal/authlimit/authlimit.go:179-247 | in any run a failed login is left out only when at least 100000 other addresses, or users, are blocked or have a failure inside the window |
| `AuthCapacity.TablesStaySmall` | internal/authlimit/authlimit.go:201-247 | no run makes a table grow beyond 100000 entries |
| `AuthCapacity.SweepsEveryMinute` | internal/authlimit/authlimit.go:275-302 | a call a minute after the last sweep, or later, leaves exactly the keys that are blocked or have a failure inside the window and the known addresses not yet expired; a check that comes sooner changes nothing |
| `AuthCapacity.GuessingIsStopped` | internal/authlimit/authlimit.go:151-273 | of as many different secrets from one address within a window as the limit allows the last is reported as a block and no other; nobody gets in from there until the block ends, and everybody does afterwards |
| `AuthLimit.DefaultsAre` | internal/authlimit/authlimit.go:41-72 | an unset limit is 10 failures, 15 minutes of window or block, 7 days of a known address |
| `AuthLimit.Limiter.Allow` | internal/authlimit/authlimit.go:151-175 | answers by block of the address, then of the user unless the address is a known one of that user |
| `AuthLimit.Limiter.Failure` | internal/authlimit/authlimit.go:179-197 | records the failure for the address and, if there is one, the user |
| `AuthLimit.Limiter.Success` | internal/authlimit/authlimit.go:201-221 | remembers the address for the user unless the table stays full |
| `AuthLimit.Limiter.Record` | internal/authlimit/authlimit.go:233-273 | the whole new state: make room or drop a new key, and the new counter of the key with every other row kept |
| `AuthLimit.Limiter.RecordOn` | internal/authlimit/authlimit.go:249-272 | on the counter of the key: ignore while blocked, compact, count each fingerprint once, block at max |
| `AuthLimit.Limiter.Compact` | internal/authlimit/authlimit.go:253-260 | keeps exactly the failures younger than the window, in order |
| `AuthLimit.Limiter.MaybePrune` | internal/authlimit/authlimit.go:275-279 | prunes when the last sweep is a minute old |
| `AuthLimit.Limiter.Prune` | internal/authlimit/authlimit.go:281-302 | removes exactly the counters neither blocked nor recent and the expired known addresses |
| `ContentLines.OctetsAre` | internal/caldav/contentline.go:21-98 | the octets escaped, written and cut at are these characters, and a continuation octet starts with the bits 10 |
| `ContentLines.EscapeText` | internal/caldav/contentline.go:21-54 | the octet loop computes the RFC 5545 section 3.3.11 escape, CR LF pairs and bare breaks becoming one break |
| `ContentLines.UnescapeUndoesEscape` | internal/caldav/contentline.go:21-54 | unescaping the escaped text gives it back with every line break written as LF |
| `ContentLines.EscapedIsBreakFree` | internal/caldav/contentline.go:40-47 | no TEXT value can end its line early |
| `ContentLines.FoldLine` | internal/caldav/contentline.go:62-98 | the loop terminates on every octet string and cuts where specified |
| `ContentLines.FindCut` | internal/caldav/contentline.go:78-90 | a cut backs off to a rune boundary, or goes past a rune longer than the limit |
| `ContentLines.UnfoldUndoesFold` | internal/caldav/contentline.go:62-98 | RFC 5545 section 3.1 unfolding gives the line back |
| `ContentLines.FoldedLines` | internal/caldav/contentline.go:71-97 | the physical lines are the fragments, each but the first behind one space |
| `ContentLines.FragmentsAreFull` | internal/caldav/contentline.go:62-98 | a fragment that is not the last has no room for another rune of four octets |
| `ContentLines.ShortIsKept` | internal/caldav/contentline.go:62-70 | a line of at most 75 octets is not folded |
| `ContentLines.FoldedLinesAreShort` | internal/caldav/contentline.go:59-98 | for valid UTF-8 every physical line is valid and at most 75 octets, leading space included |
| `ContentLines.EscapedIsValid` | internal/caldav/contentline.go:30-50 | escaping keeps UTF-8 valid |
| `ContentLines.TextLinesAreShort` | internal/caldav/contentline.go:102-104 | whatever valid text a property holds, its physical lines are valid and at most 75 octets |
| `ContentLines.ContentLine` | internal/caldav/contentline.go:102-104 | escaped, folded and ended |
| `ContentLines.RawContentLine` | internal/caldav/contentline.go:108-110 | folded and ended, not escaped |
| `ICalendar.GenerateICalData` | internal/web/handlers_calendar.go:756-795 | writes the properties the event stands for, in order, each on its folded line |
| `ICalendar.NamesAre` | internal/web/handlers_calendar.go:765-792 | the names and fixed values are these words |
| `ICalendar.EventReadsBack` | internal/web/handlers_calendar.go:756-795 | a reader finds under each name the event's own value and no other: DTEND is the end or an hour after the start, description, place and rule appear only if there are any |
| `ICalendar.EventIsFramed` | internal/web/handlers_calendar.go:765-792 | a reader finds one VEVENT inside one VCALENDAR of version 2.0 |
| `ICalendar.WrittenReadsBack` | internal/web/handlers_calendar.go:765-794 | any list of writable properties reads back after unfolding, splitting and unescaping |
| `ICalendar.CalendarReadsBack` | internal/web/handlers_calendar.go:756-795 | the generated text reads back as exactly the intended properties, TEXT equal up to line-break spelling, if and only if the recurrence rule has no CR LF |
| `Todo.SetTodoCompletion` | internal/caldav/todo.go:20-77 | the line loop is the specified rewriting |
| `Todo.DelimitersAreKnown` | internal/caldav/todo.go:40-66 | a task is opened and closed by lines that start with BEGIN:VTODO and END:VTODO in any case |
| `Todo.OwnedMeans` | internal/caldav/todo.go:79-92 | a property is replaced by its name up to the first colon or semicolon, in any case and without blanks |
| `Todo.LaterWinsExactly` | internal/caldav/todo.go:21-74 | a later write fully overrides an earlier one, for all states and stamps, if and only if the text has no BEGIN:VTODO mark, or no line outside a task is reached just after the BEGIN of an empty one and some line that survives holds the mark |
| `Todo.SecondRewriteWins` | internal/caldav/todo.go:57-71 | on lines without such strays the second rewriting leaves nothing of the first |
| `Todo.StraysAccumulate` | internal/caldav/todo.go:60-67 | every stray line gains one more STATUS from a second write |
| `Todo.OthersAreKept` | internal/caldav/todo.go:69-73 | every line but the completion properties of tasks is kept in order |
| `Todo.TasksGetOneState` | internal/caldav/todo.go:57-71 | every delimited task ends with exactly one STATUS, and when done one COMPLETED and one PERCENT-COMPLETE |
| `Todo.DelimitedCalendars` | internal/caldav/todo.go:20-77 | the two facts above for whole delimited calendars |
| `DtStamp.EnsureDTSTAMP` | internal/caldav/dtstamp.go:23-91 | the line loop with its flush closure is the specified rewriting |
| `DtStamp.Flush` | internal/caldav/dtstamp.go:39-58 | emits the buffered event, with a stamp after its first line when it had none |
| `DtStamp.LinesAreKnown` | internal/caldav/dtstamp.go:60-88 | an event, its end and a stamp are known by how their lines start |
| `DtStamp.ErasingGivesInput` | internal/caldav/dtstamp.go:60-88 | on any lines whatever, erasing the inserted stamps gives back the input |
| `DtStamp.AddedAreStamps` | internal/caldav/dtstamp.go:39-58 | every line added is DTSTAMP with the time given, ended as a line of the calendar |
| `DtStamp.OutputIsStamped` | internal/caldav/dtstamp.go:60-88 | delimited events come out delimited and stamped |
| `DtStamp.EnsuringIsIdempotent` | internal/caldav/dtstamp.go:23-91 | a second call, with any stamp, changes nothing |
| `DtStamp.EventsComeOutStamped` | internal/caldav/dtstamp.go:23-91 | every event of a calendar text comes out stamped and the insertions can be erased |
| `Plist.UnescapeUndoesEscape` | internal/mobileconfig/generate.go:279-288 | a tokenizer reads back what escapeXML wrote |
| `Plist.Decoder.ParseValue` | internal/mobileconfig/plist.go:122-181 | consumes the open element from the token stream and decodes it |
| `Plist.Decoder.ParseDict` | internal/mobileconfig/plist.go:183-232 | pairs keys with the next element, drops values without a key, keeps the last value of a repeated key |
| `Plist.Decoder.ParseArray` | internal/mobileconfig/plist.go:234-261 | collects the modelled items in order |
| `Plist.Decoder.ReadText` | internal/mobileconfig/plist.go:264-284 | concatenates the character data up to the matching end at any nesting |
| `Plist.Decoder.SkipElement` | internal/mobileconfig/plist.go:287-302 | discards up to the matching end |
| `PlistTree.ParseIsMeaning` | internal/mobileconfig/plist.go:122-302 | on the tokens of any document tree the parser computes what the element means and stops right after its end |
| `PlistTree.UnknownInArray` | internal/mobileconfig/plist.go:176-180 | an unknown element of any nesting inside an array leaves its siblings alone |
| `PlistTree.UnknownEntryIsDropped` | internal/mobileconfig/plist.go:195-222 | a dictionary entry whose value is an unknown element of any content, with any text before it, is dropped with its key and the rest reads as if it were not there |
| `PlistTree.UnknownInDict` | internal/mobileconfig/plist.go:212-218 | a stray unknown element, with no key before it, leaves the others alone |
| `PlistTree.PrintedMeansItself` | internal/mobileconfig/generate.go:257-274 | a printed property list with distinct trimmed keys means itself |
| `PlistTree.ParseUndoesPrint` | internal/mobileconfig/plist.go:122-302 | parsing the printed tokens gives the tree back and consumes exactly one balanced element |
| `MobileConfig.WriteString` | internal/mobileconfig/generate.go:257-260 | appends the tokens of one more string entry |
| `MobileConfig.WriteInt` | internal/mobileconfig/generate.go:262-265 | appends the tokens of one more integer entry |
| `MobileConfig.WriteBool` | internal/mobileconfig/generate.go:267-274 | appends the tokens of one more boolean entry |
| `MobileConfig.MailPayload` | internal/mobileconfig/generate.go:161-198 | writes the mail account's dictionary, the secret only when there is one |
| `MobileConfig.DavPayload` | internal/mobileconfig/generate.go:200-248 | writes a CalDAV or CardDAV account's dictionary |
| `MobileConfig.RefusesExactly` | internal/mobileconfig/generate.go:104-113 | a profile is refused for the first of host, address and user that it lacks |
| `MobileConfig.Generate` | internal/mobileconfig/generate.go:104-159 | refuses a profile without host, address or user; otherwise writes exactly the printed property list of the profile |
| `ProfileImport.ImportsExactly` | internal/mobileconfig/parse.go:94-159 | a profile of any origin is imported if and only if no mail payload is POP or without an incoming host and there is a mail, calendar or contact account at all |
| `ProfileImport.FirstMailRefused` | internal/mobileconfig/parse.go:163-202 | a POP type in any spelling in the first mail payload is refused as such, and a missing or blank incoming host as that |
| `ProfileImport.ImportDescribes` | internal/mobileconfig/parse.go:94-228 | the accounts are those the first payload of each kind describes, entry by entry: 993/143, 465/587 and 443/80 by the TLS entry when no port is given; outgoing host and user taken from the incoming ones when empty, the password too but only under the flag |
| `MobileConfigParse.ParsePlist` | internal/mobileconfig/plist.go:52-85 | finds the first plist, dict or array element |
| `MobileConfigParse.ParsePlistBody` | internal/mobileconfig/plist.go:100-119 | decodes the first element inside plist |
| `MobileConfigParse.Parse` | internal/mobileconfig/parse.go:94-161 | takes the first account of each kind and lists the others, and reports POP accounts, missing hosts and profiles without accounts |
| `ProfileRoot.NilRootExactly` | internal/mobileconfig/parse.go:95-101 | on every document with a plist element Parse uses a nil root if and only if the first element inside it is none of dict, array, true, false and the textual ones |
| `ProfileRoot.NilRootHappens` | internal/mobileconfig/plist.go:176-180 | two documents on which it does: an unknown element and a stray key |
| `ProfileRoundTrip.ParseUndoesGenerate` | internal/mobileconfig/parse.go:94-221 | parsing a generated profile gives every account of the profile and nothing else, up to white space around host, names and paths, or the missing-host error when the host is blank |
| `ProfileRoundTrip.RoundTripExactly` | internal/mobileconfig/parse.go:163-221 | host, ports, address, user, secret and the optional DAV accounts come through unchanged if and only if none of the trimmed fields has white space at its ends |
| `ProfileRoundTrip.MailReadsBack` | internal/mobileconfig/parse.go:163-207 | the mail payload reads back with its ports, secret and the outgoing defaults |
| `ProfileRoundTrip.DavReadsBack` | internal/mobileconfig/parse.go:209-221 | a DAV payload reads back under its prefix |
| `AuthBackoff.DelayIsMonotone` | internal/authfail/schedule.go:45-56 | more or older rejections never make the pause shorter |
| `AuthBackoff.Table.AcquireAuthAttempt` | internal/db/auth_backoff.go:45-74 | allows without a row, refuses while paused, otherwise leases the next pause; other rows stay |
| `AuthBackoff.Table.RecordAuthFailure` | internal/db/auth_backoff.go:77-114 | applies the burst rule or counts and extends the pause; keeps the row's user; other rows stay |
| `AuthBackoff.Table.ClearAuthBackoff` | internal/db/auth_backoff.go:117-132 | removes the row and returns it unless it was a placeholder |
| `AuthBursts.RejectionCounts` | internal/authfail/schedule.go:60-92 | in any run a rejection is counted if and only if it is the first since the last clear or comes 30 seconds or more after the latest one, counted or not; then the pause is 1, 5, 15, 60 minutes, an hour, or six hours after a day, and otherwise the next attempt stays |
| `AuthBursts.BurstCountsOnce` | internal/authfail/schedule.go:80-85 | rejections each less than 30 seconds after the one before count once and leave the next attempt a minute after the first |
| `AuthRuns.NextAttemptNeverDecreases` | internal/db/auth_backoff.go:45-114 | while the state is not cleared no run of steps moves next_attempt_at back |
| `AuthRuns.OneWinnerPerPause` | internal/db/auth_backoff.go:61-73 | of any workers waking up at most one wins: a second winner comes no sooner than another whole pause, at least a minute, later |
| `AuthRuns.LoginsAreRationed` | internal/authfail/schedule.go:30-98 | in every run, with verdicts however late and logins started by hand, at most 27 of the rejections counted in the first 24 hours had a verdict within 30 seconds of their permission, and once more than four were counted and a day has passed each such one is 6 hours after the one before |
| `AuthRuns.KeepsTheSchedule` | internal/authfail/schedule.go:22-27 | leaving late verdicts and manual logins out of account, rejections are counted no sooner than the schedule says |
| `AuthLateness.AtMost27ADay` | internal/authfail/schedule.go:30-98 | in every run with verdicts less than two minutes after their permission at most 27 rejections are counted in the first 24 hours, and later ones are 6 hours apart once more than four were counted |
| `AuthLateness.TwoMinutesExactly` | internal/authfail/schedule.go:30-98 | the bound of 27 a day holds for all runs with verdicts less late than a given bound if and only if that bound is at most two minutes |
| `AuthLateness.BurstWindowExactly` | internal/authfail/schedule.go:77-88 | every pause is kept in all such runs if and only if the bound is at most the 30 seconds of the burst window |
| `AuthLateness.TwentySevenHappen` | internal/authfail/schedule.go:22-27 | a run with immediate verdicts that counts 27 in the first day |
| `AuthLateness.TwentyEightHappen` | internal/authfail/schedule.go:77-88 | a run with verdicts of at most exactly two minutes that counts 28 |
| `FlagStore.RefreshedShows` | internal/db/messages.go:509-575 | a refreshed row shows the upstream pointer and, unless a change is pending, its flags, and is written exactly when it would differ |
| `FlagStore.PullTwice` | internal/db/messages.go:500-507 | repeating a pull with the same upstream data changes no row and reports no change |
| `FlagStore.PullReaches` | internal/db/messages.go:474-487 | a pull reaches exactly the account's own rows of that user and Message-ID |
| `FlagStore.PullRespects` | internal/db/messages.go:474-487 | rows of other accounts stay, a pending change keeps its flags, and a reported change is a change of some row |
| `FlagStore.Store.QueueFlagSync` | internal/db/flag_sync.go:23-44 | a new row has the folder, UID, flags and delete given; the upsert keeps id, folder and UID, ORs the delete, takes the new flags and resets the backoff |
| `FlagStore.Store.GetPendingFlagSync` | internal/db/flag_sync.go:51-82 | lists the account's due rows, each once, oldest first, up to the limit, and leaves out none older than one listed |
| `FlagStore.Store.MarkFlagSyncFailed` | internal/db/flag_sync.go:87-111 | raises the retry count and pushes the next attempt out by the schedule, for that id only |
| `FlagStore.Store.DeleteFlagSyncEntry` | internal/db/flag_sync.go:114-121 | removes the row with that id and no other |
| `FlagStore.Store.RefreshExistingFromRemote` | internal/db/messages.go:488-577 | an empty Message-ID changes nothing; otherwise exactly the account's own rows are refreshed and a change is reported iff one differed |
| `FlagSync.InvStep` | internal/worker/flag_sync_task.go:47-146 | every step of users, pulls, upstream and the worker keeps the protocol invariant, given that a removal takes only what was stored (the row still has the flags stored and no delete, or a delete was stored) |
| `FlagSync.UserWins` | internal/db/messages.go:464-472 | over every interleaving in which each removal takes only what was stored, changes queued while the worker holds the row included: a change not yet pushed is still queued, still what the user sees and bound for the place of the upstream copy, and a delete asked for is queued as a delete or done |
| `FlagSync.ChangeIsQueued` | internal/service/messages/messages.go:183-309 | a change of a synced message is queued as the user made it, for the folder and UID the message row shows, due at once; any other queues nothing |
| `FlagSync.RowKeepsPlace` | internal/db/flag_sync.go:23-44 | while a row is queued, further changes keep its place, id and delete, and the worker takes the row as it is |
| `FlagSync.StoreDelivers` | internal/worker/flag_sync_task.go:106-118 | what the worker stores, when nothing was queued meanwhile, is the user's last change |
| `FlagSync.DeleteStaysQueued` | internal/db/flag_sync.go:31 | a queued delete stays set until its row is removed |
| `FlagSync.SettledAgrees` | internal/db/messages.go:456-474 | one push and one pull with nobody else active make both sides agree, and a further pull changes nothing |
| `FlagSync.AnyRunSettles` | internal/db/messages.go:456-474 | the same from the end of any run in which each removal took only what was stored |
| `FlagSync.RemovalLosesExactly` | internal/worker/flag_sync_task.go:106-137 | between storing an entry and removing its row, with any user changes and pulls meanwhile, nothing of the user's is lost if and only if the entry was a delete or the row removed still has the flags stored and no delete |
| `FlagSync.FinishKeepsExactly` | internal/worker/flag_sync_task.go:134-137 | the invariant survives the removal of the row if and only if the removal takes only what was stored |
| `FlagSync.CreatedAtTells` | internal/db/flag_sync.go:32 | whether one was queued shows in created_at |
| `FlagSync.ChangeLost` | internal/worker/flag_sync_task.go:94-140 | a run in which the user's second change is deleted unpushed and the next pull undoes it |
| `FlagSync.BackoffHolds` | internal/db/flag_sync.go:95-103 | a failed row waits out its pause; a new change makes it due at once |
| `FlagSync.BackoffGrows` | internal/db/flag_sync.go:96-103 | the pauses never shrink and stay between a minute and a day |
| `Journal.MessageChanges.Record` | migrations/043_message_changes_journal.sql:36-65 | a change with a Message-ID is appended under a larger sequence number |
| `Journal.MessageChanges.GetMessageChanges` | internal/db/message_changes.go:27-67 | the row loop returns the first page of the user's tail, or nothing when the cursor cannot be used, with head and watermark |
| `Journal.MessageChanges.CompactMessageChanges` | internal/db/message_changes.go:73-90 | removes the old rows and raises the watermark to the highest removed |
| `Journal.PageIsAsAsked` | internal/db/message_changes.go:27-67 | a page is the front of the tail, as long as asked for, at most 5000, and shorter only at the end |
| `JournalClient.TailSurvives` | internal/db/message_changes.go:21-49 | a cursor at or above the watermark sees exactly the full history's tail after any compactions |
| `JournalClient.CompactOk` | internal/db/message_changes.go:74-83 | any cutoff keeps that, whatever order the timestamps are in |
| `JournalClient.PollAdvances` | internal/web/handlers_desktop.go:687-709 | a full page moves the client's view and cursor exactly one page along the history |
| `JournalClient.PollsCatchUp` | internal/web/handlers_desktop.go:683-709 | from any state, one poll more than the backlog has full pages makes the client's view the visible mail |
| `JournalClient.ClientConverges` | internal/db/message_changes.go:18-49 | after any run of writes, compactions and polls, enough polls give the view that replaying the whole history gives |
| `JournalClient.AdoptingTheHead` | desktop/native/src/engine.rs:1003-1027 | adopting the head after a page skips nothing if and only if the page held the whole backlog |
| `JournalClient.AlwaysAdoptingTheHead` | desktop/native/src/engine.rs:1003-1027 | over every run of writes, compactions and polls, a client that always adopts the head has, while its cursor is good, received exactly the user's history up to it if and only if no poll since its last resync met a backlog above a page |
| `JournalClient.ResyncsAgain` | internal/db/message_changes.go:32-44 | a client that resynced and took the head is told to resync again exactly while nothing newer than the last pruned change was journaled |
| `JournalClient.PartsAreExact` | internal/db/message_changes.go:32-53 | with a compaction between the queries the page returned is the exact one if and only if no row of that page is older than the cutoff; a watermark read afterwards would tell |
| `JournalClient.TombstoneLost` | internal/db/message_changes.go:32-53 | a reply without reset that misses a delete |
| `Migrate.LessIsTotalOrder` | internal/db/migrate.go:56-89 | less is a strict total order and versionAtMost its reflexive closure |
| `Migrate.Database.Inspect` | internal/db/migrate.go:264-369 | refuses a foreign schema; splits the files at the baseline; or reports applied, modified, unknown, pending and late files of a tracked database |
| `Migrate.Compare` | internal/db/migrate.go:331-367 | the loops over a tracked database: pending are exactly the unrecorded files in order, late those older than some applied one |
| `Migrate.BaselineIsAPrefix` | internal/db/migrate.go:307-317 | the baseline files come first and the pending ones are the rest |
| `Migrate.FilterInOrder` | internal/db/migrate.go:358-367 | what is pending stays in version order |
| `Migrate.RunRecords` | internal/db/migrate.go:464-519 | after a run that went through every file without a row has one with its own name and checksum, marked as baseline exactly for the baseline, and the rows before are untouched |
| `Migrate.NothingIsLeft` | internal/db/migrate.go:264-369 | the next inspection then reports a tracked database with nothing pending or late and nothing modified that was not before |
| `Migrate.Database.AdoptBaseline` | internal/db/migrate.go:464-484 | records every baseline file in one step, running none |
| `Migrate.Database.ApplyMigration` | internal/db/migrate.go:486-519 | body and row together, or neither when the body fails |
| `Migrate.Database.RunMigrations` | internal/db/migrate.go:386-459 | plans from the database as it was (nothing for a foreign schema; everything for an empty one; the files beyond the baseline for one to adopt; the unrecorded ones for a tracked one), records the baseline, applies the planned files in order up to the first that fails, and on success leaves every file recorded |
| `MigrateRuns.InvStep` | internal/db/migrate.go:386-519 | every statement of any instance, and its death anywhere, keeps the invariant and every row |
| `MigrateRuns.MigrationsRunOnce` | internal/db/migrate.go:386-519 | over all runs a transactional body was kept exactly as often as its non-baseline row exists, once or never; baselined files never ran; each instance worked in version order; a finished instance left every file recorded |
| `MigrateRuns.RowsAreFinal` | internal/db/migrate.go:464-519 | a row once there never changes or goes |
| `MigrateRuns.FirstRecorded` | internal/db/migrate.go:358-367 | after recording the first pending file the others are still exactly the pending ones |
| `MigrateRuns.AdoptedRest` | internal/db/migrate.go:307-317 | after adopting, exactly the files beyond the baseline are pending |
| `MigrateRuns.PlainRunsTwice` | internal/db/migrate.go:490-499 | a body outside a transaction can be executed twice |
| `SeqNums.FolderClientSeqNums` | internal/db/upstream_vanished.go:120-151 | maps each requested UID to its 1-based rank in the sorted union and leaves the others out |
| `SeqNums.MergedAscends` | internal/db/upstream_vanished.go:135-146 | merging the two ascending disjoint lists gives an ascending list |
| `SeqNums.DescendingRemovesExactly` | internal/notify/hub.go:76-80 | sent in descending order, EXPUNGE numbers remove exactly the messages they were taken for |
| `SeqNums.VanishedLeaveTheView` | internal/db/upstream_vanished.go:116-151 | the numbers of any removed set, sent largest first, leave the client with the remaining view |
| `SeqNums.AscendingRemovesOthers` | internal/notify/hub.go:76-80 | sent in ascending order they remove another message |
| `LikePattern.EscapedIsLiteral` | internal/db/message_mutations.go:129-131 | an escaped text matches itself and nothing else, and the pattern behind it goes on from there |
| `LikePattern.ContainsPatternIsContains` | internal/db/folder_search.go:43-46 | the pattern for s matches t if and only if s occurs in t, whatever characters s is made of |
| `LikePattern.ILikeContains` | internal/db/folder_search.go:54-85 | the same ignoring ASCII case |
| `LikePattern.SenderPatterns` | internal/db/message_mutations.go:137-150 | one pattern per value that is not blank, addresses first |
| `LikePattern.SenderPatternsMean` | internal/db/message_mutations.go:133-165 | a purge selects exactly the senders that hold a bracketed address or an @domain> literally |
| `InviteCalendar.ChooseInviteCalendar` | internal/calendar/incoming.go:537-628 | the four passes make the declarative four-level choice |
| `InviteCalendar.InvitedMeans` | internal/calendar/incoming.go:633-640 | whether an address is invited does not depend on its case or the blanks around it, and a blank one never is |
| `InviteCalendar.ChosenFor` | internal/calendar/incoming.go:575-628 | why a calendar is chosen: its source delivers the account, or else logs in as somebody invited, or else is local, or else declares an invited identity |
| `InviteCalendar.ChoiceIsUnique` | internal/calendar/incoming.go:537-628 | with distinct calendar ids the choice is determined |
| `InviteCalendar.OrderDoesNotMatter` | internal/calendar/incoming.go:547-564 | permuting calendars and sources changes nothing |
| `InviteCalendar.ChosenIsWritable` | internal/calendar/incoming.go:552-557 | a chosen calendar is one of the user's, writable, and belongs to a source |
| `InviteCalendar.TieIsRefused` | internal/calendar/incoming.go:607-627 | on identity alone the choice is refused as a tie if and only if two sources with writable calendars claim it |

## Left out

- Real DNS, HTTP, TLS, SMTP and IMAP traffic, contexts and timeouts: DNS is a fixed function, network outcomes are steps of the state machines.
- The SPF cache, `CheckSPF`'s argument checks and the diagnostic texts of every error.
- Case folding, white space and trimming are those of ASCII; text of the line rewriters, patterns and profiles is a sequence of characters, only `ContentLines` and `ICalendar` work on octets.
- Integers are unbounded; instants are milliseconds or abstract times, and only `AuthBackoff` uses their concrete values.
- `SpfReading.RecordIsRead`: terms that are no directive or modifier of the grammar are treated in `SpfAnswers.FaultyTerms`.
- `strconv`, `net.ParseIP`, base64, `time.Format` and SHA-256 are parameters.
- `AuthLimit`: `IPKey`, `UserKey` and the keyed fingerprint are abstract values; a counter is a value in the map, so aliasing of the compacted slice is not modelled; the overflow flag only limits logging. The clock readings are taken not to decrease in the order calls take the lock.
- `encoding/xml`: the models start from balanced tokens; its rewriting of a bare carriage return to a line feed, its rejection of control characters and entities other than the five predefined are not modelled.
- `looksBinary`, `DAVAccount.URL`, `ResolvedEmail`, `SuggestedName`, and how a profile's identifier and UUIDs are derived.
- `ContentLines.UnfoldUndoesFold`: assumes a line without CR LF followed by a blank, since unfolding would remove that one too.
- `DtStamp.EnsuringIsIdempotent`: assumes events that end where they begin, as `EventsComeOutStamped` does; `ErasingGivesInput` assumes nothing.
- `DtStamp`: what begins or ends an event and what is a stamp are the code's own case-sensitive prefix tests, so `DTSTAMPX:` or the DTSTAMP of a nested component counts as the event's stamp, and `begin:vevent` begins no event.
- `Todo.TasksGetOneState`: assumes delimited tasks with at least one ordinary line.
- `AuthBackoff`: marking a row as notified, orphan cleanup, `GetAuthPausedIDs`, and clocks that go back. A subject's kinds are opaque.
- `SpfRfc.StrictRfcExactly`: a faulty mechanism is one `checkMechanism` itself rejects when it reads it; the grammar of domain-spec, of macro-string and of the names and values of modifiers is not checked, and macros are not expanded. Void lookups (section 4.6.4) are counted where the code counts them: an empty answer for the addresses of an mx host, for the reverse names of the sender or the addresses of one, or for a TXT record is free.
- `FlagSync`: one message and one push worker at a time per account, as the worker pool enforces; the folder and UID of the upstream copy do not change, and a pull sees it there; a change that repeats what was stored counts as stored, even if upstream was changed elsewhere since; `CleanupOldFlagSync` and the purge of the local row.
- `JournalClient.AlwaysAdoptingTheHead`: a reset is taken to bring a resync up to the adopted head, as `GetMessageChanges` asks; the desktop engine resyncs conversations on its own schedule.
- `JournalClient`: sequence numbers become visible in increasing order; the client's view is the set of visible Message-IDs, not their contents; messages without a Message-ID are never journaled.
- `Migrate`: reading files, checksums and the baseline fingerprint queries; version numbers of unequal digit width; a statement outside a transaction that stops halfway.
- `ProfileImport`: documents have a `plist` element; the list of ignored payloads is not described.
- `MobileConfig.Generate`: assumes that decimal numbers hold no XML metacharacter.
- `ICalendar.GenerateICalData`: assumes time stamps of at most 40 octets without line breaks.
- `SeqNums.FolderClientSeqNums`: the two queries are taken from one state, so the lists are disjoint.
- `LikePattern`: the error PostgreSQL raises for a pattern that ends in the escape character is a non-match.
- `InviteCalendar.ChooseInviteCalendar`: that `chooseInviteCalendar` sorts its caller's slice is not captured, a sorted copy is used; source ids are distinct, being primary keys.
- The outbox, spam scoring, avatars, OAuth, search indexing, UIDVALIDITY handling, and all web handlers but `generateICalData`.
