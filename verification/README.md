# srvmon: a verified model of the hub and its agents

srvmon is a monitoring hub that agents report to. This project models the parts of it that keep real
invariants and proves those invariants for every input, every run and every interleaving. One module
stands for each component:

- `Text`, `Url`, `Markup`, `Sanitize`: the note sanitizer (`internal/hub/sanitize.go`). A note is a forest
  of nodes in the first-child / next-sibling form of `html.Node`. The cleaner is a tree transformation,
  the builder-writing walks are methods proved against it, and `Markup` holds a strict parser for exactly
  the grammar the sanitizer prints. The link filter is compared with the URI grammar of RFC 3986.
- `Alerts`: the alert engine as a class, and as a machine whose steps are the critical sections of
  `observe` and `checkOffline`, single emissions outside the mutex, and `forget`, in any order on any
  servers.
- `Files`, `Restore`, `Update`: a file system whose operations may each fail, with a ghost trace of every
  directory state and a ghost count of faults, so that a property of the trace is a property of a crash at any point. On it stand
  `handleRestore` and the agent's `selfUpdate`. `Update` also holds the request-flag protocol between hub
  and agent: requests, lost and abandoned pushes, failed database writes, failed downloads, kills and
  restarts in any order.
- `History`, `Ingest`: the samples table, the GROUP BY query as one pass over the selected rows, the push
  handler, and a machine that interleaves the pushes of all servers with pruning and deletion.
- `Limiter`: the login limiter over Go slices (a backing array and a length), with the filter that reads
  and writes the same array, and a machine in which check and record are separate steps.
- `Live`, `FanOut`: the hub's and the browser's 90-sample windows, and the bounded event channels.
- `Excerpt`, `Metrics`: the search excerpt over UTF-8 bytes (section 4 of RFC 3629), and the throughput
  and CPU arithmetic.

Clock readings are integers (nanoseconds in `Limiter` and `Update`, Unix seconds elsewhere) except in
`Metrics`, where they are reals. Where a property needs the clock not to run backwards, it says so.

## What the code does not quite keep

Four statements one would expect of the code hold only under a condition. Each has a lemma that names the
condition and, where it fails, an input.

- **A restore keeps the old database only if `Close` checkpointed it.** `handleRestore` logs a failing
  `Close` and goes on. After a successful swap the set-aside copy equals the database the hub had exactly
  when `Close` succeeded or there was nothing left in the write-ahead log; this equivalence is part of the
  contract of `Restore.HandleRestore`. `Restore.UncheckpointedLogIsLost` shows a directory in which the log
  holds what no copy then has.
- **An update request can be lost.** `ClearAgentUpdate` clears the row whatever it holds by then, so a
  request made while the hub is still answering a push that read an older, already met request disappears,
  also when the agent has given up on that push. `Update.LostExactlyInRace` says exactly from which states
  some run without failures loses a request, `Update.UpdateArrives` that from all others every such run
  arrives, and `Update.RequestCanBeLost` and `Update.AbandonedPushCanLose` reach the bad states from every
  start.
- **The excerpt can index past the end, or miss its match.** The search finds the match in the lower-cased
  text but cuts the original, and lower case can be longer or shorter. Every hit is the lower case of some
  characters of the text, and `Excerpt.SearchShowsExactly` says exactly when the excerpt shows them: when the
  cut, made where the lower-cased prefix ends, starts before the match's first character is over and ends
  after its last one has begun. `Excerpt.SearchIndexCanOverrun`, `Excerpt.SearchCutCanMissMatch` and
  `Excerpt.SearchCutCanStopShort` are texts on which it does not: past the end, after the match, before it.
  When text and query keep their byte lengths in lower case it always does (`Excerpt.SearchShowsMatch`).
- **The number of rows left by pruning is bounded by the server's last accepted time, not by the clock.**
  `Ingest.PruningBoundsRows` bounds it for every run and every clock, and `Ingest.MostRowsAreReached` meets
  the bound. `Ingest.PruneBoundHoldsExactly` then says for which last accepted times the bound
  (now - cutoff) / interval + 1 holds in every run, and `Ingest.SteppedBackClockBreaksPruneBound` shows two
  rows where it allows one.

`InsertSample` is documented as ignoring a duplicate timestamp; the statement is INSERT OR REPLACE, and the
model follows the statement. `Ingest.WritesNeverReplace` shows that the difference never arises.

## Model

| member | source | states |
|---|---|---|
| `Sanitize.SanitizedParses` | internal/hub/sanitize.go:42-91 | For every parsed forest, the stored note is the print of a clean tree (allowed tags only, merged text, childless void elements, `dir` in ltr/rtl/auto, vetted `href` on links only and then followed by `target` and `rel`), and the strict parser reads exactly that tree back. |
| `Sanitize.SanitizeIsIdempotent` | internal/hub/sanitize.go:42-132 | Sanitizing a stored note again, outer trim and re-added `target`/`rel` included, changes nothing; and its search text is that of the original forest whenever void elements are childless. |
| `Sanitize.MarkupSurvives` | internal/hub/sanitize.go:59-100 | For every forest, the tags and runes of the cleaned tree, in order and nested as before, are exactly those that should be kept: every rune outside active elements, every formatting element with its attributes cleaned. |
| `Sanitize.StoredNoteKeepsMarkup` | internal/hub/sanitize.go:42-100 | So the stored note, parsed, holds exactly what should be kept of what the operator wrote, but for white space at its ends. |
| `Sanitize.LinksAreMadeSafe` | internal/hub/sanitize_test.go:81-98 | For every address and text: a usable link is stored with its address and made safe to open, any other loses the address and keeps the text. |
| `Sanitize.TagsAreThese` | internal/hub/sanitize.go:18-36 | The formatting and the active elements, by name. |
| `Sanitize.RawTextIsInvariant` | internal/hub/sanitize.go:165-188 | Cleaning does not change a rune of what `NoteText`'s walk writes: unwrapping, stripping and separator spaces commute. |
| `Sanitize.CleanFixpoint` | internal/hub/sanitize.go:18-100 | The trees the cleaner leaves alone are exactly the clean ones, described without the cleaner. |
| `Sanitize.CleanAttrsFixpoint` | internal/hub/sanitize.go:104-132 | The attribute lists `cleanAttrs` leaves alone are exactly those of harmless attributes, with `target` and `rel` last just when there is an `href`. |
| `Sanitize.CleanAttrsAreClean` | internal/hub/sanitize.go:104-132 | Whatever attributes come in, only harmless ones leave, and an `href` never without `target` and `rel`. |
| `Sanitize.KeptExactly` | internal/hub/sanitize.go:106-117 | Nothing allowed is lost: a direction, or a vetted `href` on a link, is kept exactly when some attribute names it, in any case. |
| `Sanitize.CleanAttrsLoop` | internal/hub/sanitize.go:104-132 | The two loops compute the attribute specification. |
| `Sanitize.FindHref` | internal/hub/sanitize.go:119-124 | The second loop finds an `href` exactly when one is kept. |
| `Sanitize.WriteClean` | internal/hub/sanitize.go:59-94 | The recursive walk appends to the builder exactly the print of the cleaned node, about which `Sanitize.MarkupSurvives` speaks. |
| `Sanitize.WriteChildren` | internal/hub/sanitize.go:96-100 | The sibling loop appends the print of the cleaned children, merged text included. |
| `Sanitize.SanitizeNote` | internal/hub/sanitize.go:42-57 | A parsed note becomes the trimmed print of its cleaned forest, which keeps what `Sanitize.StoredNoteKeepsMarkup` says; an unparseable one becomes markup-free text that unescapes to the input. |
| `Sanitize.Walk` | internal/hub/sanitize.go:166-185 | The flattening walk of one node appends exactly its raw text. |
| `Sanitize.NoteText` | internal/hub/sanitize.go:157-190 | The search text of a parsed note is its raw text with white space runs made single spaces; an unparseable note is returned as it is. |
| `Sanitize.BlocksSeparateWords` | internal/hub/sanitize.go:165-188 | For every element between two words: a block ends the word, an inline element does not, and an active one is not searched. |
| `Sanitize.SearchTextIsPlain` | internal/hub/sanitize.go:190-190 | The search text is the words of the raw text apart by single spaces, with no other white space. |
| `Sanitize.TrimKeepsSearchText` | internal/hub/sanitize.go:56-56 | Trimming the printed note changes nothing a search sees. |
| `Sanitize.TrimStartPrints` | internal/hub/sanitize.go:56-56 | Trimming the printed text on the left is a tree operation on the first text run, which never eats markup or an escaped carriage return. |
| `Sanitize.TrimEndPrints` | internal/hub/sanitize.go:56-56 | The same on the right, for the last text run. |
| `Markup.PrintThenParse` | internal/hub/sanitize.go:59-94 | Every tree of the output grammar is read back from its print, in any context that ends a sibling list. |
| `Markup.ParseThenPrint` | internal/hub/sanitize.go:59-94 | The converse: whatever the strict parser accepts is a tree of the output grammar and is printed as it was read. |
| `Markup.EscapeThenUnescape` | internal/hub/sanitize.go:62-62 | The strict unescape inverts the escape on every text. |
| `Markup.UnescapeThenEscape` | internal/hub/sanitize.go:62-62 | And the escape inverts the strict unescape wherever that succeeds. |
| `Markup.EscapeHasNoMarkup` | internal/hub/sanitize.go:62-85 | Escaped text contains neither `<` nor a double quote. |
| `Url.SafeUrlIsExact` | internal/hub/sanitize.go:136-153 | On every URI reference of RFC 3986, `safeURL` accepts if and only if it is a relative reference or its scheme is http, https or mailto in any case. |
| `Url.SafeUrlOnEveryText` | internal/hub/sanitize.go:136-153 | On every text whatsoever, it accepts if and only if the trimmed text is non-empty and free of control characters and either no colon precedes the first `/`, `?` or `#`, or what precedes the first colon lower-cases to an allowed scheme. |
| `Url.SafeUrlJudgesScheme` | internal/hub/sanitize.go:142-153 | Whatever follows it, a scheme of RFC 3986 at the start decides: only http, https and mailto pass, and none with a control character in the link. |
| `Url.CutLower` | internal/hub/sanitize.go:148-149 | For every text, cutting the lower-cased link at its first colon is lower-casing the cut link. |
| `Text.TrimSpaceIsExact` | internal/hub/sanitize.go:56-56 | `TrimSpace` removes white space only, all of it at both ends, and is idempotent. |
| `Text.JoinedWords` | internal/hub/sanitize.go:190-190 | Joining words by spaces and splitting the result gives the words back. |
| `Alerts.AlertEngine.Observe` | internal/hub/alerts.go:51-107 | A disabled engine does nothing; otherwise the server's state and the emitted events are those of the specification, which `Alerts.ObservedEffect` and `Alerts.ObservedReports` describe, and no other server changes. |
| `Alerts.AlertEngine.Evaluate` | internal/hub/alerts.go:85-101 | The loop over the three checks computes the specified state and events. |
| `Alerts.AlertEngine.CheckOffline` | internal/hub/alerts.go:125-155 | A disabled engine does nothing; otherwise, for every server: it is raised afterwards exactly if it was or is listed, has reported once and has been silent longer than the limit; its usage standing is untouched; and the pass emits one report of its silence exactly if it is newly raised, else none. |
| `Alerts.SweepIsExact` | internal/hub/alerts.go:136-154 | The same of the specification of a pass, for any list of rows. |
| `Alerts.AlertEngine.Forget` | internal/hub/alerts.go:42-46 | Drops the server's state and no other. |
| `Alerts.ObservedEffect` | internal/hub/alerts.go:85-101 | One enabled push counts the streak or resets it, raises a kind exactly when it is over and the streak reaches the sustain count, keeps it raised until the value is five points below the threshold, and reports a firing exactly on a rise. |
| `Alerts.ObservedReports` | internal/hub/alerts.go:78-107 | A push brings the server back online and reports, in this order, its return and every flip of the CPU, memory and disk flags with the usage that caused it, and nothing else. |
| `Alerts.StepsAreSections` | internal/hub/alerts.go:78-155 | The machine's steps are the critical sections and emissions of the engine's methods. |
| `Alerts.FlagsFlip` | internal/hub/alerts.go:78-106 | In every interleaving, each epoch's changes of a flag are its flips in lock order from unset, and the current epoch's end in the flag's value. |
| `Alerts.ChangesAlternate` | internal/hub/alerts.go:78-155 | Hence the changes of any (server, kind) strictly alternate firing, cleared, firing. |
| `Alerts.EventsAreAccounted` | internal/hub/alerts.go:104-106 | In every interleaving each event ordered by the mutex is either emitted or pending, exactly once. |
| `Alerts.EmittedPlusPendingIsFlag` | internal/hub/alerts.go:78-154 | In every interleaving, firings minus clears over emitted and pending events of the current epoch is one exactly when the flag is set, else zero. |
| `Alerts.StreakIsLongestRun` | internal/hub/alerts.go:56-101 | In every interleaving with a fixed sustain setting n (anything below 1 counting as 1) and arbitrary thresholds, the streak is the longest run of pushes at or over the threshold up to the last one, and a run of n raises the flag. |
| `Alerts.FiringsAreRateBounded` | internal/hub/alerts.go:56-101 | And k firings in m enabled pushes of an epoch satisfy k * (n + 1) <= m + 1. |
| `Alerts.PruningIsInvisible` | internal/hub/store.go:482-509 | Pruning the event log to 500 rows changes no answer of `AlertEvents`. |
| `Alerts.FeedIsNewestFirst` | internal/hub/store.go:482-502 | The feed holds the newest events, newest first, as many as asked for, or a hundred when that is not between 1 and 500. |
| `Restore.HandleRestore` | internal/hub/backup.go:63-141 | With every operation fallible and a crash anywhere: the database name holds the original or an accepted file; if `Close` checkpointed, the original is always there or set aside, and a hub opening the directory reads it or an accepted one; every rejection leaves all live files alone; on success the upload is installed, and the set-aside copy equals the original exactly when the log was checkpointed or empty; without a fault exactly the acceptable uploads are installed and no log or incoming file is left, and the database name is left empty only after two faults. |
| `Restore.Swap` | internal/hub/backup.go:111-128 | The two renames and the rollback keep every intermediate directory safe and end installed, put back, or set aside. |
| `Restore.Receive` | internal/hub/backup.go:77-99 | Up to `Close` only the incoming file changes; an upload passes exactly when it is acceptable, unless a fault occurs, and a rejected one is cleaned up. |
| `Restore.InspectBackup` | internal/hub/store.go:191-217 | Accepts only a readable database with the four tables and at least one user; a count of servers or samples that fails is reported as zero. |
| `Restore.AcceptableMeans` | internal/hub/store.go:202-215 | Accepted are exactly the databases with the four tables of the schema and an operator account. |
| `Restore.UncheckpointedLogIsLost` | internal/hub/backup.go:107-131 | A directory whose log holds a database that its file does not: if `Close` fails and everything else succeeds, no copy of it remains. |
| `Restore.UntouchedIsSafe` | internal/hub/backup.go:77-99 | Directory states that differ only in the incoming file are all safe. |
| `Update.SelfUpdate` | cmd/agent/selfupdate.go:28-66 | At every moment the installed binary is the old one or one whose own -version output is the wanted version; success installs the served file, failure leaves the old one, and the spare copy is the old binary or an earlier spare; without a fault it succeeds exactly on the wanted version, leaves the old binary as the spare and no staged file. |
| `Update.VersionRoundTrip` | cmd/agent/selfupdate.go:89-103 | An intact build is recognised: the line the agent prints yields the version compiled into it. |
| `Update.VersionIsLastWord` | cmd/agent/selfupdate.go:98-102 | In general the version is the last of at least two words of the output. |
| `Update.UpdateIsSafe` | cmd/agent/main.go:118-157 | In every run the installed binary is the starting one or reports a requested version, and the download attempts of one process lie more than five minutes apart. |
| `Update.FlagIsClearedOnArrival` | internal/hub/ingest.go:59-71 | A step clears the request flag if and only if it answers a push, abandoned by its agent or not, whose snapshot reports the target that push read; any other push of a mismatched agent is answered with its target. |
| `Update.ClearIsEarned` | internal/hub/ingest.go:59-71 | In every run, a request is cleared only by answering a push that an agent began while running some version and with which the hub afterwards read a request for that very version. |
| `Update.MismatchedAgentIsTold` | internal/hub/ingest.go:60-71 | Over any run without a new request, and whatever fails or restarts, the request stands and every reply carries it until the agent runs the target. |
| `Update.GoodStepDecreases` | cmd/agent/main.go:148-157 | From every reachable steady state with the flag set to the served version, every failure-free step, of the agent or of the hub for an abandoned push, arrives, or keeps the request and the state steady and strictly decreases a lexicographic measure. |
| `Update.SomeStepIsEnabled` | cmd/agent/main.go:118-160 | In every state some failure-free step can be taken, so such runs never get stuck. |
| `Update.UpdateArrives` | cmd/agent/main.go:118-160 | So every endless failure-free run arrives, however agent and hub steps interleave and whatever time passes between them, and the request stands until then. |
| `Update.LostExactlyInRace` | internal/hub/store.go:371-374 | A state is steady (the request is met, or no push in the hub's hands is about to clear it) if and only if no failure-free run clears a request the agent has not met. |
| `Update.ClearedStaysCleared` | internal/hub/store.go:371-374 | Without a new request nothing brings a cleared flag back. |
| `Update.RequestCanBeLost` | internal/hub/ingest.go:62-67 | From every fresh start, four steps reach a state in which answering the current push loses a request. |
| `Update.AbandonedPushCanLose` | internal/hub/ingest.go:62-67 | And five steps one in which answering a push its agent has abandoned does. |
| `Update.MismatchInstallsNothing` | cmd/agent/selfupdate.go:49-53 | While no served build reports the target, no run without a new request, whatever fails, ever installs the target or stops telling the agent of it. |
| `Update.ServerTable.Request` | internal/hub/store.go:290-303 | Marks the one server of a positive id, or exactly those whose agent is not on the version, and counts them. |
| `Ingest.RequestIsProtocolStep` | internal/hub/store.go:290-303 | The protocol's request is what that does to the agent's row. |
| `Update.ServerTable.Clear` | internal/hub/store.go:371-374 | Clears the request of one row, whatever it holds. |
| `Update.ServerTable.Touch` | internal/hub/store.go:404-409 | Records version and arrival time, of an existing row only. |
| `Update.Agent.Tick` | cmd/agent/main.go:118-160 | One tick: failure counting, logging of the first and every thirtieth failure and of the recovery, interval adoption, and an update attempt exactly when another version is asked for and the cooldown is over. |
| `Update.HandleIsTick` | cmd/agent/main.go:148-157 | The protocol's handling of a reply starts a download exactly when that loop does: another version asked for, and more than five minutes since the last attempt. |
| `Update.FinishIsSelfUpdate` | cmd/agent/selfupdate.go:46-65 | The protocol's end of an attempt installs the served build exactly when it is of the wanted version and nothing fails. |
| `Ingest.Hub.HandlePush` | internal/hub/ingest.go:23-73 | Status 401, 500 or 400 with nothing changed; otherwise the reply carries the request read unless the snapshot meets it, in which case the row's request is cleared whatever it is by now; each of the three writes may fail without affecting the others. |
| `Ingest.HandlerIsProtocolStep` | internal/hub/ingest.go:53-71 | The protocol's answer to a push, current or abandoned, is the row and reply of the handler. |
| `Ingest.PushTouchesOneRow` | internal/hub/ingest.go:53-67 | A push changes one row: version and arrival time unless that write fails, and the request exactly when it is met and that write succeeds. |
| `Ingest.Hub.MaybePersist` | internal/hub/ingest.go:77-90 | Notes the time exactly when the interval has passed, and then stores the row unless the insert fails. |
| `Ingest.StepsAreMethods` | internal/hub/ingest.go:77-90 | The machine's steps are what the critical section, the insert and the pruning do to the same state. |
| `Ingest.OneRowPerInterval` | internal/hub/ingest.go:77-84 | After a row is let through, none is before the interval has passed, and the next one is from then on. |
| `Ingest.PersistedRowsAreSpaced` | internal/hub/ingest.go:77-90 | In every interleaving and with any clock, accepted times ascend by at least the interval, and the stored rows are among them and as far apart. |
| `Ingest.WritesNeverReplace` | internal/hub/store.go:412-418 | In every interleaving a write adds its row and replaces none. |
| `Ingest.IntervalHoldsFew` | internal/hub/ingest.go:77-90 | Any closed interval from lo to hi holds at most (hi - lo) / interval + 1 rows of a server. |
| `Ingest.PruningBoundsRows` | internal/hub/store.go:450-456 | For every run and any clock, pruning at c leaves at most (last - c) / interval + 1 rows, none if last < c, where last is the server's entry in lastPersist; and at most (now - c) / interval + 1 if no row is later than now. |
| `Ingest.MostRowsAreReached` | internal/hub/store.go:450-456 | Some run leaves exactly that many. |
| `Ingest.PruneBoundHoldsExactly` | internal/hub/store.go:450-456 | All runs with a given last accepted time meet the bound in terms of now if and only if the bound for that time does. |
| `Ingest.SteppedBackClockBreaksPruneBound` | internal/hub/store.go:450-456 | A run in which a clock stepped back breaks that bound. |
| `History.SampleTable.History` | internal/hub/store.go:422-447 | The one-pass grouping returns exactly one averaged point per quotient of the selected rows. |
| `History.SampleTable.InsertSample` | internal/hub/store.go:412-418 | Inserts in key order, replacing an equal time, in one server's rows only. |
| `History.InsertIsExact` | internal/hub/store.go:412-418 | Afterwards the table holds the new row and every other row but one of the same time, still in key order. |
| `History.SampleTable.PruneSamples` | internal/hub/store.go:450-456 | Keeps exactly the rows not before the cutoff, in order, for every server, and returns how many went. |
| `History.HistoryConserves` | internal/hub/store.go:422-447 | Bucket times strictly ascend and are multiples of the width, every selected row lies in exactly one bucket, whose time is less than a width away, and counts times averages add up to the raw totals in every field. |
| `History.GroupsPartition` | internal/hub/store.go:428-433 | The groups, concatenated, are the selected rows, and their quotients strictly ascend, also where SQL division truncates negative times. |
| `History.AverageIsBetween` | internal/hub/store.go:428-433 | Every average lies between the least and the greatest value of its bucket. |
| `History.RangeBoundsPoints` | internal/hub/api.go:328-351 | Every chart range reaches back as far as its name says and yields at most one point more than its 60, 72, 96, 168 or 240 buckets if no sample is later than now. |
| `History.InsertOfNewTimeReplacesNothing` | internal/hub/store.go:412-418 | Inserting at a new time adds one row and keeps the rest. |
| `Limiter.LoginLimiter.FilterInPlace` | internal/hub/settings.go:200-208 | The filter that reads and writes one array leaves exactly the times after the cutoff, in order. |
| `Limiter.LoginLimiter.Recent` | internal/hub/settings.go:200-210 | Filters one key's slice in place, aliasing included, and changes no other key. |
| `Limiter.LoginLimiter.Blocked` | internal/hub/settings.go:181-185 | Blocks exactly when ten recent failures are stored. |
| `Limiter.LoginLimiter.Fail` | internal/hub/settings.go:187-191 | Appends one failure to the filtered window of one key, reusing or growing its array. |
| `Limiter.LoginLimiter.Reset` | internal/hub/settings.go:193-197 | Forgets one key only. |
| `Limiter.AfterSelects` | internal/hub/settings.go:203-207 | The filter keeps each time after the cutoff as often as it occurs, and no other. |
| `Limiter.WindowIsHistory` | internal/hub/settings.go:181-210 | With a nondecreasing clock, the stored times in the window are, in order, all failures since the last reset in the window. |
| `Limiter.RecentIsHistory` | internal/hub/settings.go:200-210 | So what `recent` leaves at any time is exactly those failures. |
| `Limiter.StepsAreCalls` | internal/hub/settings.go:181-237 | The machine's steps are the limiter's calls: a login passes exactly with fewer than ten failures in the window, a failure is recorded, a success forgets them all. |
| `Limiter.AttemptsAreBounded` | internal/hub/settings.go:181-237 | With at most n logins between check and record, in every interleaving, recent failures plus logins in flight never exceed 9 + n, nor do the failures since the last reset in any fifteen minutes. |
| `Limiter.SequentialLoginsRecordTen` | internal/hub/settings.go:172-237 | Logins one at a time record at most ten failures in any fifteen minutes between resets. |
| `Live.Cache.Put` | internal/hub/live.go:34-50 | Appends the snapshot's sample and trims to the last ninety. |
| `Live.WindowIsLastPushes` | internal/hub/live.go:34-70 | After any calls, a server's window is the last min(90, n) of the n samples pushed since creation or removal, and an entry exists exactly when n > 0. |
| `Live.Client.TrackServer` | internal/hub/web/assets/app.js:132-155 | The loop body extends or seeds one server's series as specified, which `Live.PayloadExtends` spells out, and touches no other. |
| `Live.Client.TrackSeries` | internal/hub/web/assets/app.js:129-160 | The two loops yield the specified series of exactly the listed servers. |
| `Live.PayloadExtends` | internal/hub/web/assets/app.js:132-155 | A payload adds its sample to a listed server's kept series, or to the window shown with it, exactly when the server is online, has a status and the last point is from another time, cut to the last ninety; otherwise the series stays. |
| `Live.SampleHoldsSnapshot` | internal/hub/live.go:75-95 | A point holds the arrival time and each figure of the snapshot in its place. |
| `Live.Client.ApplyPayload` | internal/hub/web/assets/app.js:166-187 | Each fleet series is extended by one value and cut to its last ninety. |
| `Live.SeriesIsLastOfFull` | internal/hub/web/assets/app.js:129-160 | After any payloads, the keys are the ids of the latest one, and each series is the last ninety of the window first shown plus one sample per online payload at a new time. |
| `Live.ClientAgreesWithHub` | internal/hub/web/assets/app.js:142-153 | The sample the browser appends is, over exact arithmetic, the one `sampleFrom` makes of the same snapshot and time; with every step rounded they differ in the three percentages only, and there by at most 4e of the share, e being the relative rounding error. |
| `Live.PercentsAgree` | internal/metrics/metrics.go:68-73 | Over exact arithmetic both percentages are the used share of the total, between 0 and 100 when no more than the total is used; with every step rounded, conversions included, they differ by at most 4e of the share of the converted counts. |
| `Live.RoundedPercentsAgree` | internal/metrics/metrics.go:68-73 | With a relative error of at most u in each of the two roundings on either side, the hub's and the browser's percentages differ by at most 4u of the exact one. |
| `FanOut.EventHub.Subscribe` | internal/hub/events.go:16-22 | Adds a fresh, empty, open channel. |
| `FanOut.EventHub.Unsubscribe` | internal/hub/events.go:24-31 | Removes the channel and closes it if and only if it was subscribed, so a second call is harmless. |
| `FanOut.EventHub.Broadcast` | internal/hub/events.go:33-42 | Offers the payload once to every subscriber, skipping exactly those with four unread, and sends on no closed channel. |
| `FanOut.ReadersSeeSubsequence` | internal/hub/events.go:16-42 | In every interleaving, what a reader has received followed by its buffer is an in-order subsequence of the payloads broadcast while it was subscribed, missing only those that found four unread; its channel is closed at most once. |
| `FanOut.BroadcasterNeverWaits` | internal/hub/events.go:33-42 | Whatever the buffers hold, the channel a broadcast visits is open and the visit completes. |
| `FanOut.BroadcastIsMethod` | internal/hub/events.go:33-42 | A broadcast of the machine that nobody interrupts, in any order of visits, does what the hub's method does. |
| `FanOut.StepsTakeEffect` | internal/hub/events.go:16-42 | What joining, leaving, beginning, ending and receiving do when they can be done. |
| `Excerpt.Excerpt` | internal/hub/notes.go:103-128 | Fails exactly when the start lies past the end; otherwise returns the cut with its ellipses. |
| `Excerpt.ExcerptHoldsMatch` | internal/hub/notes.go:103-118 | For valid text and a match inside it, both loops stop within three bytes and the cut holds the match with 90 to 93 bytes on either side, or all there are. |
| `Excerpt.ExcerptIsValid` | internal/hub/notes.go:103-128 | The cut and the whole excerpt are valid UTF-8. |
| `Excerpt.EllipsesMarkCuts` | internal/hub/notes.go:119-127 | An ellipsis stands on exactly the sides where text was left out, around the cut itself. |
| `Excerpt.CutIsValid` | internal/hub/notes.go:108-117 | A valid text cut where a rune starts is two valid texts. |
| `Excerpt.CutShowsExactly` | internal/hub/notes.go:103-118 | Whatever the index and the length, the excerpt shows a given match in the text if and only if its cut starts before the match's first character is over and ends after its last character has begun. |
| `Excerpt.HitIsMatch` | internal/hub/notes.go:87-95 | Every hit in the lower-cased text is the lower case of whole characters of the text, preceded by characters whose lower case is `at` bytes long. |
| `Excerpt.SearchShowsExactly` | internal/hub/notes.go:87-128 | The two together: for every text, query and hit, there is a match in the text, and the excerpt shows it if and only if the cut made at the hit reaches its first and last characters. |
| `Excerpt.SearchShowsMatch` | internal/hub/notes.go:87-95 | In particular, if text and query keep their byte lengths in lower case, the match lies at the hit and the excerpt shows it. |
| `Excerpt.SearchIndexCanOverrun` | internal/hub/notes.go:87-95 | A valid text in whose lower-cased form the match is found past the end of the text. |
| `Excerpt.SearchCutCanMissMatch` | internal/hub/notes.go:87-95 | A valid text whose first match lies before the start of the cut that the search asks for. |
| `Excerpt.SearchCutCanStopShort` | internal/hub/notes.go:87-95 | A valid text whose first match lies after the end of that cut. |
| `Metrics.Collector.SampleNetwork` | internal/metrics/metrics.go:229-257 | Rates are whole bytes per second since the last reading, zero after a reset or with no time passed, and the new reading becomes the base. |
| `Metrics.NetStepMeans` | internal/metrics/metrics.go:229-257 | A failed probe reports zero and leaves the base; a rate is zero without a base, without time passed and after a reset. |
| `Metrics.CountersAreSums` | internal/metrics/metrics.go:234-241 | The counters are the bytes of all physical interfaces, modulo 2^64. |
| `Metrics.VirtualMeans` | internal/metrics/metrics.go:261-272 | Which interfaces are left out, by name. |
| `Metrics.Collector.SampleCpu` | internal/metrics/metrics.go:179-215 | Follows the specified smoothing step, including failed probes, the first reading and no elapsed time. |
| `Metrics.CpuStepMeans` | internal/metrics/metrics.go:179-215 | A failed probe repeats the average, the first reading sets the base and shows zero, each later one shows the average moved by three tenths. |
| `Metrics.InputIsBusyShare` | internal/metrics/metrics.go:191-201 | When no counter goes back, the input is what the idle share leaves of a hundred. |
| `Metrics.InputIsClamped` | internal/metrics/metrics.go:203-208 | Busy time that goes back counts as none, busy time beyond the total as all. |
| `Metrics.RatesConserve` | internal/metrics/metrics.go:245-256 | Over any run of ticks, rates times seconds add up to at most the bytes gained and fall short by less than one byte per second; a reset contributes nothing. |
| `Metrics.SamplesReportTrace` | internal/metrics/metrics.go:229-257 | In any run of samplings, failed probes included, the reported rates times the seconds since the last reading add up to what the trace of successful readings says, in either direction. |
| `Metrics.SamplesConserve` | internal/metrics/metrics.go:229-257 | Hence the conservation law holds of every such run whose successful probes advance in time. |
| `Metrics.GainTelescopes` | internal/metrics/metrics.go:245-256 | Without a reset the bytes gained are the difference of the last and the first counter. |
| `Metrics.AverageIsWithinInputs` | internal/metrics/metrics.go:203-214 | Over any run the average stays in [0, 100] and, once seeded, between the least and greatest clamped inputs. |
| `Metrics.AverageClosesIn` | internal/metrics/metrics.go:210-214 | Under a steady load each reading leaves seven tenths of the distance to it. |

## Left out

- The HTML parser of golang.org/x/net is not part of this model: forests are arbitrary inputs, and the
  parser used in the theorems is the strict one for the sanitizer's own output. Repairs such as closing a
  `p` inside a `p`, or the newline dropped after `<pre>`, are therefore not covered.
- golang.org/x/net/html's EscapeString is not part of this model: its table is fixed as `&`, `'`, `<`, `>`,
  `"` and carriage return. A tag's name stands for both `Data` and `DataAtom`.
- Sanitize.RawTextIsInvariant: assumes that void elements have no children, as the HTML parser guarantees;
  comments and doctypes carry no children by construction.
- Text is a sequence of Unicode scalar values, except in `Excerpt`, where it is bytes. Lower-casing is
  modelled on ASCII and on the two other runes whose lower case is ASCII (U+0130 and U+212A); the sanitizer
  compares lower-cased text with ASCII only.
- Live.ClientAgreesWithHub: the rounding is any with the given relative error; that of doubles, 2^-53, is not
  derived from their format.
- Excerpt.SearchShowsExactly: lower-casing is an arbitrary map of single characters, so that rules
  depending on the context of a character, which Go's ToLower does not have, play no part.
- Url.SafeUrlIsExact: the authority is any run of the characters its parts may use, a superset of section
  3.2 of RFC 3986, so the statement covers at least every URI reference of the RFC.
- The sanitizer's recursion depth and the 256 KiB note limit.
- Usage figures, thresholds and averages are reals: NaN and, but for the percentages in `Live`, float
  rounding are not modelled. Nor is the
  overflow of a rate too large for 64 bits; the sums of interface counters do wrap at 2^64.
- Alerts.FiringsAreRateBounded: the sustain count is fixed during the run; the thresholds may change.
- The *alertState behind the map is modelled as a value in the map, since it never leaves the mutex. A
  disabled engine takes no step in the interleavings.
- The order in which concurrent calls insert into the stored alert log: alternation is stated in lock
  order, and emitted events are accounted for as a multiset and a balance.
- Telegram delivery and the text of alert messages.
- Restore.HandleRestore: a crash is the death of the process between two operations, so file contents
  survive it; power loss without fsync is not modelled. The database file exists when a restore starts. A
  failed `Close` is taken to have moved nothing.
- Two restores at once, which share one incoming file, and what a hub does that finds no database.
- Update.SelfUpdate: the staged name differs from the installed name and its spare, as `.srvmon-agent.new`
  does unless the agent is itself installed under that name.
- Update.UpdateArrives: progress is stated for runs without failures from the state reached on, with the
  requested version equal to what the served binary prints; a request for a version the hub no longer serves
  makes no progress (`Update.MismatchInstallsNothing`).
- Update.Agent.Tick: the endless loop of the agent is this one tick, and the steps of the protocol machine;
  signals, the ticker itself and the HTTP exchange are left out.
- Ingest.Hub.HandlePush: the token lookup is a parameter; live cache and alerts are separate modules.
- Rows' metadata other than agent version, update request and arrival time.
- A live entry that a push re-creates after its server was deleted, and alert and persistence state across
  restarts of the hub.
- Limiter.AttemptsAreBounded: windows are half-open, from (but not including) fifteen minutes ago, as the
  filter's comparison has it; several addresses do not interact, so one address is modelled.
- Session creation, password hashing, user management and the settings form.
- Live.SeriesIsLastOfFull: ids within a payload are unique and no first window is longer than ninety, as the
  hub guarantees; missing snapshot fields, which the script reads as zero, are zero already.
- FanOut: one broadcaster, as the hub starts; the order in which a broadcast visits the channels is
  arbitrary.
- The maintenance and broadcast timers, the dashboard sums, formatting, charts, the editor, the login page,
  installers, configuration and command lines, and everything else in the web client: simple or plumbing.
- SQLite, HTTP, JSON, TLS, gopsutil probes and the public-IP lookup: foreign code, fed in as arbitrary
  inputs or modelled as maps and sequences.
