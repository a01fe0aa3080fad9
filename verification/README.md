# Verified model of ipp-client

A Dafny model of the parts of ipp-client whose behaviour spans several steps, and proofs of what
those steps keep. `dafny verify dfyconfig.toml` checks the whole project.

- **The event source.** `Snapshots` holds `Snapshot::diff` with its four loops, `Clients` the client
  and its default-printer cache, `EventStreams` the poll loop as a class whose fields are the loop's
  own variables. A consumer (`Consumers`) is a map of jobs and a map of printers that folds what it
  is told. `DiffEntries`, `DiffLaws` and `DiffOrder` say which events a diff holds, what they do to it
  and in what order, and `Replies` what a poll makes of a server's replies. `RunLaws` and `RunSteps` say
  what every run of the loop does, whatever each of its polls comes to: any snapshot or any error.
  `CacheRuns` says which snapshots polls of a server come to. There a world is any pair of replies, good or bad, any answers
  about the default printer, and anything other users of the client may do to its cache before the
  poll reads it and after; laws that hold only of a stream that is its client's sole user say so
  (`Undisturbed`).
- **The default-printer cache under concurrency.** `CacheProtocol` takes `default_printer` apart at
  its lock and await points and interleaves any number of tasks. `StreamTasks` makes the event loop
  one of them: a round of the loop is a stretch of the protocol's steps with the other tasks' between
  them, and the world a poll meets is what those leave in the cache.
- **Jobs of several requests.** `PrintServers` is a server that may refuse a request, never hear it,
  or carry it out and have its answer lost. `IppJobs` is the job handle against it, in every life a
  caller may lead it through while others finish, abort or forget the job. `PrintStreams` is
  `print_stream_at` with its compensating Cancel-Job, and `PrintTasks` interleaves any number of
  such calls, each of which its caller may drop, with others using the server.
- **Regrouping `DevicesGet`'s flat reply.** `Devices` and `DeviceLaws`, over the string and numeral
  parsing in `Texts`.
- **Three string parsers.** `LpOptions`, `MediaSizes` and `StateReasons`.

Where the source promises more than the code keeps, the code is modelled as it is, an input that
shows the difference is given, and the exact condition under which the promise holds is proved:

- *A diff turns one snapshot into the next* (events.rs:41). Nothing makes ids or names unique, and the
  diff compares with the first old entry of a key while a map keeps the last one. For any two
  snapshots replay works exactly when `Followed` holds (`ReplayExactly`, `AgreementExactly`); it
  fails on the input of `ReplayCanFail`.
- *Removals come first* (events.rs:41). Within their kind they do (`RemovalsFirstWithinKind`). All of
  them do exactly when no job arrives or changes, or no printer leaves (`RemovalsFirstExactly`); in
  `RemovalComesLast` a removed queue follows a new job.
- *After an invalidation the default is looked up anew* (client.rs:211-213, 234-235). So it is, whatever
  happens next, exactly when no task is inside a lookup as it happens (`InvalidationIsFinalExactly`);
  `StaleWrite` and `CachedNameMoves` show the difference.
- *Recovery does not trust a name from before the outage* (client.rs:1688-1690). Every name the loop goes
  by from then on was looked up since exactly when no other task was inside a lookup as the loop
  emptied the cache (`RecoveryIsFreshExactly`, `RestartsAfterFailure`); in `StaleRecovery` the loop goes
  by the old one.
- *A job whose document could not be sent is taken back out* (client.rs:1833-1835).
  `OrphanExactly`, `PrintsAfterAllExactly` and, under interleaving, `OrphanedExactly` say when it stays
  behind, and when a document prints although the call reports failure; `OrphanStays` and
  `PrintsThoughFailed` are calls that do so.
- *A handle knows whether its job is closed.* If nobody else ends the job, a handle that can still be
  used is wrong exactly when it lost the answer to a last document: `UnawareExactly`,
  `LostAnswerMisleads`.
- *Grouping on the suffix gives a stable order* (device.rs:37-41). The list is independent of the hash
  map's order exactly when no two keys clash (`OrderIndependentExactly`): `0`, `00` and `+0` are the
  same index, and `AliasesClash` is a reply that says so twice.

How current the marks of a snapshot are, the source leaves to the cache. `UpToDateExactly` says when a
poll marks what a lookup of its own would have marked, and `AloneUpToDateExactly` when it does for a
stream that is its client's sole user; `ReadableDefaultMissed` is a run that marks nothing although
the server names a default that is listed, and `UnreadableDefaultSticks` says how long that lasts.

## Model

| member | source | states |
|---|---|---|
| `Snapshots.Diff` | ipp-async/src/events.rs:43-76 | the four loops push exactly the specified events, in order |
| `DiffEntries.FindJobExactly` | ipp-async/src/events.rs:46-60 | searching a list finds its first entry with that id, if it has one |
| `DiffEntries.FindPrinterExactly` | ipp-async/src/events.rs:62-73 | searching a list finds its first entry with that name, if it has one |
| `DiffEntries.DiffEntryByEntry` | ipp-async/src/events.rs:43-76 | for any two snapshots, duplicates and all, each event of the diff is that of one entry: the old jobs not found, the new ones that are not the one found, then printers alike, each in the order of its list |
| `DiffLaws.DiffReports` | ipp-async/src/events.rs:41-76 | an event is in a diff if and only if it reports a real difference between the two pictures, in the words that fit it: removed, added, changed |
| `DiffLaws.DiffTouches` | ipp-async/src/events.rs:43-76 | the keys a diff touches are exactly those on which the pictures disagree, and each event leaves the new value there |
| `DiffLaws.Replay` | ipp-async/src/events.rs:41-43 | folding a diff over the old picture gives the new one, jobs and printers alike |
| `DiffLaws.ReplayInAnyOrder` | ipp-async/src/events.rs:43-76 | so does folding the same events in any other order |
| `DiffLaws.EmptyExactly` | ipp-async/src/events.rs:43-76 | a diff is empty if and only if the two pictures are equal |
| `DiffLaws.SelfDiffExactly` | ipp-async/src/events.rs:43-76 | for any snapshot, duplicates or not, its diff with itself is empty if and only if no two entries of one key disagree |
| `DiffLaws.DiffDistinct` | ipp-async/src/events.rs:43-76 | with unique keys no key is touched by two events |
| `DiffLaws.Minimal` | ipp-async/src/events.rs:43-76 | a diff has one event for each differing key, and no list of incremental events with the same effect is shorter |
| `DiffLaws.LegalStep` | ipp-async/src/events.rs:46-73 | with unique keys every event is legal where it lands: removals hit a present key, additions an absent one, changes really change |
| `DiffLaws.Midway` | ipp-async/src/events.rs:43-76 | after any number of events each key stands at its new value if touched and at its old one otherwise |
| `DiffLaws.JobsMidway` | ipp-async/src/events.rs:41-60 | removals before additions: midway the jobs never outgrow both ends, and between the two phases they are exactly the survivors |
| `DiffLaws.PrintersMidway` | ipp-async/src/events.rs:41-73 | the same for printers |
| `DiffLaws.OrderInsensitive` | ipp-async/src/events.rs:43-76 | if the old snapshot does not contradict itself, listing either one in another order only reorders the diff, even if the new one does |
| `DiffOrder.RemovalsFirstWithinKind` | ipp-async/src/events.rs:41-73 | in any diff removals of jobs come before every other event and removals of printers before every printer's change |
| `DiffOrder.RemovalsFirstExactly` | ipp-async/src/events.rs:41-73 | for any two snapshots every removal comes before every other event if and only if no job arrives or changes, or no printer leaves |
| `DiffOrder.RemovalComesLast` | ipp-async/src/events.rs:46-73 | a queue gone and a job new: the removal is the last event |
| `Duplicates.EntryAfterDiff` | ipp-async/src/events.rs:43-76 | where each key stands after a diff of any two snapshots, duplicates included |
| `Duplicates.ReplayExactly` | ipp-async/src/events.rs:41-76 | for any two snapshots at all replay gives the new picture if and only if every new key is followed |
| `Duplicates.ReplayCanFail` | ipp-async/src/events.rs:52-60 | a concrete pair of snapshots with a duplicated id on which replay goes wrong |
| `Clients.Client.InvalidateDefaultPrinterCache` | ipp-async/src/client.rs:236-238 | empties the cache |
| `Clients.Client.DefaultPrinter` | ipp-async/src/client.rs:214-232 | returns the cached name or resolves and caches it, and resolves only when nothing was cached |
| `Clients.Client.TakeSnapshot` | ipp-async/src/client.rs:1661-1666 | printers marked with the default now cached, then jobs; either failing reply fails the whole, but the default stays cached |
| `Replies.JobsKept` | ipp-async/src/client.rs:287-298 | the jobs listed are those of the groups that decode, each once and in the order of the reply |
| `Replies.PrintersKept` | ipp-async/src/client.rs:154-171 | so are the printers, each marked if and only if it is the default |
| `Replies.FailsExactly` | ipp-async/src/client.rs:1661-1666 | a poll fails if and only if a reply does, with the printers' error before the jobs' |
| `Replies.JobReportedExactly` | ipp-async/src/client.rs:287-298 | a job is reported if and only if some group of the reply decodes to it |
| `Replies.PrinterReportedExactly` | ipp-async/src/client.rs:154-171 | a printer is reported if and only if some group decodes to it but for its mark, which is the default's |
| `Replies.FilesWinExactly` | ipp-async/src/client.rs:219-222 | the server's answer is of no account if and only if the files name a printer |
| `Replies.ResolvesExactly` | ipp-async/src/client.rs:219-229 | a name is resolved if and only if the files hold it, or hold none and the server names it |
| `EventStreams.EventStream.constructor` | ipp-async/src/client.rs:1683-1684 | starts with no previous snapshot and no backoff, whatever the cache holds |
| `EventStreams.EventStream.Poll` | ipp-async/src/client.rs:1686-1721 | one turn of the loop: the state it leaves, what it yields, how long it sleeps; the cache is emptied first if there is no snapshot to go by, and the poll goes by what it then finds there or resolves |
| `EventStreams.Events` | ipp-async/src/client.rs:1681-1724 | the whole loop, over any polls and whatever others do to the cache meanwhile, yields, sleeps and looks up what the specified run does |
| `RunLaws.StateAfter` | ipp-async/src/client.rs:1683-1721 | after any polls, whatever they came to: the last one's snapshot if it succeeded and none if it failed, and a backoff that counts the failures in a row |
| `RunLaws.SaysExactly` | ipp-async/src/client.rs:1696-1720 | all a poll says: its error if it fails, all it sees if it is the first or follows a failure, else the diff since the poll before, event by event |
| `RunLaws.FailuresTold` | ipp-async/src/client.rs:1713-1716 | through any run the stream tells every failing poll's error, once each and in order, and no other |
| `RunLaws.AgreementExactly` | ipp-async/src/client.rs:1681-1724 | whatever the polls come to, a consumer holds the picture it is owed after every poll if and only if every diff of the run can be followed |
| `RunLaws.Agreement` | ipp-async/src/client.rs:1681-1724 | over any outcomes whose snapshots do not contradict themselves the consumer always holds exactly the last successful poll's picture, through any failures and from any starting picture |
| `RunLaws.StreamShape` | ipp-async/src/client.rs:1696-1721 | in every stream an event is a full reload if and only if it comes first or follows a failure |
| `RunLaws.HasBaseline` | ipp-async/src/events.rs:23-24 | behind every incremental event there is a reload with no failure since |
| `RunLaws.ReloadsExactly` | ipp-async/src/client.rs:1699-1704 | a poll reloads if and only if it succeeds and is the first or follows a failure, and then says just that snapshot |
| `RunLaws.DelayDoubles` | ipp-async/src/events.rs:87-93 | one step of the backoff goes from the delay after n failures, min(2^(n-1), 30), to that after n+1, never shrinking or passing the cap |
| `RunLaws.SleptIs` | ipp-async/src/client.rs:1696-1719 | what a run sleeps is told by its successes and failures alone |
| `RunLaws.SleepBounds` | ipp-async/src/client.rs:1696-1719 | s successes and f failures sleep between 3s + f and 3s + 30f seconds |
| `RunLaws.OutageWait` | ipp-async/src/events.rs:82-93 | n failures in a row wait 2^n - 1 seconds up to five, and 31 + 30(n - 5) beyond |
| `RunSteps.RunLegal` | ipp-async/src/client.rs:1696-1709 | over any outcomes whose snapshots list nothing twice each event of the whole stream is legal for a consumer that has followed it |
| `CacheRuns.OutcomeFollows` | ipp-async/src/client.rs:1661-1666 | whatever others do to the cache, each poll comes to what its own replies say, marked by the name it goes by, and fails if and only if they do |
| `CacheRuns.NamesAreRecent` | ipp-async/src/client.rs:1686-1694 | no poll goes by a name from before the last failure or the start: one of the polls since found nothing cached and looked it up, or others put it there since |
| `CacheRuns.LookupGoesBy` | ipp-async/src/client.rs:219-229 | a poll that looks up goes by what the files name whatever the server says, and by the server's readable answer if they name nothing |
| `CacheRuns.OwnFileRules` | ipp-async/src/lpoptions.rs:19-29 | so it goes by the destination the user's own file names, if it names one |
| `CacheRuns.EventsAgree` | ipp-async/src/client.rs:1681-1724 | over replies that do not contradict themselves, with the cache in anybody's hands, a consumer of the stream always holds the last successful poll's picture |
| `CacheRuns.EventsLegal` | ipp-async/src/client.rs:1681-1724 | over replies that list nothing twice, with the cache in anybody's hands, every event of the stream is legal where it lands |
| `CacheRuns.Marking` | ipp-async/src/client.rs:154-171 | the default decides only which printer is marked, never which are listed |
| `CacheRuns.AtMostOneDefault` | ipp-async/src/client.rs:154-171 | with unique names at most one printer is marked, and one is if and only if the default gone by is listed |
| `CacheRuns.MovedMark` | ipp-async/src/events.rs:68-73 | when nothing but the default changes between two polls, the diff changes exactly the printers that gained or lost the mark |
| `CacheRuns.MovedMarkTwice` | ipp-async/src/events.rs:43-76 | and so has at most two events |
| `CacheRuns.MarkCanMove` | ipp-async/src/client.rs:214-232 | two polls with the same replies between which another user replaces the cached default, and the two events that say so |
| `CacheRuns.UpToDateExactly` | ipp-async/src/client.rs:214-232 | whatever others do to the cache, a successful poll comes to what a lookup of its own would have marked if and only if it goes by that name or its reply lists neither |
| `CacheRuns.AloneUpToDateExactly` | ipp-async/src/client.rs:214-232 | for a stream that is its client's sole user, if and only if the default is what it was as the segment began or neither is listed |
| `CacheRuns.ReadableDefaultMissed` | ipp-async/src/client.rs:219-231 | a run whose second poll marks nothing although the server names a default that is listed |
| `CacheRuns.OneDefaultASegment` | ipp-async/src/client.rs:1686-1694 | a stream that is its client's sole user goes by one default from the first poll or a failure until the next failure, the one resolved as that segment began |
| `CacheRuns.LookupsCounted` | ipp-async/src/client.rs:1686-1694 | such a stream makes as many lookups as its run has segments, whatever the cache held before |
| `CacheRuns.UnreadableDefaultSticks` | ipp-async/src/client.rs:219-231 | such a stream, if the server default could not be read as a segment began, holds no marked printer and yields none at any poll of the segment |
| `CacheProtocol.EveryInterleaving` | ipp-async/src/client.rs:214-238 | whatever is cached or returned was found by a completed lookup, and no task starts two lookups in an epoch unless it abandoned one |
| `CacheProtocol.LookupsPerEpoch` | ipp-async/src/client.rs:207-213 | n tasks start at most n lookups between two invalidations, beyond those abandoned |
| `CacheProtocol.InvalidationIsFinalExactly` | ipp-async/src/client.rs:234-238 | however the tasks run on, everything cached after an invalidation was looked up after it, if and only if no task was inside a lookup |
| `CacheProtocol.StaleWrite` | ipp-async/src/client.rs:219-231 | a task that was inside one can fill the emptied cache with what it found before |
| `CacheProtocol.CachedNameMoves` | ipp-async/src/client.rs:214-238 | two tasks can leave first one name and then another in the cache with no invalidation in between |
| `CacheProtocol.UninterruptedCall` | ipp-async/src/client.rs:214-232 | the protocol's steps back to back do what one uninterrupted call promises |
| `StreamTasks.PlaysProtocol` | ipp-async/src/client.rs:1686-1694 | the loop's rounds among other tasks are runs of the protocol by the steps recorded |
| `StreamTasks.BeginsEmpty` | ipp-async/src/client.rs:1687-1692 | a round empties the cache if and only if the loop's poll of that world does |
| `StreamTasks.CallReturns` | ipp-async/src/client.rs:214-232 | however others interleave with it, the loop's call returns what it found cached or else what it resolved, and leaves that cached |
| `StreamTasks.GoesByItsAnswer` | ipp-async/src/client.rs:1686-1694 | the name each poll goes by is the one its call returned in the protocol |
| `StreamTasks.NamesWereFound` | ipp-async/src/client.rs:214-232 | every name any poll goes by was found by a completed lookup, the loop's own or another task's |
| `StreamTasks.RecoveryIsFreshExactly` | ipp-async/src/client.rs:1687-1692 | however the run goes on after the loop empties the cache, every name it goes by was looked up since, if and only if no task was inside a lookup then |
| `StreamTasks.RestartsAfterFailure` | ipp-async/src/client.rs:1687-1692 | after a failing poll the loop and the cache go on as from a start in that state |
| `StreamTasks.StaleRecovery` | ipp-async/src/client.rs:214-238 | a task that asked before the loop did makes its first poll go by the old name |
| `PrintServers.PrintServer.Send` | ipp-async/src/client.rs:104-128 | one request's effect on the server and what the client learns of it |
| `PrintServers.LearnsExactly` | ipp-async/src/client.rs:104-128 | the client hears of success if and only if the request was carried out and its answer came back, and of the error met or the refusal otherwise |
| `IppJobs.CreateIppJob` | ipp-async/src/client.rs:621-631 | a fresh handle on the job the server made, or the error |
| `IppJobs.CreationExactly` | ipp-async/src/client.rs:621-631 | a handle is handed out if and only if the server makes the job and an answer naming it comes back, and it is on that new, open, empty job; otherwise the first failure is reported, and a job is made without a handle if and only if the answer was lost or did not name it |
| `IppJobs.IppJob.AddDocument` | ipp-async/src/client.rs:1039-1065 | sends the document and marks the handle closed only on an acknowledged last one |
| `IppJobs.IppJob.Close` | ipp-async/src/client.rs:1071-1088 | sends Close-Job unless already closed, and consumes the handle |
| `IppJobs.IppJob.Cancel` | ipp-async/src/client.rs:1091-1093 | sends Cancel-Job and consumes the handle |
| `IppJobs.AddExactly` | ipp-async/src/client.rs:1050-1064 | a document that can be offered is sent in one request with its flag, and the call returns Ok if and only if that is acknowledged; one that cannot is not sent |
| `IppJobs.CloseExactly` | ipp-async/src/client.rs:1071-1088 | Close-Job is sent unless the handle knows the job closed, and the call returns the id if and only if it then does |
| `IppJobs.CancelExactly` | ipp-async/src/client.rs:1091-1093 | Cancel-Job is sent whatever the handle knows, and the call returns as its answer says |
| `IppJobs.EveryLife` | ipp-async/src/client.rs:1023-1093 | in every life of a handle: closed if and only if a closing request was acknowledged, and then the server accepts no more; the server holds just the documents carried out; Close-Job goes out at most once, last, and never after an acknowledged close |
| `IppJobs.CloseIsTrue` | ipp-async/src/client.rs:1067-1088 | close returning an id means the server's job takes no more documents |
| `IppJobs.ServerClosedExactly` | ipp-async/src/client.rs:1039-1093 | if nobody else meddles the server's job is closed if and only if a request that ends it was carried out |
| `IppJobs.UnawareExactly` | ipp-async/src/client.rs:1023-1093 | if nobody else meddles, a handle is wrong about its job if and only if a request that ends it was carried out and no close was acknowledged; one that can still be used, if and only if the answer to a last document was lost |
| `IppJobs.LostAnswerMisleads` | ipp-async/src/client.rs:1059-1082 | a last document whose answer is lost closes the job, and the handle still sends Close-Job |
| `IppJobs.ServerHolds` | ipp-async/src/client.rs:1035-1065 | a life sends just the documents that can be offered before the handle is consumed, in order; those whose calls return Ok lie in order within those the server holds, these within those sent; no lost answer, no difference |
| `PrintStreams.PrintStreamAt` | ipp-async/src/client.rs:1806-1848 | the call's result, its requests and the server it leaves follow the specified call |
| `PrintStreams.RequestOrder` | ipp-async/src/client.rs:1820-1841 | at most one Create-Job, Send-Document and Cancel-Job, in that order, all for the job created at that uri |
| `PrintStreams.GoesAsFar` | ipp-async/src/client.rs:1820-1834 | a job is asked for if that request can be built, and the document sent if the job was named and that request can be built |
| `PrintStreams.ServedInTurn` | ipp-async/src/client.rs:1820-1846 | the outcomes recorded are what the server made of those requests one after another, and it is left as the last left it |
| `PrintStreams.FirstFailureTold` | ipp-async/src/client.rs:1820-1834 | a call that never sends its document reports the first thing that went wrong |
| `PrintStreams.SuccessExactly` | ipp-async/src/client.rs:1820-1834 | success if and only if the last document was acknowledged, and then the job is closed and holds it |
| `PrintStreams.CompensatedExactly` | ipp-async/src/client.rs:1833-1846 | a Cancel-Job follows if and only if a Send-Document went out unacknowledged and a Cancel-Job could be built |
| `PrintStreams.OriginalErrorKept` | ipp-async/src/client.rs:1835-1846 | the error returned is the document's own, whatever becomes of the cancellation |
| `PrintStreams.OrphanExactly` | ipp-async/src/client.rs:1820-1844 | exactly when an open, empty job stays behind |
| `PrintStreams.PrintsAfterAllExactly` | ipp-async/src/client.rs:1833-1846 | exactly when a call that reports failure has its document printed |
| `PrintStreams.OrphanStays` | ipp-async/src/client.rs:1833-1846 | a call whose document and cancellation both go astray leaves an open, empty job |
| `PrintStreams.PrintsThoughFailed` | ipp-async/src/client.rs:1833-1846 | a call that reports failure and prints: the document's answer is lost and the cancellation goes astray |
| `PrintStreams.CanceledOtherwise` | ipp-async/src/client.rs:1833-1846 | every other failure leaves the job cancelled |
| `PrintTasks.EveryInterleaving` | ipp-async/src/client.rs:1806-1848 | for any number of calls at once, with lost answers, dropped callers and others finishing or purging jobs: each call's requests keep their order and their own job; its result is honest; a failure after an unacknowledged document has sent its Cancel-Job unless that could not be built; its job never holds anything but its document |
| `PrintTasks.NoneTouchesAnother` | ipp-async/src/client.rs:1819-1841 | no call ever prints into or cancels a job made for another, even one the other was never told of |
| `PrintTasks.DroppedStays` | ipp-async/src/client.rs:1820-1846 | a call whose caller is gone sends nothing more, its Cancel-Job included |
| `PrintTasks.OnlyItsOwn` | ipp-async/src/client.rs:1819-1841 | a step of one call leaves every other call, and every job not made for it, as they were |
| `PrintTasks.LeftExactly` | ipp-async/src/client.rs:1820-1846 | with any number of calls and nobody else at work, every job made for a call stands exactly as that call's own carried-out requests leave it |
| `PrintTasks.OrphanedExactly` | ipp-async/src/client.rs:1820-1846 | then a call that reports failure leaves its job open and empty if and only if it was never told of it, its document could not be built, or neither document nor cancellation was carried out |
| `PrintTasks.UninterruptedCall` | ipp-async/src/client.rs:1806-1848 | the interleaved steps back to back do what one uninterrupted call promises |
| `Texts.ParseDecimal` | cups-pk-client/src/device.rs:49-51 | parsing a canonical numeral in u32 range gives the number back |
| `Texts.ParsesExactly` | cups-pk-client/src/device.rs:49-51 | a text parses to a number if and only if it is one digit or more, perhaps behind a plus, that write it in 32 bits |
| `Devices.DecodeDevices` | cups-pk-client/src/device.rs:42-69 | for any iteration order the loop regroups and lists as specified |
| `DeviceLaws.InIndexOrder` | cups-pk-client/src/device.rs:39-41 | the list is the entries with a uri in strictly increasing order of index |
| `DeviceLaws.RegroupHolds` | cups-pk-client/src/device.rs:53-62 | each field holds the last value visited for it, or nothing |
| `DeviceLaws.FieldNamedExactly` | cups-pk-client/src/device.rs:54-61 | a field is filled if and only if the key bears its name |
| `DeviceLaws.FillsExactly` | cups-pk-client/src/device.rs:46-61 | a key fills a slot if and only if it is the field's name, a colon and a text that writes the index |
| `DeviceLaws.KeysSpelled` | cups-pk-client/src/device.rs:35-36 | the six keys of an index as the mechanism spells them |
| `DeviceLaws.JunkIgnored` | cups-pk-client/src/device.rs:46-61 | keys that are not a known name, a colon and a text that writes an index never change the list |
| `DeviceLaws.OrderIndependentExactly` | cups-pk-client/src/device.rs:37-69 | for any reply the list is the same in every order of the map if and only if no two keys clash |
| `DeviceLaws.AliasesClash` | cups-pk-client/src/device.rs:47-52 | a reply with the uris of `0` and of `00` clashes, and its list depends on the order |
| `DeviceLaws.DecodesBack` | cups-pk-client/src/device.rs:42-69 | any reply that describes some devices decodes to those of them that have a uri, in order |
| `DeviceLaws.RoundTrip` | cups-pk-client/src/device.rs:35-69 | printing any devices as index-suffixed keys and decoding them, in any order, gives back those with a uri |
| `LpOptions.Concatenation` | ipp-async/src/lpoptions.rs:10-17 | for all texts, of two files one after the other the second decides if it names a destination, else the first |
| `LpOptions.LineNamesExactly` | ipp-async/src/lpoptions.rs:10-17 | a line names a destination if and only if it is the word Default, a space, any white space and that name up to a slash, white space or its end |
| `LpOptions.WhiteExactly` | ipp-async/src/lpoptions.rs:14 | white space is just the 25 code points of Unicode's White_Space |
| `LpOptions.DestinationIsClean` | ipp-async/src/lpoptions.rs:13-16 | a destination is never empty and holds no slash or white space |
| `LpOptions.ReadsBack` | ipp-async/src/lpoptions.rs:5-17 | a written default reads back, with or without instance and options |
| `LpOptions.UserWinsExactly` | ipp-async/src/lpoptions.rs:19-29 | the system file is of no account if and only if the user's names a destination |
| `LpOptions.FilesInOrder` | ipp-async/src/lpoptions.rs:19-29 | the user's file decides if it names a destination, the system's otherwise |
| `MediaSizes.ParsesJoined` | ipp-async/src/model.rs:459-472 | every well-shaped triple joined parses to itself, so the split is unique |
| `MediaSizes.ParsesExactly` | ipp-async/src/model.rs:459-472 | a keyword parses if and only if it is a well-shaped triple joined, and the parts rebuild it; it is borderless if and only if its name holds that mark |
| `StateReasons.Rebuilds` | ipp-async/src/model.rs:114-131 | keyword and suffix rebuild the raw reason, which keeps its whole text only without one of the three; the severity is read off its ending |
| `StateReasons.ParsedInOrder` | ipp-async/src/model.rs:134-139 | every entry of a list is parsed, in order, but for the word none |
| `StateReasons.WorstOfBoth` | ipp-async/src/model.rs:134-139 | the worst of two lists together is the worse of their worsts |
| `StateReasons.WorstExactly` | ipp-async/src/model.rs:509-511 | the worst is error, warning or absent exactly as the raw reasons' endings say |

## Left out

- HTTP, TLS, D-Bus, tokio and the ipp crate: a poll or request has an arbitrary outcome instead.
- Logging, error texts, environment lookup and file reading: the contents of the two lpoptions files are inputs, and `Clients.Sources.chosen` is what they yield.
- Request building and opcode constants: each request can be built or cannot, as an input.
- Every field of a job or printer but its key and the default mark is one opaque value, as the diff only compares them whole.
- Delays are whole seconds, as every delay the loop sleeps is; `Duration` arithmetic in general is not modelled.
- Dropping the stream in the middle of a poll: a run ends between polls.
- A poisoned cache lock: each access is one read or one write, so recovering the guard changes nothing here.
- The consumption of a handle by `close` and `cancel` is a ghost flag the methods require to be unset, as Rust's move checking ensures.
- Others may complete, abort or purge a job (`IppJobs.Drifts`, `PrintTasks.OthersMay`); others adding documents to it or a server reusing its id are not modelled.
- PrintTasks.OrphanedExactly: it speaks of calls alone; once others end or purge jobs, `EveryInterleaving` tells what a job that is still there can hold and that it does not open again.
- CacheRuns.LookupsCounted: with other users at the cache a poll may find it filled or emptied by them, and only which names it may go by is told (`NamesAreRecent`).
- Devices, printers and jobs that cannot be decoded are dropped from lists; how an attribute group decodes is not modelled.
- Subscriptions, administration through cups-pk-helper, supplies, job progress and option tables: wrappers, tables and simple pairings.
