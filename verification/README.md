# Cubozoa verification

Cubozoa is a Jellyfin-compatible media server. This project models its stateful
algorithms in Dafny and proves what they keep, over every input and every run:

- the DVR recorder, once as a protocol of small interleaving steps
  (`RecorderProtocol`, `RecorderStays`, `RecorderAlone`) and once with each event atomic
  (`RecorderLife`, `RecorderOutcomes`, `RecorderSeries`, and the class in `Recorder`),
  with its title matching (`Titles`);
- the bolt store with its hand-kept indexes (`BoltStore`, `Keys`) against the JSON
  store that scans maps (`Store`, `StoreLaws`), by forward simulation (`Simulation`);
- the library scan (`MediaIds`, `Forest`, `Scan`, `ScanLaws`, `Catalog`) and what happens when its
  output is published to the store (`Publishing`);
- the transcode session manager as a bounded LRU cache that owns processes and
  directories (`Transcode`), the HLS playlists and the keys they lead to (`Url`,
  `Hls`, `HlsLaws`, `HlsAgreement`), and the bitrate ladder (`Abr`);
- the token-bucket limiter (`RateLimit`), account lockout and two-factor login
  (`Auth`, `AuthLaws`, `Totp`);
- the next-up list (`NextUp`, `NextUpLaws`, `Sorting`) and the programme guide (`Guide`,
  `GuideLaws`).

Objects whose methods update fields are classes; each method's `ensures` equates the
new state with a step function of the old one, and the lemmas are about those step
functions and their runs. What a step function means is said again without it, from the
inputs, the stored records and the clock, by the lemmas named `...Exact`, `...Outcome` and
`...ReadBack`. `dafny verify dfyconfig.toml` checks everything.

## What is assumed

- SHA-256, HMAC and password verification are arbitrary functions. Where ids depend
  on it, hashing is injective and its hex output has no colon or NUL; a MAC has 20
  bytes.
- Time is one instant per call, from a clock that does not run back. Calls on one user
  account do not overlap: login and failure counting read and write the user without a
  lock, so the lockout bounds are about calls one after the other. Random draws
  (NewID, secrets, recovery codes) are inputs; ids drawn are new, as 16 random bytes
  are taken to be.
- A store transaction is one atomic map update, and encoding is the identity.
- Go maps are visited in any order: listings and iteration orders are inputs, or the
  result is proved the same for all of them.
- Strings are sequences of characters, ordered by code point, which is the byte order
  of their UTF-8 text; where bytes matter (percent-encoding) the UTF-8 text is
  spelled out.

## Properties that hold only under a condition

Each has a lemma that says exactly when it holds, or a run that breaks it.

- The indexed store equals the scanning store step by step exactly when callers keep
  ids and token hashes fresh (`Simulation.StepExact`); scans of libraries that share no
  file do
  (`Publishing.ScanMeetsStore`).
- The prefix scan of one dimension selects a key of another exactly when one of the two
  names, its NUL included, begins the other (`Keys.SelectionExact`); for NUL-free names
  that never happens.
- `evictOldestLocked` takes the empty key for "nothing found yet", so it evicts a
  least recently used session, in every map order, exactly when the empty key is not
  strictly the oldest (`Transcode.EvictionExact`); five calls reach such a state and
  overflow the manager (`Transcode.OverflowReached`). The HLS handlers never use the
  empty key.
- `groupPrograms` takes a zero time for "not set", so its window is exact unless the
  extreme time is the zero time and a later programme follows
  (`Guide.WindowStartExact`, `Guide.WindowEndExact`).
- Between the recorder's steps a cancelled recording stays cancelled, and a completed one
  completed, exactly when no thread still carries a store of it
  (`RecorderStays.StaysExactly`). Reachable states break either
  (`RecorderProtocol.CancelledMayBeRevived`, `RecorderProtocol.CompletedMayBeReopened`);
  with each event atomic neither happens.
- Two items can share a session key exactly when one id, with some offset after it, begins
  the other (`HlsAgreement.SessionKeysShareExactly`); colon-free ids never do.
- A rescan is one the indexed store can handle exactly when none of its ids is held by
  another library (`Publishing.RescanAdmissibleExactly`). Registration accepts libraries
  that overlap or nest; the run theorems of `Publishing` are about libraries that do not.

The comment on `Cancel` (internal/dvr/recorder.go:142) says it removes a scheduled
recording; the code keeps the record and marks it Cancelled, and so does the model.

## Model

| member | source | states |
|---|---|---|
| RecorderProtocol.ActiveIffOwned | internal/dvr/recorder.go:353-404 | under every interleaving of callers, ticker, resume pass and watchers, a recording is in `active` exactly when some thread owns it (from insertion to its own deletion); the owner is unique and the entry holds its own context |
| RecorderProtocol.OneProcessPerRecording | internal/dvr/recorder.go:358-397 | in every reachable state no recording has two live ffmpeg processes, and one with a live process is in `active` under that process's context |
| RecorderProtocol.CancelHitsOwnRecording | internal/dvr/recorder.go:143-155 | a Cancel that found its recording running can, however late it calls the function it holds, only stop a process of that same recording |
| RecorderProtocol.StepKeeps | internal/dvr/recorder.go:272-283 | every single step (a locked section, a store call, a process start or exit) keeps the ownership invariant |
| RecorderProtocol.InsertKeeps | internal/dvr/recorder.go:358-375 | maybeStart's locked test-and-insert keeps exactly one owner per active recording |
| RecorderProtocol.DeleteKeeps | internal/dvr/recorder.go:401-404 | a deletion from `active` removes the deleter's own entry and nobody else's |
| RecorderProtocol.CancelledMayBeRevived | internal/dvr/recorder.go:272-283 | a life-cycle fact that fails between steps: whenever a tick has listed a scheduled recording and not reached it, a Cancel can store Cancelled and the tick still start it |
| RecorderProtocol.ExposedReachable | internal/dvr/recorder.go:97-100 | such a moment is reached from a restart |
| RecorderProtocol.CompletedMayBeReopened | internal/dvr/recorder.go:330-338 | another: when ffmpeg ends before a series expansion stores its own copy of the record, Completed is overwritten by Recording with no owner left |
| RecorderProtocol.ReopenableReachable | internal/dvr/recorder.go:97-100 | such a moment is reached from a restart, too |
| RecorderStays.StaysExactly | internal/dvr/recorder.go:143-420 | in every reachable state a recording stored as Cancelled, or as Completed, stays so under every further interleaving if and only if no thread carries it: has it on its list, is between the decision to start it and the store, or, for Completed, is still to read it |
| RecorderStays.SettledStep | internal/dvr/recorder.go:143-420 | no step of any thread stores over a recording nobody carries, or makes a thread carry it |
| RecorderStays.ListedChanges | internal/dvr/recorder.go:341-404 | whoever has the recording on its list can be driven to a store of it |
| RecorderStays.WorkChanges | internal/dvr/recorder.go:353-420 | so can whoever is at work on it, even if the recording's owner has to leave `active` first |
| RecorderAlone.StartAlone | internal/dvr/recorder.go:353-397 | undisturbed, a due recording with a stream ends up stored as Recording, active under a context of its own, with a live process and a watcher |
| RecorderAlone.NoChannelAlone | internal/dvr/recorder.go:360-367 | undisturbed, a due recording without a stream is stored as Failed and nothing else changes |
| RecorderAlone.ActiveAlone | internal/dvr/recorder.go:358-364 | a due recording that is active already is passed over |
| RecorderAlone.StartFailsAlone | internal/dvr/recorder.go:380-389 | undisturbed, a recording whose ffmpeg does not start is stored as Failed and no longer active |
| RecorderAlone.ExitAlone | internal/dvr/recorder.go:391-420 | undisturbed, the watcher of a process that ends takes the recording out of `active` and stores Completed or Failed by its file |
| RecorderAlone.MissedByTick | internal/dvr/recorder.go:272-283 | the ticker stores Failed for a recording that is over |
| RecorderAlone.MissedByResume | internal/dvr/recorder.go:341-350 | resume judges a recording that is over by its file |
| RecorderAlone.CancelActiveAlone | internal/dvr/recorder.go:143-161 | undisturbed, Cancel of a running recording cancels its own context and stores nothing |
| RecorderAlone.CancelIdleAlone | internal/dvr/recorder.go:143-161 | undisturbed, Cancel of an idle recording stores Cancelled for a scheduled one only |
| RecorderAlone.CloseAlone | internal/dvr/recorder.go:104-111 | Close cancels the context of every active recording and changes nothing else |
| RecorderLife.RecordingIffActive | internal/dvr/recorder.go:341-420 | with each event atomic, in every reachable state the recordings stored as Recording are exactly those in `active`; those and the completed ones have the path dir/ID.ts |
| RecorderLife.StatusForward | internal/dvr/recorder.go:142-161 | over every run a recording is never lost, changes only in status and path, never leaves a terminal status, and never returns from Recording to Scheduled or Cancelled |
| RecorderLife.StepKeeps | internal/dvr/recorder.go:114-161 | every event moves each recording at most along Scheduled to Recording, Failed or Cancelled, and Recording to Completed or Failed, and keeps the invariant |
| RecorderLife.RestartRestores | internal/dvr/recorder.go:341-350 | after resume the invariant holds whatever `active` was, given only well-formed stored records and a clock that did not run back |
| RecorderLife.TickLeavesNoneDue | internal/dvr/recorder.go:272-283 | after a tick every recording still scheduled starts strictly later |
| RecorderLife.CancelTakes | internal/dvr/recorder.go:143-161 | Cancel marks a scheduled recording Cancelled, tells an active one to stop, and leaves an ended one alone |
| RecorderOutcomes.TickOutcome | internal/dvr/recorder.go:272-283 | in every reachable state, by the clock and the stored record: a tick fails what is over, captures what is due to dir/ID.ts exactly when its channel has a stream and ffmpeg starts and fails it otherwise, and leaves what lies ahead |
| RecorderOutcomes.ExitOutcome | internal/dvr/recorder.go:401-420 | in every reachable state, a recording whose process ends is Completed exactly when its file is there and not empty, else Failed, and no longer active; the others stay |
| RecorderOutcomes.RestartOutcome | internal/dvr/recorder.go:341-350 | after a restart, what was in progress goes on for the rest of its window or fails to, and is judged by its file when the window is over; the rest stays |
| RecorderOutcomes.ScheduleOutcome | internal/dvr/recorder.go:114-140 | Schedule is refused exactly for a window that is over or empty, or without an id; else one record with what was asked for is added: captured, failed, or waiting as the clock has it |
| RecorderOutcomes.TimersOutcome | internal/dvr/recorder.go:214-241 | a series timer is added with what was asked for and removed by its own calls only |
| RecorderOutcomes.CloseOutcome | internal/dvr/recorder.go:104-111 | Close tells exactly the active recordings to stop |
| RecorderSeries.ExpansionExact | internal/dvr/recorder.go:287-328 | the covered programme ids grow by exactly those of the airings some timer asks for; when NewID may fail, by no others |
| RecorderSeries.ExpansionSound | internal/dvr/recorder.go:304-338 | every new recording is a listed airing a listed timer asks for, with that airing's particulars and the right starting status, of a programme no recording (cancelled and failed included) had before; no programme gets two; old recordings are untouched |
| RecorderSeries.ExpansionIdempotent | internal/dvr/recorder.go:287-328 | expanding the same timers and airings again, then or later and in any listing order, changes nothing |
| RecorderSeries.NeverRecreated | internal/dvr/recorder.go:302-315 | over every run, once any recording of a programme exists no series timer records that programme again |
| RecorderSeries.OneSeriesRecordingPerProgram | internal/dvr/recorder.go:330-338 | in every reachable state a programme has at most one series recording |
| RecorderSeries.WantedIffMatches | internal/dvr/recorder.go:313-321 | the loop's guards with Schedule's window test amount to: right channel, title beginning with the timer's words, an id, a window not yet over |
| Dvr.Recorder.MaybeStart | internal/dvr/recorder.go:353-404 | its whole new state and the record it hands back: skipped when not due or active, Failed without a stream or when ffmpeg does not start, else Recording under dir/ID.ts and active |
| Dvr.Recorder.Finalize | internal/dvr/recorder.go:401-420 | removes the id from `active` and stores Completed exactly when the record's file is non-empty, leaving a cancelled or unknown recording alone |
| Dvr.Recorder.Schedule | internal/dvr/recorder.go:114-140 | rejects a window that is over or empty without consuming an id; otherwise stores the asked-for record and starts it if due |
| Dvr.Recorder.Cancel | internal/dvr/recorder.go:143-161 | the new state of a cancellation, and not-found exactly for unknown ids |
| Dvr.Recorder.Tick | internal/dvr/recorder.go:272-283 | the loop over the listing meets the pointwise specification, for any listing order; what that makes of each recording is RecorderOutcomes.TickOutcome |
| Dvr.Recorder.Restart | internal/dvr/recorder.go:341-350 | New over the stored recordings followed by resume's loop meets the pointwise specification, for any listing order |
| Dvr.Recorder.ScheduleFromAiring | internal/dvr/recorder.go:330-338 | schedules the airing and stamps the stored record with the timer's id |
| Dvr.Recorder.Filter | internal/dvr/recorder.go:198-210 | returns exactly the stored recordings of one status, each once |
| Dvr.Recorder.Recorded | internal/dvr/recorder.go:302-308 | computes exactly the programme ids that stored recordings cover |
| Dvr.Recorder.ExpandSeries | internal/dvr/recorder.go:287-328 | the nested loops over timers and airings compute the specified fold, ids drawn and `recorded` map included |
| Dvr.Recorder.ScheduleSeries | internal/dvr/recorder.go:214-236 | rejects an empty name before drawing an id; otherwise stores the timer and expands |
| Dvr.Recorder.CancelSeries | internal/dvr/recorder.go:239-241 | removes the timer and no recording |
| Dvr.Recorder.Close | internal/dvr/recorder.go:104-111 | every active recording is told to stop |
| Titles.NormalizeTitle | internal/dvr/recorder.go:449-469 | the rune loop yields the title's maximal alphanumeric runs, lower-cased, joined by single spaces |
| Titles.LowerExact | internal/dvr/recorder.go:452-457 | the characters kept are letters and digits (and two signs that lower into letters); capitals become the small letters they stand over |
| Titles.PartsExact | internal/dvr/recorder.go:449-469 | any other character parts a title into two whose words are kept as they are |
| Titles.WordExact | internal/dvr/recorder.go:449-469 | letters and digits in a row are one word, lowered |
| Titles.NormalizeIdempotent | internal/dvr/recorder.go:445-448 | normalizing a normal form changes nothing |
| Titles.NormalIffCanonical | internal/dvr/recorder.go:445-448 | normal forms are exactly the single-spaced alphanumeric strings with no space at an edge |
| Titles.MatchesIffWordPrefix | internal/dvr/recorder.go:471-483 | on normal forms titleMatches holds exactly when the series' word list is a non-empty prefix of the airing's |
| Titles.WordsOfJoin | internal/dvr/recorder.go:449-469 | the words read back from a normal form are the words it was joined from |
| Keys.PrefixSelects | internal/store/boltstore.go:112-121 | with NUL-free first components a composite key starts with the prefix of a dimension exactly when it belongs to that dimension, even if one name is a prefix of another |
| Keys.LessExact | internal/store/boltstore.go:124-132 | keys are ordered byte-wise: the first difference decides, and a key comes after its prefixes |
| Keys.KeySplits | internal/store/boltstore.go:116-117 | composite keys with NUL-free first components are equal only if both components are |
| Keys.NulBreaksSelection | internal/store/boltstore.go:112-121 | an instance: the prefix of user "a" selects a row of user "a\0b" |
| Keys.SelectionExact | internal/store/boltstore.go:112-121 | the prefix of one dimension selects some key of another exactly when one of the two, NUL included, begins the other |
| Keys.Seek | internal/store/boltstore.go:124-126 | returns the least key not below the given one |
| Keys.Next | internal/store/boltstore.go:124-126 | returns the least key above the given one |
| Keys.ForEachPrefix | internal/store/boltstore.go:124-132 | the cursor loop visits exactly the keys with the prefix, once each, in byte order |
| Keys.ScanUnique | internal/store/boltstore.go:124-132 | there is only one such visit |
| Simulation.StepExact | internal/store/boltstore.go:255-563 | an operation keeps the token, library and parent indexes exact if and only if its caller sees to freshness: session id or token hash not taken, no item id of another library, no id with two parents |
| Simulation.StepAgrees | internal/store/boltstore.go:255-589 | on exact indexes the indexed store does to the records, and reports, just what the scanning store does |
| Simulation.RunsAgree | internal/store/conformance_test.go:39-42 | over every admissible run both stores return the same results and hold the same records, and the indexes stay exact |
| Simulation.TokenLookUpAgrees | internal/store/boltstore.go:268-284 | a lookup through the token index answers as a scan over all sessions would, not-found included |
| Simulation.LibraryListingAgrees | internal/store/boltstore.go:473-497 | listing a library by its index gives the scan's items, each once |
| Simulation.ParentListingAgrees | internal/store/boltstore.go:473-501 | listing a parent by its index gives the scan's items, each once |
| Simulation.UserListingAgrees | internal/store/boltstore.go:591-604 | the prefix scan over user rows gives exactly the rows of that user, each once |
| BoltStore.BoltStore.CreateSession | internal/store/boltstore.go:255-266 | writes the session and its token-index key and nothing else |
| BoltStore.BoltStore.DeleteSession | internal/store/boltstore.go:286-302 | removes the session and the index key of its token hash, or reports not-found |
| BoltStore.BoltStore.GetSessionByTokenHash | internal/store/boltstore.go:268-284 | the answer of the index lookup |
| BoltStore.BoltStore.TouchSession | internal/store/boltstore.go:304-322 | changes the session's last activity only, or reports not-found |
| BoltStore.BoltStore.CreateLibrary | internal/store/boltstore.go:326-351 | stores the library unless its path is taken, which is a conflict |
| BoltStore.BoltStore.DeleteLibraryItems | internal/store/boltstore.go:426-455 | the loop over the library index deletes each listed item with both its index keys |
| BoltStore.BoltStore.DeleteLibrary | internal/store/boltstore.go:411-422 | removes the library and its items, or reports not-found |
| BoltStore.BoltStore.ReplaceLibraryItems | internal/store/boltstore.go:518-563 | drops the library's items, inserts the new ones with both index keys, updates the count; not-found for an unknown library |
| BoltStore.BoltStore.ListItemsByIndex | internal/store/boltstore.go:473-493 | follows the index keys of one dimension to the items |
| BoltStore.BoltStore.UpsertUserItemData | internal/store/boltstore.go:581-589 | stores the row under its composite key |
| BoltStore.BoltStore.ListUserItemData | internal/store/boltstore.go:591-604 | the rows the prefix scan visits |
| JsonStore.JsonStore.GetSessionByTokenHash | internal/store/jsonstore.go:234-244 | the scan finds a session with the hash, or reports that there is none |
| JsonStore.JsonStore.CreateSession | internal/store/jsonstore.go:226-232 | stores the session under its id |
| JsonStore.JsonStore.TouchSession | internal/store/jsonstore.go:256-265 | changes the session's last activity only, or reports not-found |
| JsonStore.JsonStore.DeleteSession | internal/store/jsonstore.go:246-254 | removes the session, or reports not-found |
| JsonStore.JsonStore.CreateLibrary | internal/store/jsonstore.go:267-278 | stores the library unless another has its path |
| JsonStore.JsonStore.DeleteLibrary | internal/store/jsonstore.go:314-327 | removes the library and, deleting while ranging, exactly its items |
| JsonStore.JsonStore.ReplaceLibraryItems | internal/store/jsonstore.go:377-401 | the library's items are exactly the incoming ones, stamped with the library, later ones winning; other items unchanged |
| JsonStore.JsonStore.ListItemsByLibrary | internal/store/jsonstore.go:340-351 | lists exactly the library's items, each once |
| JsonStore.JsonStore.ListItemsByParent | internal/store/jsonstore.go:353-364 | lists exactly the parent's items, each once |
| JsonStore.JsonStore.UpsertUserItemData | internal/store/jsonstore.go:414-420 | stores the row under its composite key |
| JsonStore.JsonStore.ListUserItemData | internal/store/jsonstore.go:422-433 | lists exactly the user's rows, each once |
| StoreLaws.SessionReadBack | internal/store/jsonstore.go:226-254 | a created session is the answer to its token, and deleting it makes the token unknown |
| StoreLaws.TouchReadBack | internal/store/jsonstore.go:256-265 | a touched session is looked up with the new activity and nothing else new |
| StoreLaws.SessionFrame | internal/store/jsonstore.go:226-265 | session calls answer not-found exactly for unknown ids and touch no other session and no other table |
| StoreLaws.UpsertReadBack | internal/store/jsonstore.go:414-433 | a stored row is in its user's listing; all other rows stay |
| StoreLaws.CreateLibraryReadBack | internal/store/jsonstore.go:267-278 | a library is refused exactly when its path is taken; else it is there as given beside the others |
| StoreLaws.DeleteLibraryReadBack | internal/store/jsonstore.go:314-327 | a deleted library is gone and lists nothing; the items of the others stay |
| StoreLaws.ReplaceReadBack | internal/store/jsonstore.go:377-401 | after a rescan an id is read back as the last incoming item that has it, stamped with the library; old items of the library are gone, those of others stay, and the count is right |
| MediaIds.SameIdSameOrigin | internal/media/scan.go:345-374 | equal ids come from the same file, folder name or root, and from the same library unless the origin is a path |
| Scan.EpisodesWellPlaced | internal/media/scan.go:134-193 | distinct paths give distinct episode ids, series, season and episode ids never clash, and a season has one series |
| Scan.TracksWellPlaced | internal/media/scan.go:216-284 | the same for artists, albums and tracks |
| Scan.BuildEpisodes | internal/media/scan.go:129-211 | yields the forest of the files, each folder and file once, children counted; the fields are ScanLaws.ItemsDescribed |
| Scan.BuildTracks | internal/media/scan.go:216-301 | the same for artists, albums and tracks |
| Scan.BuildFlat | internal/media/scan.go:101-124 | one item per file, filed under the library, with the type its library and the file call for |
| Scan.ScanFlat | internal/media/scan.go:35-54 | the sorted result holds exactly those items |
| Scan.ScanLibrary | internal/media/scan.go:35-54 | the switch on the library type: a sorted forest for series and music, a sorted list of the files' items otherwise |
| Forest.Grow | internal/media/scan.go:129-211 | the loop both builders share: first record per id wins, counters count |
| Forest.CountMids | internal/media/scan.go:195-200 | counting the second-level folders in any map order gives each top folder its number of distinct ones |
| Scan.ScanEpisodes | internal/media/scan.go:35-54 | the sorted result is a sorted forest of the files |
| Scan.ScanTracks | internal/media/scan.go:35-54 | the sorted result is a sorted forest of the files |
| Scan.SortedForestUnique | internal/media/scan.go:333-340 | the result list does not depend on the map iteration order: any two sorted lists of the same forest are equal |
| Scan.ItemOrder | internal/media/scan.go:333-340 | the comparator is a total preorder, as sorting asks |
| Catalog.EpisodesScanned | internal/media/scan.go:129-211 | a TV scan's ids are distinct, every parent is the library or an emitted folder, and every ChildCount is the number of items filed under that item |
| Catalog.TracksScanned | internal/media/scan.go:216-301 | the same of a music scan |
| Catalog.FlatScanned | internal/media/scan.go:101-124 | the same of a flat scan |
| Catalog.ScanScanned | internal/media/scan.go:35-54 | the same for a scan of any library type |
| Catalog.OneItemPerFile | internal/media/scan.go:35-54 | for every library type each file has exactly one item with its path, and no other item has a path |
| Catalog.ScanDetermined | internal/media/scan.go:333-340 | for every library type the sorted result is determined by the files |
| ScanLaws.ItemsDescribed | internal/media/scan.go:101-301 | every item of a scan says in each field what the first file that calls for it and the kind of library call for: kind, name, sort name, number, parent number, and the ids of the series, season, artist or album it is filed under |
| ScanLaws.FilesFiled | internal/media/scan.go:101-301 | and every file has its item and its folders among the results |
| ScanLaws.ResultOrdered | internal/media/scan.go:333-340 | the result is in byte-wise order of sort name, and of id where those agree |
| Publishing.ScanMeetsStore | internal/store/boltstore.go:518-563 | when libraries share no file a scan's output meets everything the indexed store asks of its callers |
| Publishing.RescanAdmissibleExactly | internal/store/boltstore.go:518-563 | a rescan meets the indexed store's conditions if and only if none of its ids is held by another library, overlapping libraries included |
| Publishing.CountersMatchListings | internal/store/boltstore.go:473-563 | over every run of registrations, removals and rescans with files in one library each, ChildCount and ItemCount are the lengths of the listings |
| Publishing.FolderListing | internal/store/boltstore.go:473-501 | on the indexed store ListItemsByParent(folder) has ChildCount entries |
| Publishing.LibraryListing | internal/store/boltstore.go:473-497 | on the indexed store ListItemsByLibrary has ItemCount entries |
| Publishing.EndToEnd | internal/store/boltstore.go:411-563 | from the empty store on: the indexed store returns the scanning store's results and its listings have the counted lengths |
| Transcode.Manager.EnsureSession | internal/transcode/hls.go:120-156 | a hit refreshes the access time; a miss evicts when full, then starts a process with its directory, or cleans up after a failed start |
| Transcode.Manager.GetSession | internal/transcode/hls.go:298-306 | returns the session and refreshes its access time |
| Transcode.Manager.StopSession | internal/transcode/hls.go:112-116 | kills the session of the key, if any |
| Transcode.Manager.EvictOldest | internal/transcode/hls.go:308-319 | the scan over the map, for the order it happened to take |
| Transcode.Manager.ReapIdle | internal/transcode/hls.go:342-347 | killing while ranging removes exactly the sessions idle past the cutoff |
| Transcode.Manager.Close | internal/transcode/hls.go:354-362 | every session is killed, its process with it, and no directory is left |
| Transcode.EvictionExact | internal/transcode/hls.go:308-319 | eviction removes a least recently used session for every map order if and only if the empty key is not strictly the oldest |
| Transcode.EmptyKeyOverflows | internal/transcode/hls.go:120-156 | with an empty key that is strictly the oldest, a full manager can grow to five sessions |
| Transcode.OverflowReached | internal/transcode/hls.go:120-156 | five calls from the empty manager reach five sessions, for any four keys after the empty one |
| Transcode.NothingLeaks | internal/transcode/hls.go:120-156 | in every state a run reaches, processes, directories and sessions correspond one to one and there are at most four |
| Transcode.SessionsKeepTheirs | internal/transcode/hls.go:120-156 | no call changes the directory or process of a session it leaves, or the access time of any but its own |
| Transcode.EnsureExact | internal/transcode/hls.go:120-156 | afterwards the session is there exactly when it was or could be started; a new one has its key's directory and a process none had before |
| Transcode.ReapExact | internal/transcode/hls.go:333-352 | exactly the sessions not used for two minutes are reaped, with their processes |
| Transcode.ManagerIsLru | internal/transcode/hls.go:120-156 | with increasing access times every run refines an LRU list of capacity four: a hit moves to the front, a miss drops the last |
| RateLimit.RateLimiter.Allow | internal/server/ratelimit.go:37-57 | the decision and the bucket it leaves |
| RateLimit.RateLimiter.Gc | internal/server/ratelimit.go:65-70 | deleting while ranging drops exactly the buckets unused for thirty minutes |
| RateLimit.AllowExact | internal/server/ratelimit.go:37-57 | a request is granted to a new key, and else exactly when a fifth of a token for each second has filled up a whole one |
| RateLimit.BurstExact | internal/server/ratelimit.go:23-57 | a key that is new, or idle for 25 seconds, is granted five requests at once and refused the sixth |
| RateLimit.GcExact | internal/server/ratelimit.go:60-73 | exactly the buckets unused for more than thirty minutes are dropped |
| RateLimit.TokensBounded | internal/server/ratelimit.go:23-57 | tokens always lie between 0 and 5 |
| RateLimit.GcUnobservable | internal/server/ratelimit.go:37-73 | for any interleaving of collections with requests under a monotone clock every decision is that of a limiter that never evicts |
| RateLimit.RateBound | internal/server/ratelimit.go:23-57 | in every window [a, b] of every run a key is granted at most 5 + 0.2 (b - a) requests |
| RateLimit.RefusedOnlyAtTheBound | internal/server/ratelimit.go:37-57 | the converse, over every run: a refused client has, since some instant a, been granted more than 4 + 0.2 (now - a) requests |
| RateLimit.SpacedAlwaysGranted | internal/server/ratelimit.go:23-57 | a client that waits five seconds between requests is never refused |
| Auth.Service.Authenticate | internal/auth/service.go:139-169 | outcome and new user record of a login: unknown, disabled and locked accounts, recorded failure, or reset |
| Auth.Service.VerifyCredentials | internal/auth/service.go:176-192 | accepts exactly the password, followed with two-factor on by a current code |
| Auth.Service.Fail | internal/auth/service.go:210-222 | counts the failure and, at the threshold, locks for the duration |
| Auth.Service.RecoverTotp | internal/auth/totp.go:105-131 | outcome and new record of a recovery, failures counted as at login |
| Auth.Service.ActivateTotp | internal/auth/totp.go:54-81 | turns two-factor on for a current code and stores the hashes of the drawn recovery codes |
| Auth.Service.DisableTotp | internal/auth/totp.go:86-99 | turns two-factor off for a current code |
| Auth.Service.BeginTotpSetup | internal/auth/totp.go:29-49 | stores a drawn secret that is not yet enabled |
| Auth.ConsumeRecoveryCode | internal/auth/totp.go:144-156 | removes the first matching hash, or reports none |
| Auth.IsAllDigits | internal/auth/service.go:194-201 | true exactly for strings of digits |
| AuthLaws.LoginExact | internal/auth/service.go:139-222 | a login succeeds exactly when the account is open and the secret right: the password, with two-factor on followed by the code of the current half minute or a neighbour; success clears counter and lock and stamps the login, a wrong secret counts and may lock |
| AuthLaws.RecoverExact | internal/auth/totp.go:105-131 | a recovery succeeds exactly on an open account with two-factor on, the right password and a stored recovery code; else the record stays or the failure counts |
| AuthLaws.DisableExact | internal/auth/totp.go:86-99 | two-factor is switched off exactly by a current code or a recovery code, leaving no secret |
| AuthLaws.ActivateExact | internal/auth/totp.go:54-81 | two-factor is switched on exactly by a current code of the pending secret, and the drawn codes are those that recover |
| AuthLaws.BeginExact | internal/auth/totp.go:29-49 | a setup stores the drawn secret as pending exactly while two-factor is off |
| AuthLaws.CounterCounts | internal/auth/service.go:210-222 | over every run without a success the counter grows by the number of wrong attempts on the open account |
| AuthLaws.FirstFailures | internal/auth/service.go:204-222 | the first N wrong attempts: before the N-th the account is open, has counted them and answers invalid; the N-th locks it for the duration |
| AuthLaws.LockTakesHold | internal/auth/service.go:139-222 | after N wrong attempts, the last at t, every login and recovery before t + D answers AccountLocked, right ones included, whatever is called in between |
| AuthLaws.LockoutBound | internal/auth/service.go:204-222 | with threshold N and duration D, a run without a successful login or recovery has at most N + floor(T / D) wrong attempts on the open account in any window of length T; an attempt is wrong by what it presents (secret, or password or recovery code), not by what it counts |
| AuthLaws.FailuresSpaced | internal/auth/service.go:210-222 | from the wrong attempt on that reaches the threshold, wrong attempts on the open account are at least the duration apart |
| AuthLaws.LockRefusesEverything | internal/auth/service.go:139-169 | while locked, login and recovery are refused whatever is presented, and the record is untouched |
| AuthLaws.CodeLoginSucceeds | internal/auth/service.go:176-192 | for every non-empty password, login with the password followed by a code generated at most one period away is accepted (section 5.2 of RFC 6238) |
| AuthLaws.CodeLoginSound | internal/auth/service.go:176-192 | nothing but the password followed by the code of the current or a neighbouring period is accepted |
| AuthLaws.RecoverySingleUse | internal/auth/totp.go:105-163 | after a recovery no later one succeeds until two-factor is activated again |
| Totp.TotpCode | internal/security/totp.go:38-63 | the picked and shifted bytes give the specified six-digit code; every index stays inside the 20-byte MAC (section 5.3 of RFC 4226) |
| Totp.CodeExact | internal/security/totp.go:38-63 | the code is the six digits told by the MAC, under the decoded secret, of the eight big-endian bytes that count the half minutes since the epoch (section 5.3 of RFC 4226, section 4.2 of RFC 6238) |
| Totp.VerifyTotpAt | internal/security/totp.go:77-92 | accepts exactly the codes of the current period and one either side |
| Totp.TruncateByShifts | internal/security/totp.go:50-60 | dynamic truncation is the big-endian word with its sign bit cleared |
| Totp.CodeIsSixDigits | internal/security/totp.go:38-63 | a code always has six digits |
| Totp.CountersAdjacent | internal/security/totp.go:77-92 | instants at most one period apart have counters within one period step |
| Totp.FreshCodeAccepted | internal/security/totp.go:77-92 | a generated code is accepted at any check at most one period away, from the epoch on |
| Totp.CounterMessageInjective | internal/security/totp.go:38-63 | different counters are hashed as different messages |
| Totp.BigEndianRoundTrip | internal/security/totp.go:38-63 | the counter's bytes read back to the counter |
| NextUp.NextUp | internal/server/handlers_shows.go:82-135 | the loops, the map and the stable sort yield the specified list |
| NextUp.Choose | internal/server/handlers_shows.go:98-123 | one series' pick and its latest activity |
| NextUp.NextUpExact | internal/server/handlers_shows.go:82-135 | an episode is listed exactly when it is its series' pick, which is the first in progress, else the one after the last watched; it has never been watched |
| NextUp.NextUpOrdered | internal/server/handlers_shows.go:129-134 | the list is ordered by latest activity, ties by first appearance, and no series is listed twice |
| NextUp.PickIsNext | internal/server/handlers_shows.go:117-123 | a series has a pick exactly when it has an episode in progress or one after its last watched |
| NextUpLaws.NextUpExactly | internal/server/handlers_shows.go:82-135 | over the episodes as given: listed are exactly those that are the first of their series under way, or with none under way come right after the last watched |
| NextUpLaws.OrderExactly | internal/server/handlers_shows.go:129-134 | the series played last comes first, ties by which appears first |
| Guide.GroupPrograms | internal/livetv/service.go:267-283 | buckets by channel, each stably sorted by start, and the running window |
| Guide.GroupingPartitions | internal/livetv/service.go:267-283 | grouping is a multiset partition into buckets in start order with ties in document order |
| Guide.WindowStartExact | internal/livetv/service.go:269-274 | the window's start is the least start if and only if that is not the zero time or the last programme starts then too |
| Guide.WindowEndExact | internal/livetv/service.go:275-277 | the window's end is the greatest stop if and only if that is not the zero time or the last programme stops then too |
| Guide.BuildNameIndex | internal/livetv/match.go:37-49 | maps each non-empty normalized name to the first guide channel that bears it |
| Guide.Service.Reload | internal/livetv/service.go:182-217 | replaces channels, guide, name index and window by what was parsed |
| Guide.Service.Programs | internal/livetv/service.go:287-316 | the specified listing of the channels asked for |
| Guide.Service.CurrentProgram | internal/livetv/service.go:340-357 | the first covering entry of the resolved bucket |
| GuideLaws.ByIdExact | internal/livetv/service.go:189-192 | the channel looked up under an id is the last one parsed with it |
| GuideLaws.NameIndexExact | internal/livetv/match.go:37-49 | a name can be looked up only if a guide channel bears it, and gives the first that does |
| GuideLaws.ResolveExact | internal/livetv/service.go:321-336 | after a reload: alias, else own tvg-id if the guide has a programme there, else the first guide channel of that name, else the tvg-id |
| GuideLaws.ListingExact | internal/livetv/service.go:287-336 | after a reload Programs returns, in start order, exactly the guide's programmes that overlap the window and whose guide channel some id asked for (or, with none asked for, some channel) resolves to, under the id of the channel it names |
| GuideLaws.ListingCount | internal/livetv/service.go:287-336 | each overlapping programme is listed as often as it is in the guide, for every place among the ids asked for (or the channels) that calls for it |
| GuideLaws.ListingTies | internal/livetv/service.go:302-315 | entries that start together are in the order of the ids asked for (or the channels), and those of one channel in document order |
| GuideLaws.CurrentExact | internal/livetv/service.go:321-357 | after a reload CurrentProgram answers exactly when the guide has a programme on the air on the resolved channel, and with the earliest-starting one |
| GuideLaws.CurrentTies | internal/livetv/service.go:340-357 | of programmes that started together the first of the document is answered |
| Abr.SelectRenditions | internal/transcode/abr.go:27-68 | the loops yield the specified ladder |
| Abr.LadderExact | internal/transcode/abr.go:27-97 | the whole ladder in numbers: which heights for which source, the table's bitrates, the cap, names and bandwidths, and the automatic rendition |
| Abr.LadderNamesApart | internal/transcode/abr.go:27-49 | heights fall strictly from the source's own, never upscaled, at most four rungs, names pairwise different |
| Abr.WidthFits | internal/transcode/abr.go:99-105 | the advertised width is even, within one pixel of the source's proportions, and no wider than the source made even |
| Abr.TopRungCapped | internal/transcode/abr.go:50-56 | no rung exceeds its table entry, nor the top rung a source bitrate of at least 1000 |
| Abr.FindRendition | internal/server/handlers_hls.go:170-177 | finds the first rendition of that name, and reports none exactly when there is none |
| Hls.HandleHlsMaster | internal/server/handlers_hls.go:41-76 | the loop writes two header lines and, per rung, a tag line and a URI line |
| HlsLaws.MasterExact | internal/server/handlers_hls.go:53-71 | read back line by line: the header, and per rung a tag with its bandwidth, width and height, then hls/NAME/main.m3u8 with the token |
| HlsLaws.UriExact | internal/server/handlers_hls.go:217-221 | a line is rewritten exactly when its first character other than white space exists and is no # |
| HlsLaws.StartTicksExact | internal/server/handlers_hls.go:16-27 | the offset is read under either spelling, the capital one first; negative or absent means 0 |
| Hls.RewriteSegments | internal/server/handlers_hls.go:212-226 | rewrites line by line, in place |
| Hls.QueryReadBack | internal/server/handlers_hls.go:16-27 | a query written by the handlers reads back to its token and offset through percent-decoding and ParseInt, on all of int64's non-negative half |
| HlsAgreement.MasterUris | internal/server/handlers_hls.go:57-70 | the URI lines of the master playlist's text are one variant per rung |
| HlsAgreement.EveryVariantFound | internal/server/handlers_hls.go:86-99 | every variant listed is found again: its URI's quality names that rung and no other, with the master request's offset |
| HlsAgreement.RewritingLinewise | internal/server/handlers_hls.go:208-226 | tag and blank lines stay unchanged and in place, and every URI line becomes one line (section 4.1 of RFC 8216) |
| HlsAgreement.SegmentReadBack | internal/server/handlers_hls.go:212-226 | a rewritten line requests the segment the playlist named, with the playlist's token and offset |
| HlsAgreement.SegmentsKeepTheirSession | internal/server/handlers_hls.go:81-129 | from master to segment: each URI line of a variant's playlist resolves to the session key of that variant's own request |
| HlsAgreement.SessionKeyInjective | internal/server/handlers_hls.go:31-33 | session keys tell item, offset and quality apart for colon-free item ids, or colon-free qualities |
| HlsAgreement.SessionKeysCanCollide | internal/server/handlers_hls.go:31-33 | an instance of such a collision |
| HlsAgreement.SessionKeysShareExactly | internal/server/handlers_hls.go:31-33 | two different items share a key for some offsets and qualities exactly when one id followed by an offset and a colon begins the other |
| Text.ParseOfItoa | internal/server/handlers_hls.go:22-26 | parsing undoes decimal printing for every offset from 0 to the largest int64 |
| Text.ParseExact | internal/server/handlers_hls.go:22-26 | for every string: a signed numeral gives its number or the nearest int64 bound, digits past every bound the bound, anything else 0 |
| Text.TrimUnique | internal/server/handlers_hls.go:217-221 | trimming yields what stands between the white space at both ends |
| Text.ZeroPadExact | internal/media/scan.go:157-174 | padded numbers have the number's digits, zeros only to make up the width |
| Url.UnescapeEscape | internal/server/handlers_hls.go:213-223 | percent-decoding undoes percent-encoding on all byte strings |
| Url.Utf8Exact | internal/server/handlers_hls.go:213-223 | the bytes escaped are the UTF-8 ones (section 3 of RFC 3629) |
| Url.EncodeInjective | internal/server/handlers_hls.go:213-223 | different texts have different bytes, so what is read back tells token and segment apart |

## Left out

- The PostgreSQL store, JSON encoding and file flushing, bbolt pages and transactions
  that fail: their semantics lie outside this code.
- Users, recordings and series timers in the stores, single-record reads, and the other
  plain map operations: they would only add easy members.
- Simulation.StepExact: empty session, item or library ids and empty token hashes, which
  bbolt's Put rejects and the JSON maps accept; ids and hashes the server makes are never
  empty.
- Store and I/O errors in the recorder (the code ignores most of them); stores that
  delete a recording, which the server never does.
- Simulation.RunsAgree: runs consist of session, library, item and user-data operations;
  reads are covered by the four agreement lemmas beside it.
- Pointers: sessions, buckets, users and media items are values in maps, so aliasing
  between callers and the maps is not modelled.
- RateLimit.RateBound: tokens are exact reals, not float64, so rounding is not modelled.
- Integer widths other than int64 offsets, the 64-bit counter and the MAC arithmetic:
  counters and pixel products are unbounded.
- RecorderProtocol.ActiveIffOwned: callers other than the resume pass and its watchers
  arrive only after resume, as `Start` arranges; life-cycle and dedupe facts are stated
  only where each event is atomic.
- RecorderLife.RecordingIffActive: an expansion whose guide is read at another instant
  than its `now`, and a tick whose calls see different instants, are one instant here.
- Parsing of file names, M3U, XMLTV and its times, and `normalizeChannelName`: their
  results, and the last as a function, are arbitrary inputs.
- Operator aliases with equal normalized names, whose winner depends on map order: the
  normalized alias table is an input.
- Titles.NormalizeTitle: lower-casing is written out only as far as it reaches a-z and
  0-9; other letters are separators whatever their case.
- Artwork, subtitles, sizes and dates of scanned items; descriptions and categories of
  programmes; channel logos.
- Go's pattern-defeating sort is represented by a stable one; the results it is used
  for are proved unique (Scan.SortedForestUnique) or the source itself sorts stably.
- HTTP routing and the client's resolution of a relative URI against its playlist's
  directory: `{id}` and `{quality}` are those of the playlist's request.
- ffmpeg arguments, waiting in `Playlist` and `Segment`, `EnsureLive...` argument lists.
- Monotone bandwidth across the ladder: the source-bitrate cap on the top rung makes it
  false.
- Paging limits, user-data toggles, the resume-row sort: true, but easy.
