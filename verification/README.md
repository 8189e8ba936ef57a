# aperip-nomos: a verified model

aperip-nomos is a small registry of license texts. Uploads are Markdown files;
each becomes a document with a slug, a title and a digest, is stored in an
RNMDB table and shown as HTML. This project models four parts of it and proves
what they keep in every run.

**The store** (`src/store.rs`). One actor thread owns a database session, an
index from slugs to documents and the next identifier. It reads from the index
and writes through explicit transactions. Any database call may fail, and a
failed COMMIT may or may not be durable; the actor then drops its session,
loads the table again and only then answers.
`Rnmdb.dfy` is the database: durable rows, one session with at most one open
transaction, and a fault that any call may take, with a count of the calls that
failed. `StoreSpec.dfy` says what one
command may do to table, index and answer; `StoreCore.dfy` is the actor's code
over the database, proved against it; `StoreRuns.dfy` treats whole runs and
`StoreIds.dfy` the identifiers they give out;
`StoreActor.dfy` adds callers, the bounded queue, the `ready` and `alive`
flags, shutdown and the health guard as interleaved steps, each as fine as
another thread can observe.

**Identity and persistence** (`src/domain.rs`, and the codec in `src/store.rs`).
`Domain.dfy` derives titles and slugs and rehydrates stored fields; `Codec.dfy`
writes the store's statements and decodes its rows. `Sql.dfy` reads any such
statement by the grammar alone, and `LicenseTable.dfy` places its values by the
names of their columns; `SqlText.dfy`, `Base64.dfy` and `Utf8.dfy` are the
literals and encodings, with base64 as in section 4 of RFC 4648, UTF-8 as in
section 4 of RFC 3629 and doubled quotes as in ISO/IEC 9075-2, subclause 5.3.
The recovery of the store rests on this round trip: its theorems use it.

**Rendering** (`src/markdown.rs`). `RenderCache.dfy` is the bounded cache,
`RenderFlight.dfy` the single-flight protocol with its cells and permits, with
requests cancelled at any point, `RenderRuns.dfy` what all its runs keep,
`RenderOrphans.dfy` when a cancellation lets two renders of one digest run, and
`MarkdownEvents.dfy` the filter between parser and HTML writer. `render` is an
arbitrary function.

**The administrator page** (`src/http/assets/admin.js`). `AdminPage.dfy` holds
the module variables, with every handler cut at its awaits; `AdminRuns.dfy`
treats every interleaving of events and responses.

`sha` is any function from bytes to 32 bytes. Where a fault, a response or the
order of steps is not determined by the code, it is arbitrary.

Two things that might be expected do not hold of the code, and are proved with
their exact conditions. Identifiers are not globally increasing, as loading the
table computes the next one anew: `StoreIds.IdentifiersAreReused` gives the run,
and the next identifier stays above all given out exactly if no reload forgets
the latest of them (`StoreIds.NextStaysAboveIffKept`). And single flight is not
exclusive once a request has been cancelled that had a job:
`RenderOrphans.CancellationEndsSingleFlight` gives the run, and two jobs for an
uncached digest can come about, without further cancellation, exactly if such a
job is unfinished (`RenderOrphans.DoublesIffOrphaned`). Beyond that, with its
database closed the store answers `get` and `delete` with NotFound and not with
StorageUnavailable; `StoreActor.CommandsStartOpen` shows that no command gets
that far.

## Model

| member | source | states |
|---|---|---|
| StoreCore.StoreCore.Execute | src/store.rs:293-313 | If no call fails a command is answered directly, as by an atomic map, and the flags stay; only a second failure can close the store. In every case one command keeps the index equal to the decoded table and, with the database open, answers as an atomic map would, or refuses leaving the table alone, or refuses and closes the store with at most that one transaction durable; `ready` and `alive` change only through a recovery |
| StoreCore.StoreCore.Create | src/store.rs:315-333 | Answers Ok exactly with the document that is durable, DuplicateSlug for a present slug, StorageUnavailable when the identifiers are used up or the transaction is known not to have landed; if no call fails a new slug gets the next identifier and its row is durable |
| StoreCore.StoreCore.List | src/store.rs:335-348 | The strictly ordered enumeration of the index, or StorageUnavailable when it is closed |
| StoreCore.StoreCore.Delete | src/store.rs:358-371 | Answers Ok only once the slug is durably gone, and what it removes from the index is the document it found; if no call fails a present slug is answered Ok and its row is gone |
| StoreCore.StoreCore.Transaction | src/store.rs:386-398 | Ok means the whole statement is durable; any failure leaves the old rows or those of the whole statement, and a statement the table accepts fails only if a call failed |
| StoreCore.StoreCore.Recover | src/store.rs:419-434 | Works unless a call fails: reloads exactly the durable table and is ready again, or closes the store for good and says so in both flags |
| StoreCore.StoreCore.RecoverAfterCreateError | src/store.rs:400-408 | Ok exactly when the reloaded index has that very document |
| StoreCore.StoreCore.RecoverAfterDeleteError | src/store.rs:410-417 | Ok exactly when the reloaded index lacks the slug |
| StoreCore.LoadRows | src/store.rs:453-477 | The loop accepts a table if and only if all rows decode, no slug repeats and every identifier has a successor, and then yields its index and next identifier |
| StoreCore.OpenDatabase | src/store.rs:441-477 | Changes no row; Ok loads the durable rows and leaves the table, both unique indexes and a checkpointed schema; it fails only if a call failed or the table is not acceptable, and Corrupt is returned only for a table that is not acceptable |
| StoreCore.StoreCore.Spawn | src/store.rs:252-274 | A store that starts is ready, alive and agrees with its table |
| StoreCore.RejectedRow | src/store.rs:457-470 | A repeated slug, or the largest i64 as identifier, anywhere in a table rules the whole table out |
| Rnmdb.Session.Execute | src/storage.rs:136-142 | The fault model: a failed COMMIT leaves the old rows or the whole transaction's, every other call leaves the durable rows alone while a transaction is open; what the table accepts is refused only by a failure, which is counted |
| Rnmdb.ApplyAppends | src/store.rs:22-27 | Neither unique index refuses a row with a new slug and the largest identifier, and `ORDER BY id` lists it last |
| StoreSpec.CommittedTable | src/store.rs:315-371 | From an agreeing store a transaction is never refused by a unique index, leaves a table that opens, and is the step an atomic map makes |
| StoreSpec.DoubtIsSettled | src/store.rs:386-417 | After a failed transaction and a reload the answer is Ok if and only if the transaction is durable, an error if and only if the table is the old one; the rebuilt next identifier is at most the previous one, one more if a create landed |
| StoreSpec.ExecutesAtomically | src/store.rs:293-434 | Every permitted outcome of a command keeps the invariant and is an atomic step, a refusal without effect, or a refusal that closes the store |
| StoreSpec.DirectIsAtomic | src/store.rs:315-371 | Without a fault an open store answers and changes exactly as the atomic map, except that a create is refused once the next identifier is the largest i64 |
| StoreSpec.DirectExists | src/store.rs:293-313 | Every command has a direct answer |
| StoreSpec.DocumentsWithoutSlug | src/store.rs:378-384 | Deleting a slug's rows from the table deletes exactly its document from the decoded sequence |
| Listing.SortedListing | src/store.rs:335-348 | Lists the six fields of every document of the index once, strictly ordered by title and slug |
| Listing.LessByBytes | src/store.rs:342-346 | Comparing titles and slugs by scalar values is comparing their UTF-8 bytes, as Rust does |
| Listing.ListingIsUnique | src/store.rs:342-346 | There is only one such listing |
| StoreRuns.RunKeepsInv | src/store.rs:315-434 | Any sequence of commands, faults and restarts keeps index and table in agreement |
| StoreRuns.ReachableTablesOpen | src/store.rs:441-509 | Every table an empty database can come to is accepted: no row is corrupt, no slug repeats, no identifier overflows |
| StoreRuns.AnswersTellTheTable | docs/superpowers/specs/2026-07-28-aperip-nomos-backend-design.md:58-63 | While the database is not lost, the table holds exactly what a plain map holds after the answers given, however many commits were in doubt |
| StoreRuns.AnswersExplainTheTable | src/store.rs:419-434 | In every run, with databases lost and opened again, the final table is what the answers tell, but for the one transaction of each event that lost the database |
| StoreRuns.OnlyTheLastIsInDoubt | src/store.rs:386-434 | Between two starts only the last command can have lost the database: the table is the replay of the answers, or that with the last command's transaction |
| StoreRuns.InterruptedTable | src/store.rs:386-398 | A failed transaction leaves a table that opens, as it was or with the transaction's whole effect |
| StoreIds.ReloadKeepsNextId | src/store.rs:453-471 | A reload computes the same next identifier if and only if none was given out or the row just below it is stored |
| StoreIds.NextStaysAboveIffKept | src/store.rs:320-331 | In every run the next identifier stays above all that creates answered with if and only if at every reload the latest of them, or a later one, is still stored |
| StoreIds.IdentifiersIncrease | src/store.rs:320-331 | Under that condition the identifiers of creates increase strictly |
| StoreIds.ForgottenIdsComeBack | src/store.rs:320-331 | Where the next identifier is not above one given out, a single create of a new slug breaks the order |
| StoreIds.IdentifiersAreReused | src/store.rs:453-471 | Whatever is uploaded, create, delete, restart and create answer both creates with identifier 1 |
| StoreRuns.StoredIds | src/store.rs:320-331 | Stored identifiers are distinct, at least 1, below the largest i64 and below the next one |
| StoreActor.FlagsStep | src/store.rs:105-111 | Every step of every thread keeps the relation of the flags to the database state, and never turns `alive` back on |
| StoreActor.TrafficStep | src/store.rs:172-180 | Every step keeps the queue, the accepted, taken, dropped and resolved commands in their relation |
| StoreActor.RecordStep | src/store.rs:275-279 | Every step keeps the store's own run equal to the taken commands in order, each with its own answer |
| StoreActor.RunStep | src/store.rs:419-434 | Every step keeps the core where its run brought it, or in the middle of one recovery with one transaction in doubt |
| StoreActor.CommandsStartOpen | src/store.rs:386-388 | In every interleaving a command starts only with the state open, so the `expect` never fires; none follows a shutdown mark or a failed recovery; `ready` implies an open state while the core is owned; the durable table always opens |
| StoreActor.AcceptanceOrder | src/store.rs:275-279 | Accepted commands are taken in order of acceptance and at most once; those dropped were never taken |
| StoreActor.EveryCommandIsResolvedOnce | src/store.rs:437-439 | After the actor has ended every accepted command was resolved exactly once: answered after execution, or dropped unexecuted; a rejected one was never accepted, and no executed one is answered Unavailable or QueueFull |
| StoreActor.RepliesAreExecuted | src/store.rs:293-313 | A reply is the answer of the caller's own command in the store's run |
| StoreActor.RepliesTellTheTable | src/store.rs:315-371 | However callers, faults, recoveries and shutdown interleave, the index of an open database is what a plain map holds after the replies |
| StoreActor.DurableTableFollows | src/store.rs:386-434 | In every reachable state, also within a recovery, after a failed one and after shutdown, the durable table is what the recorded answers tell, but for at most one transaction, and that only while its recovery runs or once it has failed |
| StoreActor.EndedTableIsTold | README.md:158-163 | Once the actor has ended, its database not lost, the durable table is exactly what the replies the callers got tell |
| StoreActor.ActorEndsForAReason | src/store.rs:275-279 | In every run the actor leaves its loop only after a shutdown was taken, all senders were dropped or its database was lost; until a shutdown is asked for it is ready whenever it waits or begins a command |
| StoreActor.EveryCommandCanBeServed | src/store.rs:275-313 | In every run, whenever the actor waits with a command at the head of the queue, four steps of its own answer that command directly and lead back |
| StoreActor.ServesByRecovery | src/store.rs:386-434 | After a failed transaction and a recovery that works the command gets its settled answer, and the actor is ready for the next |
| StoreActor.QueueIsBounded | src/store.rs:259 | The queue never holds more than its capacity |
| StoreActor.SendAnswers | src/store.rs:172-181 | Unavailable only with `alive` cleared or the channel closed, QueueFull only with a full queue or a slot kept for a pending shutdown; otherwise the command is accepted last in the queue |
| StoreActor.AliveNeverReturns | src/store.rs:419-434 | Once false, `alive` stays false |
| StoreActor.IsReadyIsSound | src/store.rs:156-158 | If the two loads of `is_ready` return true, both flags held together at the first, with the database open if the core was still owned |
| Domain.Slugify | src/domain.rs:284-299 | The one-pass loop computes the lower-case maximal ASCII-alphanumeric runs joined by single hyphens |
| Domain.SlugFixedPoints | src/domain.rs:284-299 | A text is its own slug if and only if it is empty or lower-case words between single hyphens |
| Domain.SlugifyIsIdempotent | src/domain.rs:284-299 | Slugs are their own slugs |
| Domain.SlugIsWellFormed | src/domain.rs:284-299 | A slug is empty exactly for texts without ASCII letters and digits, and well formed otherwise |
| Domain.SlugIsNoLonger | src/domain.rs:284-299 | A slug has at most as many characters as its text |
| Domain.ExplicitSlugUnchanged | src/domain.rs:256-268 | A requested slug comes out unchanged if and only if it is well formed and at most 96 long |
| Domain.DerivedSlugIsStable | src/domain.rs:251-282 | Every derived slug, the digest fallback included, is accepted unchanged as an explicit one |
| Domain.DerivedTitleIsStable | src/domain.rs:234-243 | Every derived title is accepted unchanged as a requested one |
| Strings.StemSplits | src/domain.rs:245-249 | The stem is what precedes the last full stop, or the whole name |
| Strings.TrimIs | src/domain.rs:235 | Trimming takes away the outer white space, all of it and nothing else |
| Strings.LowersInOrder | src/domain.rs:292 | Upper-case letters become the lower-case ones in their order, nothing else changes |
| Strings.StemIs | src/domain.rs:245-249 | A text is the stem exactly if the name is it, a full stop and an extension without any, or has no full stop and is it |
| Domain.TitleIs | src/domain.rs:234-243 | The title is the request, or else the stem, without outer white space, accepted exactly with 1 to 160 characters and no control among them |
| Domain.StemSlugIs | src/domain.rs:270-275 | Without a request the slug is that of the stem, up to 96 long, and the digest's exactly if the stem has no ASCII letter or digit |
| Domain.RequestedSlugIs | src/domain.rs:256-268 | With a request the slug is that of the trimmed request, accepted exactly with allowed characters, a letter or digit, and at most 96 |
| Domain.UploadIs | src/domain.rs:42-71 | An upload gives a draft if and only if filename, size, encoding, body, title and slug pass, and then exactly this one |
| Domain.HexDigits | src/domain.rs:61 | Each byte is its two hexadecimal digits, the higher first |
| Domain.RehydrateInvertsUpload | src/domain.rs:139-163 | Every accepted upload with any identifier of at least 1 rehydrates to the same document |
| Domain.RehydratedFields | src/domain.rs:139-163 | An accepted row keeps its fields, its title trimmed, and its digest is that of its body |
| Domain.ReadsBackIffProducible | src/domain.rs:139-163 | Stored fields rehydrate unchanged if and only if an upload can produce them |
| Domain.ProducibleFields | src/domain.rs:42-71 | The documents that can exist, characterised field by field: limits, trimmed title, well-formed slug, matching digest |
| Codec.ReadsInsertStatement | src/store.rs:511-522 | By the grammar the text written for any document inserts into `licenses`, and its values placed by the column names are the document's row, whatever quotes, bodies and signs it holds |
| Codec.ReadsDeleteStatement | src/store.rs:378-384 | By the grammar the text deletes from `licenses` by equality of column `slug` with that very slug |
| Codec.ReadsSchema | src/store.rs:22-27 | By the grammar the fixed texts create the seven columns and unique indexes on `id` and `slug`, and scan all columns ordered by `id` |
| LicenseTable.InColumnOrder | src/store.rs:479-493 | Values named in the order of the columns are a row, and a scan of all columns shows the row |
| LicenseTable.ShapeFitsColumns | src/store.rs:480-488 | The pattern a row is decoded by is one value for each column, of its kind |
| Rnmdb.KeysByName | src/store.rs:24-25 | The keys of a row are what stands under `id` and `slug` |
| Codec.TextRoundTrip | src/store.rs:479-522 | Decoding what the INSERT text says gives the document back if and only if an upload can produce it |
| Codec.DecodedRow | src/store.rs:479-509 | A row that decodes is the row of its document, but for white space around the stored title |
| Sql.ReadsInsert | src/store.rs:511-526 | Any INSERT of named columns and text or 64-bit integer literals reads back as its table, names and values |
| Sql.ReadsDelete | src/store.rs:378-384 | Any DELETE by equality reads back as its table, column and value |
| SqlText.ReadQuotedOfDoubled | src/store.rs:524-526 | A text with doubled quotes reads back as the text, up to its closing quote |
| Base64.AlphabetOfTheRfc | src/store.rs:494-517 | The alphabet is that of the RFC, run by run |
| Base64.DecodesExactlyItsEncoding | src/store.rs:494-496 | Base64 text decodes to bytes if and only if it is their encoding, for every length |
| Utf8.DecodesExactlyItsEncoding | src/domain.rs:53-55 | Bytes are a text if and only if they are its encoding |
| RenderCache.RenderCache.Insert | src/markdown.rs:160-174 | Terminates with the listing exact and both bounds kept, having dropped the shortest oldest prefix that makes room, never by way of the empty queue |
| RenderCache.RenderCache.RemoveOldest | src/markdown.rs:176-184 | Takes the oldest entry, its place in the listing and its length in bytes, and nothing else |
| RenderCache.Evicted | src/markdown.rs:164-170 | The number of oldest entries that go is the least that makes room |
| RenderCache.InsertedIsSound | src/markdown.rs:160-174 | At most 32 entries and 16 MiB, each key listed once |
| RenderCache.InsertedEntries | src/markdown.rs:160-174 | A value that is not too large is present afterwards, no other entry is new or changed, and a present digest changes nothing |
| RenderCache.InsertedOrder | src/markdown.rs:164-173 | The survivors keep their order and the new key comes last, after the fewest oldest that had to go |
| RenderCache.SoundIsBounded | src/markdown.rs:17-18 | At most 32 entries and 16 MiB |
| RenderCache.RenderCache.Get | src/markdown.rs:156-158 | Finds exactly the entries, with their values |
| RenderCache.Measures | src/markdown.rs:164-166 | The loop condition says exactly that the new entry does not fit yet, and its addition never saturates |
| RenderFlight.CellsStep | src/markdown.rs:68-90 | Every step keeps: a cell has one initialiser, and an unset cell is the one registered for its digest |
| RenderFlight.JobsStep | src/markdown.rs:117-134 | Every step keeps: a request awaits a job it spawned for its own digest and text |
| RenderRuns.PermitsAreConserved | src/markdown.rs:108-137 | In every run, with any cancellations, free permits, those held by requests and those held by jobs add up to 2, so at most two renders run |
| RenderRuns.SingleFlight | src/markdown.rs:60-91 | In every run, of two renders of one digest in progress together the requester of one was cancelled |
| RenderOrphans.DoublesIffOrphaned | src/markdown.rs:60-137 | From any reachable state and for any digest not in the cache, two unfinished jobs can come about without a further cancellation if and only if a cancelled request has left a job for it unfinished |
| RenderOrphans.CancellationEndsSingleFlight | src/markdown.rs:117-134 | For every digest and text, a run with one cancellation in which two jobs render it at once |
| RenderRuns.UncancelledSingleFlight | src/markdown.rs:60-137 | Without cancellation a digest is rendered by one job at a time and only while absent from the cache; every registered cell is held by a request, and none is registered when no request is active |
| RenderRuns.RegisteredCells | src/markdown.rs:68-75 | In every run the unset cell of a digest is the registered one, and a registered cell is held by its creator unless that was cancelled |
| RenderRuns.CleanUpIsOwn | src/markdown.rs:83-89 | Cleaning up removes the request's own cell or nothing |
| RenderRuns.HitsAnswerAtOnce | src/markdown.rs:64-66 | A request whose digest is cached is answered at once and touches nothing else |
| RenderRuns.JobFillsCache | src/markdown.rs:117-131 | A job that has rendered can always store; an output that fits is then cached, whether or not its requester was cancelled |
| RenderRuns.CachingIsTransparent | src/markdown.rs:60-137 | If equal digests carry equal texts, every answer in every run is the text's rendering, or OutputTooLarge above 8 MiB, or WorkerFailed, and that only if a job failed |
| MarkdownEvents.SafeEventsKeepNesting | src/markdown.rs:191-211 | A well-nested stream stays well-nested with matching heading levels, and every piece of content comes in the same order inside the same tags, but for images and one heading level |
| MarkdownEvents.SafeEventsAreRewritten | src/markdown.rs:191-221 | The filtered stream is the stream without images, event by event: raw HTML as text, headings one level down with identifier, classes and attributes kept, everything else unchanged |
| MarkdownEvents.SafeEventsAreSafe | src/markdown.rs:191-211 | No raw HTML, image or top-level heading is left in any stream |
| MarkdownEvents.SafeEventsKeepText | src/markdown.rs:191-194 | The payloads of text and raw HTML all come through as text, in order |
| AdminPage.AdminPage.LockManager | src/http/assets/admin.js:124-148 | Supersedes every operation, drops the token, empties and hides the manager and frees every form |
| AdminPage.AdminPage.UnlockManager | src/http/assets/admin.js:65-81 | An empty candidate changes nothing; any other starts a new session with that token |
| AdminPage.AdminPage.UnlockAnswered | src/http/assets/admin.js:83-98 | A superseded unlock only ends; a failure drops the token; otherwise the message or the list is awaited |
| AdminPage.AdminPage.UnlockListed | src/http/assets/admin.js:100-121 | A valid list of a current unlock is shown, anything else drops the token |
| AdminPage.AdminPage.UploadLicense | src/http/assets/admin.js:155-173 | Starts an upload of the current session if a file was chosen |
| AdminPage.AdminPage.UploadAnswered | src/http/assets/admin.js:175-206 | A 401 locks, another failure ends the upload, a success goes on to a refresh |
| AdminPage.AdminPage.RefreshLicenses | src/http/assets/admin.js:216-225 | Starts a refresh of the given session, if that is current |
| AdminPage.AdminPage.RefreshAnswered | src/http/assets/admin.js:225-240 | A superseded refresh only ends, a 401 locks, otherwise the message or the list is awaited |
| AdminPage.AdminPage.RefreshListed | src/http/assets/admin.js:242-258 | A valid list of a current refresh is put on the page |
| AdminPage.AdminPage.DeleteLicense | src/http/assets/admin.js:340-354 | Starts a deletion if one is pending and the session is open |
| AdminPage.AdminPage.DeleteAnswered | src/http/assets/admin.js:356-386 | A 401 closes the dialog and locks, another failure ends the deletion, a success closes the dialog and goes on to a refresh |
| AdminPage.AdminPage.FinishDeleteDialog | src/http/assets/admin.js:394-408 | Forgets the pending slug and frees the dialog |
| AdminRuns.StepKeeps | src/http/assets/admin.js:65-386 | Every event and every response keeps the page's invariant |
| AdminRuns.GuardsAgree | src/http/assets/admin.js:470-480 | For every suspended handler the guard with the token and the one without say the same |
| AdminRuns.PageTellsTheSession | src/http/assets/admin.js:65-259 | In every run a form or list is busy exactly while a current operation is in flight for it, the token is kept exactly while the manager is shown or an unlock is in flight, a hidden manager lists nothing, and every request that is awaited asks for what its handler does, those of the current session with its token |
| AdminRuns.SubmissionsAsk | src/http/assets/admin.js:65-82 | A submitted token is asked about in a new session, a submitted file is published in this one, each with the token of its session |
| AdminRuns.UnlockOpens | src/http/assets/admin.js:83-109 | A current unlock that gets a status of 200 to 299 and a valid list shows the manager with exactly that list, its token kept |
| AdminRuns.UnlockFails | src/http/assets/admin.js:87-122 | After a refusal, a failure or an invalid list the token is gone and the form free |
| AdminRuns.ChangeRefreshes | src/http/assets/admin.js:155-206 | A good response to an upload or deletion starts a refresh with the session's token, the deletion having closed its dialog |
| AdminRuns.RefusalIsRead | src/http/assets/admin.js:185-192 | Any other status but 401 starts nothing: the same page waits for the message |
| AdminRuns.RefreshShows | src/http/assets/admin.js:216-259 | A current refresh with a good response and a valid list ends with exactly that list on the page |
| AdminRuns.OperationEnds | src/http/assets/admin.js:196-206 | A failed operation, or one whose refresh is over, frees its own controls and changes nothing else |
| AdminRuns.ConfirmedRemoval | src/http/assets/admin.js:329-358 | The button of a row and the confirmation ask to remove that row's license |
| AdminRuns.SupersededHandlersAreSilent | src/http/assets/admin.js:470-480 | Once superseded a handler stays so in every run, and nothing that reaches it changes the page |
| AdminRuns.Perform | src/http/assets/admin.js:65-408 | The page's code, handler by handler, performs exactly the step that the runs are made of, and keeps the invariant |
| AdminRuns.UnauthorizedLocks | src/http/assets/admin.js:175-184 | A 401 for a current operation other than an unlock ends it and locks the page; for a superseded one it only ends it |
| AdminRuns.LockHolds | src/http/assets/admin.js:124-148 | Once locked, whatever was in flight, the manager stays hidden and empty until an unlock submitted after it gets a valid list |
| AdminRuns.RefreshesRenderInOrder | src/http/assets/admin.js:216-259 | Of two refreshes that put their lists on the page, the later one to do so began later |

## Left out

- The HTTP layer (`src/http/mod.rs`, `public.rs`, `error.rs`, `admin.rs`, `assets.rs`): routing, headers, error mapping and multipart reading.
- Configuration, files, locks, signals and timeouts (`src/config.rs`, `src/storage.rs`, `src/main.rs`, `src/server.rs`); the owner lock appears only as the absence of other writers.
- RNMDB, pulldown-cmark, ammonia and SHA-256 themselves: a fault model, a well-nested event stream, and function parameters.
- The choice of sanitiser rules and Markdown options (`src/markdown.rs:187-270`).
- Panics in the actor beyond the health guard's final flags, and panics in a render other than as a failed job.
- Autocommitted statements, statements on a table without both unique indexes, and other SQL than the store sends: the model's database refuses them, or says nothing of what they do when they fail.
- Liveness and fairness: no claim says that something eventually happens. The `liveness` watch channel repeats `alive` and is not modelled.
- The library's stable sort in `list` is an insertion sort here; `Listing.ListingIsUnique` shows that the order in which the index is walked cannot be seen.
- `persist_create` and `persist_delete` have no members of their own; their one line each stands in `StoreCore.StoreCore.Create` and `StoreCore.StoreCore.Delete`.
- The checks of path and queue capacity, the owner lock and the start of the thread in `spawn_store` (`src/store.rs:234-251`).
- RenderFlight.CellsStep: `render_cached` and `render_once` are a state machine over their awaits and not methods, because their requests interleave; the cache inside it is the function that `RenderCache.RenderCache.Insert` is proved against.
- Messages, focus, input fields and the content of rows on the administrator page; the candidate token is the trimmed input.
- Events of hidden or disabled controls, and of controls behind the modal dialog, are assumed not to fire (`AdminRuns.Enabled`).
