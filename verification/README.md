# Nyrex note synchronisation: a verified model

Nyrex keeps encrypted notes on a device, pushes the unsynced ones to a server in batches, and lets the
server decide by comparing version numbers. This project models that protocol from end to end, with the
vault and the refresh tokens around it, and proves what holds over whole runs.

| Modules | What they model |
|---|---|
| `Models`, `Int32`, `Wrappers`, `Newest` | rows, the wrapping 32-bit version counter, newest-first order |
| `NoteStore`, `StoreRuns` | the server's note table and the operations of `PgNyrexStore`, over any run |
| `SyncEngine`, `SyncRoute` | the version decision and the batch loop of `POST /sync/notes` |
| `Resend` | sending one batch over and over: a measure, a bound, a fixed point |
| `ServerHistory` | every image the server has ever held, over any run of requests |
| `ClientDb`, `SyncService`, `SyncRounds` | the client's tables and one `syncNotes` round |
| `LostReplies`, `Edits` | what lost replies, rival rows and local edits come to |
| `Protocol` | one server and any number of clients that save, edit, delete and sync, each with any number of rounds under way, in single steps |
| `SyncedRows`, `Mishaps`, `Guarantees` | when a row marked as synced is truthful, runs in which it is not, and what a client may rely on |
| `SyncSchedules`, `RefreshSchedules` | single statements of several requests, in any order |
| `Attachments` | the attachment loop, and any number of such loops under way |
| `Envelope`, `VaultSession`, `VaultNotes`, `Unlocking` | the blob layout, the timed lock, the repository, and unlocking in single steps |
| `VaultRuns`, `SyncedLists` | what the note list shows, on a device by itself and on one that syncs |
| `AuthStore`, `AuthRoutes`, `TokenRuns` | accounts, refresh-token rotation, and its laws over any run |

The loops and the objects that change state are methods and classes; each is proved equal to a function on
the old state, and the laws are proved about those functions.

## How the code is read

- **Versions are `i32`** and `+= 1` wraps, as in a release build (no overflow checks are configured in the
  workspace; a debug build would panic instead). Version laws are therefore exact modulo 2^32: they say
  precisely when wrapping breaks them.
- **The client's version is unbounded**, as the local column is; the server refuses a batch it cannot decode.
- **The conflict rule is the code's**: versions are compared for equality. The repository's documents speak
  of last-write-wins and event logs, which no code implements.
- **A failed fetch counts as "no such note"**, as `unwrap_or(None)` has it. Only the laws that compare versions
  assume that fetches work, and `FailedFetchBreaksTheRun` says exactly when one does harm.
- **Upserts may fail anywhere**, clocks may read anything, and the readings that stand in for missing server
  ids may collide, within a batch and between devices. No device learns another's ids in any other way.
- **Ids and owners.** The upsert matches on the id alone (`ForeignRowIsOverwritten`). Laws that speak of owners
  or versions assume that a clock reading is only used by the owner of that id, given as a function `owner`.
- **Atomicity.** One entry's fetch and upsert are one step, as are a refresh's look-up and revocation.
  `SyncSchedules` and `RefreshSchedules` take the statements apart and say exactly what finer interleavings do.
  Entries of different batches interleave freely, and so do the single writes of replies.
- **Rounds overlap.** Every save and edit starts a `syncNotes`, and nothing keeps two of them apart. In the
  protocol a client selects rows, is served and writes results back in single steps, with any number of
  rounds under way and with saves, edits and deletes at any time; a round may stop anywhere, which is how
  requests and replies get lost. The invariant has three layers: what holds in any run (`RunKeeps`), what
  holds if ids are respected (`RunOwns`), what holds if fetches work as well (`VersionsStayLawful`).
- **Drift's `replace`** is given no server id and no creation time by an edit. Whether that resets them is a
  parameter, `resets`. The laws of the protocol hold for both; those about what becomes of an edit say, for
  each of the two, what that is.
- **Unlocks overlap.** Looking for the salt, creating one and looking again are separate steps, with any number
  of unlocks under way.
- **Cryptography** is a set of function parameters. `Sound` says that decryption undoes encryption (sections
  7.1 and 7.2 of NIST SP 800-38D), `Authentic` that another key does not open a box, `WellFormed` that a text
  survives UTF-8, and `Injective` that token hashes do not collide.
- **Timers** fire no earlier than they are due, and time does not pass a due timer by.
- Database failures, random draws and clock readings are inputs of the operations.

## What the proofs found

- A row marked as synced need not be what the server has ever held: `EditInFlightRun` and
  `OverlappingRoundsRun` are runs in which it is not. It is, exactly if its last receipt met the text it was sent
  for, which the client could check before it writes (`SyncedRowWasHeldIff`). Rows that are neither edited nor
  written by another round while their own push is under way are always met (`UndisturbedRowsAreMet`).
- An acknowledged attachment can be posted again, by a round that selected it before; the client could tell by
  looking at the stored entry again before it posts (`NextPostRepeatsIff`).
- Losing a reply is harmless to a row that alone goes out under its server id. With a rival row it is
  harmless exactly if no entry that gets through in between carries the version that the lost reply would have
  brought (`LostRepliesMatterIff`); `RivalOverwritesAfterLoss` is a case in which it is not. A row without
  server id leaves one more note behind with every lost reply (`LostCreatesPileUp`).
- A local edit raises the local version too. So n edits get through exactly when, at their turn, the note is n
  versions ahead of the row they were made on, or is not to be seen; otherwise the note overwrites them
  (`EditsAreTakenIff`). If the server still has the row as it was synced, edits that keep the server id are undone,
  unless a rival pushed before them moves the note on (`QuietEdits`, `EditsOfACurrentRow`).
- Edits that reset the server id fork the note: n of them, with a round after each, leave n more notes next to
  the unchanged first one (`ResetEditsFork`).
- On a device that syncs, a listed note shows its last local text exactly as long as no Conflict has been written
  into it since (`SyncedListShows`, `LastTextIsLocalIff`).
- Two updates from one base version are both accepted exactly if each is read before the other is written, and
  two refreshes with one token are both answered exactly if each looks before the other revokes
  (`BothSucceedIff`, `BothAnsweredIff`).
- Re-sending settles unless an own entry names a foreign row or one id is submitted at all 2^32 versions
  (`ResendSettles`).
- A pair of id and version is accepted at most once exactly until the id has had 2^32 updates
  (`AcceptedAtMostOnce`).
- The first salt stays the only one exactly if no second unlock that had looked before it was there goes on to
  insert (`SaltStaysIff`). Two salts lock the vault for good (`InterleavedFirstUnlocks`, `TwoSaltsLockForever`).
- Attachments are only reached in a round that delivers at least one note (`Sync`).
- A refresh whose successor cannot be stored still spends the old token (`RefreshCosts`).

## Model

| member | source | states |
|---|---|---|
| SyncRoute.SyncNotes | services/api/src/routes/sync.rs:46-113 | the handler's loop leaves the table and answers with the results that processing the entries in order gives, whatever statements fail |
| SyncRoute.ResultAt | services/api/src/routes/sync.rs:51-112 | result i and the table after entry i come from entry i alone and the table that the first i entries left |
| SyncRoute.OneResultPerEntry | services/api/src/routes/sync.rs:51-112 | a Success or Conflict at position i carries the id of entry i and the session's user; "Unauthorized note ownership" is the answer to exactly the foreign entries; rows stay keyed by their ids |
| SyncRoute.EachAnswerExactly | crates/sync/src/lib.rs:22-43 | for each own entry: Conflict, with the row itself, iff the row seen has another version; Success iff not and the upsert works, as submitted but at the row's successor version, or at its own version if no row was seen |
| SyncRoute.ProcessAppend | services/api/src/routes/sync.rs:54-110 | processing a + b is processing a and then b, with the results concatenated |
| SyncRoute.BatchFrame | services/api/src/routes/sync.rs:54-95 | a batch leaves untouched every row that none of the session's own entries names |
| SyncRoute.BatchKeepsIdentity | services/api/src/routes/sync.rs:76-86 | no batch removes a row or changes its owner, creation time, tombstone, format or tags |
| SyncRoute.LastAcceptedWins | services/api/src/routes/sync.rs:73-98 | for each id the row ends up saying what the last accepted entry for it said, at the version and time of that acceptance; without one it is untouched |
| SyncRoute.NewRows | services/api/src/routes/sync.rs:76-93 | an id that was not there has a row afterwards iff an entry for it was accepted: the session's, not deleted, in format markdown, without tags, created when the first of these entries was and updated when the last was, with the last one's texts |
| SyncRoute.NewRowsAreFound | services/api/src/routes/sync.rs:76-93 | its owner finds such a row with `get_note` |
| SyncRoute.JudgedAlone | services/api/src/routes/sync.rs:54-110 | an entry whose id no other own entry carries gets the answer and leaves the row it would as a batch of one |
| SyncRoute.OrderIrrelevant | services/api/src/routes/sync.rs:51-112 | with pairwise distinct ids, every permutation of a batch permutes the results and gives the same table up to timestamps |
| SyncRoute.FailureIsolation | services/api/src/routes/sync.rs:97-101 | upserts failing at any positions: table and remaining results are those of the batch without the failed entries |
| SyncRoute.FailedExactly | services/api/src/routes/sync.rs:97-101 | "Database update failed" is the answer to exactly the own entries whose upsert was reached and failed |
| SyncRoute.InterleavedStatementsLoseAnUpdate | services/api/src/routes/sync.rs:61-95 | two requests that both fetch before either upserts are both told Success, and the first content is gone; in sequence the second gets Conflict |
| SyncSchedules.SuccessIff | services/api/src/routes/sync.rs:61-101 | any number of requests with one base version, fetches and upserts in any order: a request is told Success iff its upsert works and nobody had been told Success when it fetched |
| SyncSchedules.BothSucceedIff | services/api/src/routes/sync.rs:61-101 | of two such requests both are told Success, so that an update is lost, iff each fetches before the other writes |
| SyncSchedules.AloneIsSyncEntry | services/api/src/routes/sync.rs:61-109 | fetch and upsert of one request in one go are what the route does with its entry |
| SyncRoute.ForeignRowIsOverwritten | services/api/src/routes/sync.rs:62-85 | an entry that names another user's row is told Success at its own version and rewrites the row's texts, iff the upsert works; the owner column stays, and the owner's next entry gets Conflict unless it carries that version |
| Int32.BumpIsWrap | crates/sync/src/lib.rs:35-35 | incrementing a 32-bit version is adding one modulo 2^32 |
| Int32.BumpLiterally | crates/core/src/models/mod.rs:80-80 | versions lie between -2147483648 and 2147483647, and one more than the largest is the smallest |
| Resend.MeasureDecreases | services/api/src/routes/sync.rs:54-110 | over any sends of a batch's entries, each update closes an open entry and each create uses up a new id: updates plus entries still open never exceed entries open at the start |
| Resend.CreatesAreNewRows | services/api/src/routes/sync.rs:76-86 | the table grows by exactly the creates that are counted |
| Resend.ResendBound | services/api/src/routes/sync.rs:54-110 | any number of resends, upserts failing at will: at most one update per entry and one create per id new to the server |
| Resend.SettledIsFixed | crates/sync/src/lib.rs:31-41 | once every own entry conflicts, further resends leave the table as it is, timestamps included, and are answered with the rows as they stand |
| Resend.UnsettledRoundUpdates | crates/sync/src/lib.rs:31-36 | an undisturbed round over existing rows that are not settled accepts an update |
| Resend.ResendSettles | services/api/src/routes/sync.rs:54-110 | after one more undisturbed round than the batch has entries, the table is settled if and only if no own entry names a foreign row and no id is submitted at every 32-bit version |
| Resend.SmallBatchIsGapped | crates/core/src/models/mod.rs:80-80 | a batch of fewer than 2^32 entries always leaves a version out for every id |
| ServerHistory.ServeKeepsHistory | services/api/src/routes/sync.rs:54-110 | a batch only appends to the history of each id, each accepted version being the successor of the one before, and the row is always the newest image |
| ServerHistory.RunKeepsHistory | services/api/src/routes/sync.rs:54-110 | the history invariant in every state reachable from the empty server |
| ServerHistory.VersionsRunConsecutively | crates/sync/src/lib.rs:27-36 | after n accepted updates of an id created at k its row is at k + n (modulo 2^32, plainly so while it fits), and all versions in between were held once, in order |
| ServerHistory.HeldWasSubmitted | services/api/src/routes/sync.rs:73-98 | the first image of an id is an entry its session submitted, every later one such an entry at its successor version |
| ServerHistory.VersionDeterminesImage | crates/sync/src/lib.rs:27-36 | two images of an id share a version iff a multiple of 2^32 updates lies between them; up to 2^32 images, id and version determine the content |
| ServerHistory.AcceptedAtMostOnce | services/api/src/routes/sync.rs:71-95 | no (id, version) is accepted as an update twice, iff the id has had at most 2^32 updates |
| ServerHistory.RunTallyIsOvertaken | services/api/src/routes/sync.rs:71-95 | the updates accepted at a version, counted over the requests, are the images of that version the history has overtaken |
| ServerHistory.FailedFetchBreaksTheRun | services/api/src/routes/sync.rs:62-69 | a failed fetch of an existing row breaks the consecutive run unless the submitted version happens to be the successor |
| NoteStore.PgNyrexStore.ListNotes | crates/store/src/pg/mod.rs:35-43 | returns exactly the user's live notes, each once, newest first |
| NoteStore.PgNyrexStore.CreateNote | crates/store/src/pg/mod.rs:45-66 | succeeds iff the statement works and the id is free, and then the row has the note's columns and no tombstone; all other rows stay |
| NoteStore.PgNyrexStore.UpdateNote | crates/store/src/pg/mod.rs:68-89 | succeeds iff the statement works and the user owns the note, and then writes seven columns of that row; id, owner, creation time and tombstone stay, and so do all other rows |
| NoteStore.PgNyrexStore.DeleteNote | crates/store/src/pg/mod.rs:91-101 | sets the tombstone of the owner's note to the clock, leaves its other columns and all other rows, and does nothing for anybody else |
| StoreRuns.Perform | crates/store/src/pg/mod.rs:45-101 | each operation of the store takes the table to the next one of a run |
| StoreRuns.RunKeepsTableInOrder | crates/store/src/pg/mod.rs:45-101 | over any run of creates, updates, deletes and sync batches, rows and tombstones stay and no row changes owner |
| StoreRuns.TombstonesAreForever | crates/store/src/pg/mod.rs:24-101 | a deleted note is never again found by `get_note` nor listed, for any user, whatever happens afterwards |
| StoreRuns.ViewsAgree | crates/store/src/pg/mod.rs:24-43 | a listing holds exactly the notes a look-up would find, each once, newest first |
| StoreRuns.ListingIsUnique | crates/store/src/pg/mod.rs:35-43 | with no two equal timestamps there is only one such listing |
| ClientDb.PendingSelects | apps/flutter/lib/modules/notes/data/datasources/sync_service.dart:28-30 | the selected rows are exactly the unsynced ones, each once, in the order of the table |
| ClientDb.WithoutRemoves | apps/flutter/lib/core/database/app_database.dart:62-62 | a delete removes exactly the row with that id and leaves the others in order |
| SyncService.SyncService.SyncNotes | apps/flutter/lib/modules/notes/data/datasources/sync_service.dart:26-98 | server table and local rows after one round; a round that is not delivered writes no row, and a request that is lost, or cannot be read as 32-bit versions, leaves the server's table as it is; when it ends in an exception |
| SyncService.SyncService.WriteResults | apps/flutter/lib/modules/notes/data/datasources/sync_service.dart:55-98 | the index loop stays in range; the row sent at position i gets, column by column, what result i says and keeps its local id and times; all other rows stay |
| SyncService.PayloadSays | apps/flutter/lib/modules/notes/data/datasources/sync_service.dart:35-49 | the entry of a row, column by column |
| SyncRounds.Offline | apps/flutter/lib/modules/notes/data/datasources/sync_service.dart:51-131 | any number of rounds whose requests are lost change neither table nor rows, so the same rows are selected again |
| SyncService.SyncService.Sync | apps/flutter/lib/modules/notes/data/datasources/sync_service.dart:26-132 | notes first; attachments only after a delivered, non-empty note round, even when later posts throw; it returns normally iff nothing was pending, or notes were delivered and no post threw |
| SyncRounds.ReceivedPairs | apps/flutter/lib/modules/notes/data/datasources/sync_service.dart:55-98 | each local row is rewritten by the one result paired with it, once that has been reached, and by no other |
| SyncRounds.RowGetsItsResult | apps/flutter/lib/modules/notes/data/datasources/sync_service.dart:55-98 | after a delivered round a pending row is its old self merged with the server's answer to its own entry, whatever failed |
| SyncRounds.RoundMakesProgress | apps/flutter/lib/modules/notes/data/datasources/sync_service.dart:28-98 | a delivered round leaves pending exactly the rows answered with Error, and these only by a failed upsert; without one nothing stays pending; synced rows are untouched |
| SyncRounds.SoloPush | apps/flutter/lib/modules/notes/data/datasources/sync_service.dart:51-93 | a row that alone goes out under its id is merged with, and the note of that id changed by, its own entry only |
| LostReplies.LostRepliesAreHarmless | apps/flutter/lib/modules/notes/data/datasources/sync_service.dart:51-93 | for a row that alone goes out under its server id: push and lose the reply any number of times, upserts failing or not, then push and receive: row and server note end as after one answered push |
| LostReplies.ResendLeavesNoteIff | apps/flutter/lib/modules/notes/data/datasources/sync_service.dart:51-93 | any rivals, upserts failing at will: the resends leave the server's note as the first push left it, iff no entry sent again for it that gets through carries the version it was left at |
| LostReplies.LostRepliesMatterIff | apps/flutter/lib/modules/notes/data/datasources/sync_service.dart:51-93 | any rivals, their upserts failing at will: the last reply makes the same of a row as the first would have, iff no entry for its note that gets through in between carries the version the first reply brings |
| LostReplies.RivalOverwritesAfterLoss | crates/sync/src/lib.rs:31-41 | two rows of one note, one version apart: after one lost reply the first is overwritten with the second's text, which it would have kept |
| LostReplies.NoteMoves | crates/sync/src/lib.rs:31-41 | entries for a note move it on for good iff one that gets through carries the version it is at |
| LostReplies.LostCreatesPileUp | apps/flutter/lib/modules/notes/data/datasources/sync_service.dart:38-38 | a row without server id leaves one note with its text for every push under a new clock reading |
| Edits.EditsAreTakenIff | apps/flutter/lib/modules/notes/data/repositories/notes_repository_impl.dart:83-104 | n edits of a row at version v, with any rivals and failures: taken iff the upsert works and the note is at v + n at their turn, or is not to be seen; overwritten by the note if it is at another version; left pending if only the upsert fails |
| Edits.QuietEdits | apps/flutter/lib/modules/notes/data/repositories/notes_repository_impl.dart:93-103 | if the server still has the row as it was synced: edits that keep the server id are undone iff no rival pushed before them carries the old version and gets through; the note keeps its text iff no entry for it does |
| Edits.TakenIff | crates/sync/src/lib.rs:27-41 | of several entries for one note in a batch, exactly those are told Success that get through at the version the ones before have left, statements failing at will |
| Edits.VersionIsTracked | services/api/src/routes/sync.rs:54-110 | that version can be read off the versions the entries carry |
| Edits.LastWordOnNote | apps/flutter/lib/modules/notes/data/datasources/sync_service.dart:55-98 | what the edited row says after the round is what its note says in the end, unless a later entry for it gets through |
| Edits.LoneEdits | apps/flutter/lib/modules/notes/data/repositories/notes_repository_impl.dart:83-104 | the case of a row that goes out alone and meets no failure: taken at v + n, a note of its own under a new id, overwritten otherwise |
| Edits.RevisionForks | apps/flutter/lib/core/database/app_database.dart:60-61 | an edit that resets the server id and one round: a new note with the new text at the next version, the row's under a new id, earlier notes untouched |
| Edits.ResetEditsFork | apps/flutter/lib/core/database/app_database.dart:60-61 | n such edits, each with a round: n + 1 different notes for one row, the first unchanged |
| Edits.ForksKeepTheirText | apps/flutter/lib/core/database/app_database.dart:60-61 | the note of each of these edits still says, at the end, what that edit wrote, at its version |
| Protocol.RoundIsItsSteps | apps/flutter/lib/modules/notes/data/datasources/sync_service.dart:26-98 | selecting, serving and writing back in one go is the sync service's delivered round; without the writing, its lost reply |
| SyncedLists.LocalMovesAreRepositorySteps | apps/flutter/lib/modules/notes/data/repositories/notes_repository_impl.dart:59-104 | a save or edit of the protocol is what the repository does with the texts its boxes seal |
| SyncedLists.DeletesAreRepositorySteps | apps/flutter/lib/modules/notes/data/repositories/notes_repository_impl.dart:108-122 | and so is a delete |
| Protocol.EntryAnswered | services/api/src/routes/sync.rs:54-110 | every note in an answer is an image the server now holds for the entry's id; a Success is the entry itself at its new version |
| Protocol.ServeKeeps | services/api/src/routes/sync.rs:54-110 | serving an entry of any round, fetch and upsert failing or not, keeps the invariant and only extends the history |
| Protocol.WriteKeeps | apps/flutter/lib/modules/notes/data/datasources/sync_service.dart:55-98 | writing any result of any round, whatever has become of the row since, keeps the client's invariant |
| Protocol.MoveKeeps | apps/flutter/lib/modules/notes/data/datasources/sync_service.dart:26-98 | every step of any client keeps the invariant of the whole world and only extends the server's history |
| Protocol.RunKeeps | apps/flutter/lib/modules/notes/data/datasources/sync_service.dart:26-98 | the invariant in every world of every run, with any number of rounds under way and anything failing |
| Protocol.NoncesFollowTitles | apps/flutter/lib/modules/notes/data/repositories/notes_repository_impl.dart:64-104 | in every reachable world each nonce column, local or on the server, is the first 12 bytes of its title cipher |
| Protocol.ServerIdsExist | apps/flutter/lib/modules/notes/data/datasources/sync_service.dart:67-91 | in every reachable world a server id that is set names a row of the server |
| Protocol.ServerIdsAreFound | apps/flutter/lib/modules/notes/data/datasources/sync_service.dart:67-91 | if ids are respected, the server's fetch finds that row for the client's user |
| Protocol.VersionsStayLawful | services/api/src/routes/sync.rs:54-110 | if fetches work as well, versions run consecutively in every reachable world |
| SyncedRows.SyncedRowsWereHeld | apps/flutter/lib/modules/notes/data/datasources/sync_service.dart:55-98 | in any run, a synced row whose last receipt met the text it was sent for says, at its version, something the server has held under its server id |
| SyncedRows.SyncedRowWasHeldIff | apps/flutter/lib/modules/notes/data/datasources/sync_service.dart:55-98 | and only such a row does, as long as versions of that id do not repeat |
| SyncedRows.SyncedRowsAgreeIff | apps/flutter/lib/modules/notes/data/datasources/sync_service.dart:55-98 | two rows synced at one version of one id, anywhere in a run, the first by a receipt that met it: the same ciphertexts iff the second's receipt met it too |
| SyncedRows.UndisturbedRowsAreMet | apps/flutter/lib/modules/notes/data/datasources/sync_service.dart:55-98 | a receipt meets its row unless it was edited, or written by another round, since it was selected |
| SyncedRows.QuietRoundsAreTruthful | apps/flutter/lib/modules/notes/data/datasources/sync_service.dart:28-98 | so in a run in which that never happens every synced row was held |
| Mishaps.EditInFlightRun | apps/flutter/lib/modules/notes/data/datasources/sync_service.dart:59-70 | a run: an edit made while the reply is on its way is marked as synced, and the server has never held it |
| Mishaps.OverlappingRoundsRun | apps/flutter/lib/modules/notes/presentation/providers/notes_provider.dart:62-62 | a run without edits: of two rounds under way the later one's Conflict is written before the earlier one's Success, and the row is synced to what the server never held |
| Guarantees.LostRepliesInAnyRun | apps/flutter/lib/modules/notes/data/datasources/sync_service.dart:51-93 | in any reachable world, lost replies make no difference to a row that alone goes out under its server id |
| Guarantees.LostRepliesMatterInAnyRun | apps/flutter/lib/modules/notes/data/datasources/sync_service.dart:51-93 | in any reachable world, with any rivals, exactly when they do make a difference to the note or the row |
| Guarantees.EditsOfACurrentRow | apps/flutter/lib/modules/notes/data/repositories/notes_repository_impl.dart:83-104 | in any reachable world, with any rivals: exactly when edits of a truthful synced row that is up to date are undone, when the server's note stays, and what becomes of the row otherwise |
| Guarantees.ResetEditsForkInAnyRun | apps/flutter/lib/core/database/app_database.dart:60-61 | in any reachable world, n edits that reset the server id leave n more notes, each with its text |
| Attachments.SyncAttachments | apps/flutter/lib/modules/notes/data/datasources/sync_service.dart:100-127 | the loop records each id before the next post and stops at the first exception |
| Attachments.UploadSays | apps/flutter/lib/modules/notes/data/datasources/sync_service.dart:105-131 | post i is for the i-th selected attachment and acknowledged iff its reply is a Success, whose id exactly that entry gets; posts end with the first exception, and not before |
| Attachments.DrivenIsUpload | apps/flutter/lib/modules/notes/data/datasources/sync_service.dart:105-127 | a round taken step by step without disturbance makes the same posts and leaves the same entries as that loop |
| Attachments.RunKeeps | apps/flutter/lib/modules/notes/data/datasources/sync_service.dart:100-131 | in any run with any number of rounds under way: the server id of an entry is the one acknowledged last, a round posts only what it selected unacknowledged, each attachment once, and acknowledges only what it posted |
| Attachments.EachRoundPostsOnce | apps/flutter/lib/modules/notes/data/datasources/sync_service.dart:105-120 | a round posts each attachment at most once |
| Attachments.ExceptionEndsRound | apps/flutter/lib/modules/notes/data/datasources/sync_service.dart:117-131 | a round that meets an exception posts and records nothing more, whatever happens afterwards |
| Attachments.RepostedOnlyIfSelectedBefore | apps/flutter/lib/modules/notes/data/datasources/sync_service.dart:101-120 | an attachment is posted after its acknowledgement only by another round that began before that |
| Attachments.NextPostRepeatsIff | apps/flutter/lib/modules/notes/data/datasources/sync_service.dart:105-120 | the entry a round comes to is still stored, and posting it repeats an acknowledged attachment iff it has a server id by then |
| Attachments.OverlappingRoundsRepost | apps/flutter/lib/modules/notes/data/datasources/sync_service.dart:101-126 | two rounds that select before either is answered post an attachment twice, and the second answer replaces its server id |
| Attachments.EntriesFollowTheLog | apps/flutter/lib/modules/notes/data/datasources/sync_service.dart:121-126 | entries keep all columns but the server id, which is always the one acknowledged last and once set stays set |
| Attachments.SerialRoundsNeverRepeat | apps/flutter/lib/modules/notes/data/datasources/sync_service.dart:100-131 | if rounds do not overlap, nothing is posted or acknowledged again after its acknowledgement, even if its round ended in an exception |
| Attachments.AcknowledgedIsFinal | apps/flutter/lib/modules/notes/data/datasources/sync_service.dart:121-131 | and an entry with a server id never changes again |
| Envelope.Encrypt | apps/flutter/lib/core/crypto/vault_crypto_service.dart:44-57 | the blob is the 12 bytes of the nonce, the 16 of the mac and the cipher text, and `decrypt` under the same key gives the text back |
| Envelope.EncryptBytes | apps/flutter/lib/core/crypto/vault_crypto_service.dart:60-70 | the same for raw bytes |
| Envelope.SplitUndoesBuild | apps/flutter/lib/core/crypto/vault_crypto_service.dart:77-80 | a built blob has nonce, mac and cipher text at bytes 0, 12 and 28, and splitting it returns them |
| Envelope.BuildUndoesSplit | apps/flutter/lib/core/crypto/vault_crypto_service.dart:51-56 | exactly the blobs of at least 28 bytes split, and each is the build of its parts |
| Envelope.SealedOpens | apps/flutter/lib/core/crypto/vault_crypto_service.dart:86-97 | a sealed text opens under its key and no other |
| VaultSession.VaultAuthState.Unlock | apps/flutter/lib/modules/vault/presentation/providers/vault_auth_provider.dart:41-55 | success publishes the key, takes the duration and starts the only active timer, due after that many seconds; failure drops key and state and leaves timer and duration |
| VaultSession.VaultAuthState.LockNow | apps/flutter/lib/modules/vault/presentation/providers/vault_auth_provider.dart:57-61 | drops key and state, and of all timers ever started none stays active |
| VaultSession.VaultAuthState.Expire | apps/flutter/lib/modules/vault/presentation/providers/vault_auth_provider.dart:69-72 | any timer that is active and due is the current one, and locks the vault |
| VaultSession.VaultAuthState.PokeNow | apps/flutter/lib/modules/vault/presentation/providers/vault_auth_provider.dart:63-67 | restarts the timer of an open vault with its whole duration, does nothing to a locked one |
| VaultSession.VaultAuthState.ResetLockTimer | apps/flutter/lib/modules/vault/presentation/providers/vault_auth_provider.dart:69-72 | of all timers ever started only the new one is active, due after the duration in seconds, at once if that is negative |
| VaultSession.RunReads | apps/flutter/lib/modules/vault/presentation/providers/vault_auth_provider.dart:28-73 | clock, key, published state, duration and the second at which the timer is due, after any run, read off the events alone |
| VaultSession.OpenOnlyWhileActive | apps/flutter/lib/modules/vault/presentation/providers/vault_auth_provider.dart:41-72 | what is published is what is held, and the vault is never open past the last activity plus the duration |
| VaultSession.AutoLockIsExact | apps/flutter/lib/modules/vault/presentation/providers/vault_auth_provider.dart:69-72 | while the vault is open a timer can fire exactly at the last activity plus the duration, and time can pass up to then |
| VaultNotes.UnlockVault | apps/flutter/lib/modules/vault/domain/usecases/unlock_vault.dart:34-47 | creates a salt, shared and with 600 seconds, iff there is none, derives the key from the one salt there is, and fails when there are several |
| VaultNotes.InterleavedFirstUnlocks | apps/flutter/lib/modules/vault/domain/usecases/unlock_vault.dart:35-36 | two first unlocks that both look before either inserts leave two salts, and every later unlock fails |
| Unlocking.UnlockInOneGo | apps/flutter/lib/modules/vault/domain/usecases/unlock_vault.dart:34-47 | the steps of one unlock that nothing disturbs come to what the use case does |
| Unlocking.RowsAreInserts | apps/flutter/lib/modules/vault/domain/usecases/unlock_vault.dart:35-36 | with any number of unlocks under way: as many salts as unlocks that inserted one, in that order, all of which had looked before the first insert |
| Unlocking.OverlappingFirstUnlocks | apps/flutter/lib/modules/vault/domain/usecases/unlock_vault.dart:35-36 | a run: two unlocks that both look before either inserts leave two salts |
| Unlocking.SaltStaysIff | apps/flutter/lib/modules/vault/domain/usecases/unlock_vault.dart:35-36 | once there is a salt it stays the only one iff no second unlock that had looked before the first insert goes on to insert |
| Unlocking.InsertIsSecondIff | apps/flutter/lib/modules/vault/data/repositories/vault_repository_impl.dart:27-35 | an insert makes the only salt iff the table is empty at that very moment |
| Unlocking.KeyIsReadOff | apps/flutter/lib/modules/vault/domain/usecases/unlock_vault.dart:34-47 | in any run the key is that of the password of the unlock that derived last and of the first salt there was, until the next lock or the next look-up that meets several salts |
| Unlocking.TwoSaltsLockForever | apps/flutter/lib/core/database/app_database.dart:69-70 | with two salts and no unlock left that has got hold of one, over any run: both stay, and after the first lock or look-up there is never a key |
| VaultRuns.NotesState.Turn | apps/flutter/lib/modules/vault/presentation/providers/vault_auth_provider.dart:41-61 | each step of an unlock and each lock changes table, key and unlocks under way as the run says |
| VaultNotes.NotesRepository.GetAllDecryptedNotes | apps/flutter/lib/modules/notes/data/repositories/notes_repository_impl.dart:22-55 | each listed note is a stored row, column by column, whose two ciphers open under the key to its title and content; every such row is listed, each once, newest first |
| VaultNotes.NotesRepository.SaveNote | apps/flutter/lib/modules/notes/data/repositories/notes_repository_impl.dart:59-79 | appends one unsynced row at version 1 with both texts sealed |
| VaultNotes.NotesRepository.UpdateNote | apps/flutter/lib/modules/notes/data/repositories/notes_repository_impl.dart:83-104 | rewrites the row with that id, unsynced and one version up, and leaves all others |
| VaultNotes.NotesRepository.DeleteNote | apps/flutter/lib/modules/notes/data/repositories/notes_repository_impl.dart:108-122 | exactly the rows with other ids remain |
| VaultNotes.NotesRepository.SaveVaultEntry | apps/flutter/lib/modules/vault/data/repositories/vault_repository_impl.dart:38-60 | appends one attachment that decrypts to the file, with its nonce and size |
| VaultRuns.NotesState.Handle | apps/flutter/lib/modules/notes/presentation/providers/notes_provider.dart:51-97 | the local part of each operation takes the device to the next state of the run; nothing happens while the vault is locked, nor on an edit of a note that is not listed |
| VaultRuns.DoorOfRun | apps/flutter/lib/modules/notes/presentation/providers/notes_provider.dart:51-97 | what happens to the notes has no part in unlocking: salts and key are those of the unlocks and locks alone |
| VaultRuns.RunMatches | apps/flutter/lib/modules/notes/data/repositories/notes_repository_impl.dart:59-122 | on a device by itself, unlocks overlapping or not: the stored rows are the surviving notes, each opening under the key of its last write only, to its last text |
| VaultRuns.ListShowsLastWrites | apps/flutter/lib/modules/notes/data/repositories/notes_repository_impl.dart:22-122 | on a device by itself, unlocks overlapping or not: what is listed under key k is exactly the surviving notes last written under k, each once, with their last title and content, version and times, newest first |
| VaultRuns.EditOfListed | apps/flutter/lib/modules/notes/presentation/providers/notes_provider.dart:70-82 | an edit made with the version its note is listed at stores the next version in that row, and leaves the others |
| SyncedLists.RowsSayLastText | apps/flutter/lib/modules/notes/data/datasources/sync_service.dart:71-93 | in any run of the protocol a row has the texts of the last save, edit or Conflict that set them |
| SyncedLists.LastTextIsLocalIff | apps/flutter/lib/modules/notes/data/datasources/sync_service.dart:71-93 | that is the last save or edit iff no Conflict has been written into the row since |
| SyncedLists.SyncedListShows | apps/flutter/lib/modules/notes/data/repositories/notes_repository_impl.dart:22-55 | in any run of the protocol a listed note shows its last local text, written under this key, or what the server held in the Conflict written since, as far as it opens; rows last written under the key by their device are all listed, each once, newest first |
| AuthStore.FindByEmail | crates/store/src/pg/auth.rs:49-57 | finds an account with that email iff there is one |
| AuthStore.FindValid | crates/store/src/pg/auth.rs:80-91 | finds an unrevoked, unexpired token with that hash iff there is one |
| AuthStore.PgAuthStore.CreateUser | crates/store/src/pg/auth.rs:19-46 | succeeds iff the statement works and id and email are free |
| AuthStore.PgAuthStore.StoreRefreshToken | crates/store/src/pg/auth.rs:60-77 | succeeds iff the statement works and the id is free |
| AuthStore.PgAuthStore.RevokeRefreshToken | crates/store/src/pg/auth.rs:94-103 | revokes that token and changes nothing else |
| AuthStore.PgAuthStore.RevokeAllUserTokens | crates/store/src/pg/auth.rs:106-115 | revokes all tokens of that user and changes nothing else |
| AuthRoutes.AuthApi.Register | services/api/src/routes/auth.rs:16-53 | the handler's answer and tables are those of the registration step |
| AuthRoutes.AuthApi.Login | services/api/src/routes/auth.rs:56-93 | the handler's answer and tables are those of the login step |
| AuthRoutes.AuthApi.Refresh | services/api/src/routes/auth.rs:96-134 | the handler's answer and tables are those of the refresh step |
| AuthRoutes.RegisterAnswers | services/api/src/routes/auth.rs:16-53 | 409 iff the look-up finds the email, 201 iff id and email are free and all calls work, 500 otherwise; accounts stay unique and unchanged; the token of a new account, column by column |
| AuthRoutes.LoginAnswers | services/api/src/routes/auth.rs:56-93 | 200 iff the account with that email exists, the password passes and all calls work, 401 iff there is no such account or the password fails, 500 otherwise; the one token issued, column by column; otherwise nothing changes |
| AuthRoutes.RefreshAnswers | services/api/src/routes/auth.rs:96-134 | 401 iff the look-up works and no live token has that hash; 200 iff there is one and every call works; 500 otherwise |
| AuthRoutes.RefreshCosts | services/api/src/routes/auth.rs:119-134 | nothing changes before the revocation; from then on the presented token is dead, its successor, if stored, is its user's, and all other tokens stay |
| TokenRuns.AccountsStayUnique | services/api/src/routes/auth.rs:20-47 | over any run no two accounts share an id or an email, even when look-ups fail |
| TokenRuns.RunKeeps | services/api/src/routes/auth.rs:96-184 | over any run: every token belongs to a chain with a root grant of the same user, live tokens to different chains, spent raw tokens are revoked |
| TokenRuns.EachTokenIsRedeemedOnce | services/api/src/routes/auth.rs:119-129 | each raw token is redeemed at most once in any run, even where storing the successor fails |
| TokenRuns.RefreshAnswersFreshTokensOnly | services/api/src/routes/auth.rs:96-134 | a refresh answered with a token spends one that had never been spent |
| TokenRuns.TokensLastThirtyDays | services/api/src/routes/auth.rs:157-184 | a token that a registration, login or refresh was answered with is good for 2592000 seconds: whatever happens meanwhile, short of its revocation, a refresh with it whose calls work is answered with a new one until then, and with 401 from then on |
| TokenRuns.ChainsHaveOneLiveToken | services/api/src/routes/auth.rs:119-134 | two tokens of one chain have the same user and are not both live |
| TokenRuns.LiveTokensAreBounded | services/api/src/routes/auth.rs:96-184 | a user's live tokens never exceed the logins and registrations that were answered with a token |
| TokenRuns.InterleavedRefreshesFork | services/api/src/routes/auth.rs:102-129 | two requests that both look a token up before either revokes it are both answered with a token |
| RefreshSchedules.AloneIsRefreshed | services/api/src/routes/auth.rs:96-134 | the statements of one request in one go are the refresh step |
| RefreshSchedules.AnsweredIff | services/api/src/routes/auth.rs:102-134 | any number of requests with one token, statements in any order: a request is answered with a token iff its statements work and nobody had revoked when it looked |
| RefreshSchedules.BothAnsweredIff | services/api/src/routes/auth.rs:102-134 | of two such requests both are answered with a token iff each looks before the other revokes |

## Left out

- HTTP, JSON and base64: the decoded entry is modelled, with the session's user in place of the client's placeholder `user_id`, and without the server's demand for `format` and `tags`; a temporary id is any value of the id type, though the client sends a decimal clock reading.
- `upload_vault_entry` on the server: an attachment's reply is an input.
- Argon2id, AES-GCM, BLAKE3 and the signed access tokens with their middleware: function parameters, or a success flag.
- Isolation below the statement, connection pools, and Postgres and drift internals: tables are maps and sequences; a failing statement changes nothing.
- SyncedRows.SyncedRowWasHeldIff: up to 2^32 images of that id, since versions repeat after that (`VersionDeterminesImage`).
- LostReplies.LostRepliesMatterIff: fewer than 2^32 pending rows, working fetches for the note in question, working upserts for the row's own first and last sending, and no other device's push in between.
- VaultRuns.NotesState.Handle: the sync that each operation starts is not part of it; in `Protocol` it is a round that begins at any later time, and `SyncedLists` says what the list shows then. A save or edit is one step, though it encrypts before it writes. The version that an edit hands on is an input, since the list it is read from may be older than the row; `EditOfListed` says what an edit from the current list does.
- ServerHistory.VersionsRunConsecutively: `PgNyrexStore::update_note` writes versions unchecked and no route calls it, so it is a step in the tombstone and view laws only.
- VaultNotes.NotesRepository.GetAllDecryptedNotes: the library's sort is modelled as an ordering of the same elements; the order of equal timestamps is left open.
- TokenRuns.RunKeeps: `revoke_all_user_tokens` has no caller in the repository and is included as a step of its own.
- VaultSession.VaultAuthState.Unlock: the two ends of an unlock; what lies between them is `Unlocking`.
- Adding an attachment to a note that is deleted later: the local tables have no cascade, and the model has none either.
- Display names, timestamps of accounts, the search crate, and the user interface: no protocol behind them.
