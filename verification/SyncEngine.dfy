// The version compare-and-bump decision of crates/sync.
module SyncEngine {
  import opened Int32
  import opened Models
  import opened Wrappers

  datatype SyncResult<+T> =
    | Success(note: T)
    | Conflict(serverVersion: T)
    | Error(message: string)

  function ReconcileNote(clientNote: Note, serverNote: Option<Note>): SyncResult<Note> {
    match serverNote
    case None => Success(clientNote)
    case Some(server) =>
      if clientNote.version == server.version then
        Success(clientNote.(version := Bump(clientNote.version)))
      else
        Conflict(server)
  }
}
