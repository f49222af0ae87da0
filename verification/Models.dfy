// Rows shared by the server and the clients.
module Models {
  import opened Int32
  import opened Wrappers

  newtype byte = x: int | 0 <= x < 256

  type Bytes = seq<byte>
  type Uuid = int
  type Time = int

  /** A row of the server's `notes` table, and one entry of a pushed batch. */
  datatype Note = Note(
    id: Uuid,
    userId: Uuid,
    titleCipher: Bytes,
    contentCipher: Bytes,
    nonce: Bytes,
    version: I32,
    format: string,
    tags: seq<string>,
    createdAt: Time,
    updatedAt: Time,
    deletedAt: Option<Time>)

  /** What a note says at one version: the columns that synchronisation carries. */
  datatype Image = Image(title: Bytes, content: Bytes, nonce: Bytes, version: int)

  function ImageOf(n: Note): Image {
    Image(n.titleCipher, n.contentCipher, n.nonce, n.version)
  }
}
