// The `music_orders` row as the client sees it, and the payload the edit
// form writes back to it.
module Orders {
  import opened Wrappers

  type OrderId = string
  type UserId = string

  /** One row of `music_orders`. `createdAt` is the server's creation
      timestamp, kept only for its order; `updatedAt` is the text the client
      last wrote. A `lyricsContent` of `None` is the column's `null`. */
  datatype OrderRow = OrderRow(
    id: OrderId,
    userId: UserId,
    theme: string,
    status: string,
    createdAt: int,
    updatedAt: string,
    instruments: seq<string>,
    genres: seq<string>,
    hasLyrics: bool,
    lyricsContent: Option<string>,
    additionalNotes: string)

  /** The object the edit form passes to `update(...)`. */
  datatype UpdatePayload = UpdatePayload(
    theme: string,
    instruments: seq<string>,
    genres: seq<string>,
    hasLyrics: bool,
    lyricsContent: Option<string>,
    additionalNotes: string,
    updatedAt: string)

  /** The update request `update(payload).eq('id', id)`. */
  datatype UpdateRequest = UpdateRequest(id: OrderId, payload: UpdatePayload)

  /** The row after the store has written `p` to it: the payload's columns
      are replaced, identity, owner, status and creation time are kept. */
  function ApplyUpdate(row: OrderRow, p: UpdatePayload): (r: OrderRow)
    ensures r.id == row.id && r.userId == row.userId && r.status == row.status
    ensures r.createdAt == row.createdAt
  {
    row.(theme := p.theme, instruments := p.instruments, genres := p.genres,
         hasLyrics := p.hasLyrics, lyricsContent := p.lyricsContent,
         additionalNotes := p.additionalNotes, updatedAt := p.updatedAt)
  }
}
