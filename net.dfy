/** What the ingestion code sees of the network: one `fetch` per URL, answered by a response
    whose body is read either as text or as JSON. */
module Net {
  import opened Types

  /** A JSON scalar as `===` compares it; `Missing` is a property that is not there (`undefined`). */
  datatype Scalar = Num(n: int) | Str(s: string) | Null | Missing

  /** An element of a decoded JSON array, reduced to the properties the Xtream mapping reads. */
  datatype Item = Item(
    categoryId: Scalar,              // category_id
    categoryName: Option<string>,    // category_name
    streamId: Scalar,                // stream_id
    name: string,                    // name
    icon: Option<string>,            // stream_icon
    extension: Option<string>,       // container_extension
    epgId: Option<string>)           // epg_channel_id

  /** What `response.json()` resolves to, or the message it rejects with. */
  datatype Json = Records(items: seq<Item>) | NotAnArray | Unparsable(message: string)

  /** A `fetch` that rejects (network failure, refused URL) or resolves to a response. */
  datatype Response = Refused(message: string) | Reply(ok: bool, status: int, text: string, json: Json)

  /** The URLs requested, in order, and what the call resolved to or threw. */
  datatype Outcome<+T> = Outcome(requests: seq<string>, result: Result<T>)
}
