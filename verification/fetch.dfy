/**
 * What a `fetch` call can come back with, as seen by the client code. `fetch`
 * rejects only on a network failure; an HTTP error status is a response with
 * `ok == false`. `json` is the parsed response body when it parses as a note.
 */
module Fetch {
  import opened Wrappers
  import opened Records

  datatype FetchOutcome =
    | NetworkError
    | Responded(ok: bool, json: Option<Note>)
}
