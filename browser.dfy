/** What the client components share of the browser: the stored profile's key and the outcome of a `fetch`. */
module Browser {
  /** The `localStorage` key under which the signed-in profile is kept. */
  const ProfileKey := "hh_user"

  /** What `fetch` gave: it threw (the server was unreachable), or a reply with its `ok` flag. */
  datatype FetchOutcome = Unreachable | Responded(ok: bool)
}
