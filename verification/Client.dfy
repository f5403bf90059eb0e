/**
 * The requests a command starts against the catalog API. The API itself is
 * not modelled: each request's outcome is an input of the command that makes it.
 */
module Client {
  import opened Discord

  datatype Param = Param(name: string, value: string)

  /** A request a command starts; LoadGenres is a call of the genre cache (Genres.Cache.Genres). */
  datatype Call = Get(path: string, params: seq<Param>) | Put(path: string) | LoadGenres

  /** What one command invocation does: the requests it starts, in order, and its reply. */
  datatype Execution = Execution(calls: seq<Call>, reply: Reply)
}
