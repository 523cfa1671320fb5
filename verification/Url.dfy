// A URL as its parser leaves it; query names and values are decoded.
module Urls {
  import opened Basics

  /** A name and its value. */
  type Pair = (string, string)

  datatype Url = Url(
    scheme: string,
    host: Option<string>,
    port: Option<nat>,
    path: string,
    query: seq<Pair>)
  {
    /** The host, or nothing when there is none. */
    function Host(): string {
      if host.None? then "" else host.value
    }
  }
}
