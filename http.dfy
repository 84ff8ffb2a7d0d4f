/**
 * The slice of `net/http` and `net/url` the resolution core touches: a parsed
 * address, an outgoing request and the reply a remote service gives to it.
 * Transport itself is not modelled; replies are data handed to the model.
 */
module Http {
  import opened Wrappers

  /** A parsed `*url.URL`, reduced to what the core reads: its scheme and `String()`. */
  datatype Url = Url(scheme: string, text: string)

  type Header = (string, string)

  /** An outgoing request; `B` is the payload (GitHub sends none, Meilisearch a search record). */
  datatype Request<B> = Request(verb: string, url: string, header: seq<Header>, body: B)

  /**
   * What a remote service gives back for one request: a transport failure
   * (including a failed body read), or a status code, its status line and the body.
   */
  datatype Reply<D> = TransportError(text: string) | Response(statusCode: int, status: string, body: D)

  /** The value of the first header called `name`, as `http.Header.Get` reads it. */
  function Lookup(h: seq<Header>, name: string): (v: Option<string>)
    ensures v.None? <==> forall k :: 0 <= k < |h| ==> h[k].0 != name
    ensures v.Some? ==> exists k :: 0 <= k < |h| && h[k] == (name, v.value)
  {
    if h == [] then None
    else if h[0].0 == name then Some(h[0].1)
    else Lookup(h[1..], name)
  }
}
