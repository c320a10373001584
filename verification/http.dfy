/** The request and response data the decision components read from the
    transport layer, reduced to plain values. */
module Http {
  import opened Wrappers
  import opened Text

  /** A header value. `to_str()` succeeds only for visible ASCII text (`Visible`); `Opaque`
      stands for any value it rejects. */
  datatype HeaderValue = Visible(text: string) | Opaque

  /** Request headers keyed by lower-case name, holding the first value sent under
      that name (what `headers.get(name)` returns). */
  type Headers = map<string, HeaderValue>

  /** Response headers after `insert_header`, which replaces every earlier value of
      the same (case-insensitive) name; keyed by lower-case name. */
  type ResponseHeaders = map<string, string>

  /** `headers.get(name).and_then(|h| h.to_str().ok())`. */
  function HeaderText(h: Headers, name: string): (r: Option<string>)
    ensures r.Some? <==> name in h && h[name].Visible?
    ensures r.Some? ==> h[name] == Visible(r.value)
  {
    if name in h && h[name].Visible? then Some(h[name].text) else None
  }

  /** `headers.get(name).is_some_and(|v| v == text)`: a byte-wise comparison. */
  predicate HeaderIs(h: Headers, name: string, text: string) {
    name in h && h[name] == Visible(text)
  }

  /** A response the proxy writes itself instead of forwarding: status, headers and
      body. */
  datatype Reply = Reply(status: nat, headers: ResponseHeaders, body: string)

  /** The request descriptor: method, URI scheme and authority (HTTP/2 `:authority`),
      path, query, headers, and the client socket address as `SocketAddr::to_string`
      prints it (`a.b.c.d:port` or `[v6]:port`). */
  datatype Request = Request(
    httpMethod: string,
    scheme: Option<string>,
    authority: Option<string>,
    path: string,
    query: Option<string>,
    headers: Headers,
    clientAddr: Option<string>)

  /** `host.split(':').next()`: the host with everything from the first `:` on
      removed. */
  function HostWithoutPort(host: string): (h: string)
    ensures StartsWith(host, h) && ':' !in h
    ensures ':' !in host ==> h == host
  {
    PrefixBeforeWhole(host, ':');
    PrefixBefore(host, ':')
  }

  /** The host the proxy routes on: the URI authority, else the `host` header when it
      is text, else `"unknown"`. */
  function HostOf(req: Request): (host: string)
    ensures req.authority.Some? ==> host == req.authority.value
    ensures req.authority.None? && HeaderText(req.headers, "host").Some? ==>
              host == HeaderText(req.headers, "host").value
    ensures req.authority.None? && HeaderText(req.headers, "host").None? ==> host == "unknown"
  {
    match req.authority
    case Some(a) => a
    case None => HeaderText(req.headers, "host").GetOr("unknown")
  }
}
