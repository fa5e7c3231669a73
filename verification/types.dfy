/** The two records of package `requests`: the chainable Request builder and the
    Response wrapper. They live in one module because each file's operations
    mention both (`do` builds a Response, `StoreCookie` feeds a Request). */
module Types {
  import opened Wrappers
  import opened Http

  /** The HTTP methods the terminal verbs install. */
  datatype Verb = GET | POST | PUT | PATCH | DELETE | HEAD | OPTIONS

  /** A parsed URL: everything but the query, and the query as a multimap
      (what URL.Query() decodes RawQuery to). */
  datatype Url = Url(location: string, query: MultiMap)

  /** The reader installed as the request body. */
  datatype Body = TextReader(text: string) | BytesReader(bytes: seq<byte>)

  /** The transport installed by SetProxy; only its proxy URL is recorded. */
  datatype Transport = Transport(proxy: Url)

  /** The builder: the embedded *http.Request's method, URL, header and body,
      the client's transport, and the error slot. */
  datatype Request = Request(
    verb: Verb,
    url: Option<Url>,
    header: MultiMap,
    body: Option<Body>,
    transport: Option<Transport>,
    err: Option<Error>)

  /** The wrapper: the raw response (nil when the call never reached the
      transport or the transport failed) and the carried error. */
  datatype Response = Response(raw: Option<RawResponse>, err: Option<Error>)

  /** The value handed to SetPayload, tagged by its dynamic Go type. For any
      other value, `marshalled` is what json.Marshal returns for it. */
  datatype Payload =
    | Text(text: string)
    | Raw(bytes: seq<byte>)
    | Form(fields: map<string, string>)
    | Structured(marshalled: Result<seq<byte>>)
}
