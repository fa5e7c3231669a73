/** The Request builder of request.go as pure step functions: each chainable
    setter maps a builder to the builder it leaves behind, and each terminal
    verb returns the builder together with the Response it produced. Library
    results (url.Parse, json.Marshal, url.Values.Encode, http.Client.Do) are
    parameters. */
module Requests {
  import opened Wrappers
  import opened Strings
  import opened Http
  import opened Types

  const JsonContentType := "application/json"
  const FormContentType := "application/x-www-form-urlencoded"

  /** A fresh builder: http.NewRequest("GET", "", nil) never fails, so the
      builder holds the empty URL, an empty header, no body and no error. */
  function NewRequest(): (r: Request)
    ensures r.err == None
    ensures r.verb == GET && r.body == None && r.transport == None
    ensures r.header == map[] && r.url == Some(Url("", map[]))
  {
    Request(GET, Some(Url("", map[])), map[], None, None, None)
  }

  function Err(r: Request): Option<Error>
  {
    r.err
  }

  /** Removes the Cookie header and nothing else. */
  function DelCookie(r: Request): (r': Request)
    ensures r' == r.(header := r'.header)
    ensures CookieKey !in r'.header
    ensures AgreeExcept(r.header, r'.header, CookieKey)
  {
    r.(header := Del(r.header, CookieKey))
  }

  /** http.Request.AddCookie: all cookies share one Cookie line, new pairs
      joined to a non-empty line with "; " */
  function AddCookie(h: MultiMap, name: string, value: string): MultiMap
  {
    var s := CookieString(name, value);
    var c := Get(h, CookieKey);
    if c != "" then Set(h, CookieKey, c + "; " + s) else Set(h, CookieKey, s)
  }

  /** The `name=value` strings of the entries of `m`, in the order `order` visits them. */
  function CookieStrings(m: map<string, string>, order: seq<string>): (ss: seq<string>)
    requires forall i | 0 <= i < |order| :: order[i] in m
    ensures |ss| == |order|
    ensures forall i | 0 <= i < |ss| :: ss[i] == CookieString(order[i], m[order[i]])
    decreases |order|
  {
    if |order| == 0 then []
    else [CookieString(order[0], m[order[0]])] + CookieStrings(m, order[1..])
  }

  /** AddCookie for each entry of `m` in turn: the Cookie line is the loop of
      Strings.FoldFrom started from the current line. */
  function AddCookies(h: MultiMap, m: map<string, string>, order: seq<string>): (h': MultiMap)
    requires forall i | 0 <= i < |order| :: order[i] in m
    ensures |order| == 0 ==> h' == h
    ensures |order| > 0 ==>
      h' == Set(h, CookieKey, FoldFrom(Get(h, CookieKey), CookieStrings(m, order), "; "))
    decreases |order|
  {
    if |order| == 0 then h
    else
      var h1 := AddCookie(h, order[0], m[order[0]]);
      assert CookieStrings(m, order)[1..] == CookieStrings(m, order[1..]);
      AddCookies(h1, m, order[1..])
  }

  /** Adds every cookie of `m`. With at least one cookie, the Cookie header
      becomes the single line joining the old non-empty line (if any) and the
      new `name=value` pairs, in range order, with "; "; nothing else changes. */
  function SetCookie(r: Request, m: map<string, string>, order: seq<string>): (r': Request)
    requires Enumerates(order, m.Keys)
    ensures r' == r.(header := r'.header)
    ensures m == map[] ==> r' == r
    ensures m != map[] ==>
      var c := Get(r.header, CookieKey);
      r'.header == Set(r.header, CookieKey,
        Join((if c == "" then [] else [c]) + CookieStrings(m, order), "; "))
  {
    NonEmptyMapHasOrder(m, order);
    if m != map[] then
      FoldNonEmptyIsJoin(Get(r.header, CookieKey), CookieStrings(m, order), "; ");
      r.(header := AddCookies(r.header, m, order))
    else
      r.(header := AddCookies(r.header, m, order))
  }

  /** A range over a non-empty map visits at least one key. */
  lemma NonEmptyMapHasOrder(m: map<string, string>, order: seq<string>)
    requires Enumerates(order, m.Keys)
    ensures m == map[] <==> |order| == 0
  {
    if m != map[] {
      var k :| k in m;
      assert k in order;
    }
    if |order| > 0 {
      assert order[0] in order;
    }
  }

  /** Sets User-Agent to exactly `userAgent` and leaves every other header. */
  function SetUserAgent(r: Request, userAgent: string): (r': Request)
    ensures r' == r.(header := r'.header)
    ensures UserAgentKey in r'.header && r'.header[UserAgentKey] == [userAgent]
    ensures AgreeExcept(r.header, r'.header, UserAgentKey)
  {
    r.(header := Set(r.header, UserAgentKey, userAgent))
  }

  /** Header.Set for every entry of `m`: named headers hold exactly the given
      value, all others are untouched, whatever order the range takes. */
  function SetHeader(r: Request, m: map<string, string>, order: seq<string>): (r': Request)
    requires Enumerates(order, m.Keys)
    ensures r' == r.(header := r.header + Singletons(m))
  {
    r.(header := SetAll(r.header, m, order))
  }

  /** A proxy address that fails to parse is recorded in the error slot and
      the transport is left alone. A valid one installs a transport; request.go
      dereferences a nil transport when one is already installed, hence the
      precondition. */
  function SetProxy(r: Request, parsed: Result<Url>): (r': Request)
    requires parsed.Fail? || r.transport.None?
    ensures parsed.Fail? ==> r' == r.(err := Some(parsed.error))
    ensures parsed.Ok? ==> r' == r.(transport := Some(Transport(parsed.value)))
  {
    match parsed
    case Fail(e) => r.(err := Some(e))
    case Ok(u) => r.(transport := Some(Transport(u)))
  }

  /** url.Parse's result replaces URL and error together: a failure leaves no
      URL at all, a success clears whatever error was recorded before. */
  function SetUrl(r: Request, parsed: Result<Url>): (r': Request)
    ensures r' == r.(url := r'.url, err := r'.err)
    ensures parsed.Ok? ==> r'.url == Some(parsed.value) && r'.err == None
    ensures parsed.Fail? ==> r'.url == None && r'.err == Some(parsed.error)
  {
    match parsed
    case Ok(u) => r.(url := Some(u), err := None)
    case Fail(e) => r.(url := None, err := Some(e))
  }

  /** Appends each entry of `m` to the URL's query; values already present
      under any key stay, in front. request.go dereferences the URL, which
      must therefore be set. */
  function SetParam(r: Request, m: map<string, string>, order: seq<string>): (r': Request)
    requires r.url.Some?
    requires Enumerates(order, m.Keys)
    ensures r' == r.(url := r'.url)
    ensures r'.url == Some(r.url.value.(query := Appended(r.url.value.query, m)))
    ensures forall k | k in r.url.value.query ::
      k in r'.url.value.query && r.url.value.query[k] <= r'.url.value.query[k]
  {
    var u := r.url.value;
    r.(url := Some(u.(query := AddAll(u.query, m, order))))
  }

  /** The body a payload encodes to, or the marshalling error. */
  function Encode(p: Payload, encodeForm: MultiMap -> string): Result<Body>
  {
    match p
    case Text(s) => Ok(TextReader(s))
    case Raw(b) => Ok(BytesReader(b))
    case Form(fields) => Ok(TextReader(encodeForm(Singletons(fields))))
    case Structured(Ok(b)) => Ok(BytesReader(b))
    case Structured(Fail(e)) => Fail(e)
  }

  /** Installs the payload's body and clears the error slot; when json.Marshal
      fails, records its error and keeps the previous body. Nothing else
      changes. */
  function SetPayload(r: Request, p: Payload, encodeForm: MultiMap -> string): (r': Request)
    ensures r' == r.(body := r'.body, err := r'.err)
    ensures !p.Structured? || p.marshalled.Ok? ==> r'.err == None && r'.body.Some?
    ensures p.Text? ==> r'.body == Some(TextReader(p.text))
    ensures p.Raw? ==> r'.body == Some(BytesReader(p.bytes))
    ensures p.Form? ==> r'.body == Some(TextReader(encodeForm(Singletons(p.fields))))
    ensures p.Structured? && p.marshalled.Ok? ==> r'.body == Some(BytesReader(p.marshalled.value))
    ensures p.Structured? && p.marshalled.Fail? ==> r' == r.(err := Some(p.marshalled.error))
  {
    match Encode(p, encodeForm)
    case Ok(b) => r.(body := Some(b), err := None)
    case Fail(e) => r.(err := Some(e))
  }

  /** `do`: a recorded error is returned at once in a Response without a raw
      response, and `send` (http.Client.Do) is not consulted. Otherwise the
      transport's error is copied into the builder, so builder and Response
      always end up carrying the same error. */
  function Do(r: Request, send: Request -> Exchange): (res: (Request, Response))
    ensures res.0.err == res.1.err
    ensures r.err.Some? ==> res == (r, Response(None, r.err))
    ensures r.err.None? ==> res.0 == r.(err := send(r).err) && res.1.raw == send(r).resp
  {
    if r.err.Some? then (r, Response(None, r.err))
    else
      var x := send(r);
      (r.(err := x.err), Response(x.resp, x.err))
  }

  /** The request a terminal verb hands to `do`: the method is fixed, and
      Post alone empties the query (there is nothing to empty without a URL). */
  function Prepare(r: Request, v: Verb): Request
  {
    var r1 := r.(verb := v);
    if v == POST && r1.url.Some? then r1.(url := Some(r1.url.value.(query := map[]))) else r1
  }

  /** Get, Post, Put, Patch, Delete, Head and Options with Post corrected:
      each fixes the method; only Post clears the query; the header and body
      are kept; then `do` runs, so a recorded error is returned without
      reaching the transport, and otherwise the transport's answer is the
      Response. */
  function Execute(r: Request, v: Verb, send: Request -> Exchange): (res: (Request, Response))
    ensures res.0.verb == v
    ensures res.0.header == r.header && res.0.body == r.body && res.0.transport == r.transport
    ensures v != POST ==> res.0.url == r.url
    ensures v == POST ==> res.0.url.Some? == r.url.Some?
    ensures v == POST && r.url.Some? ==> res.0.url == Some(r.url.value.(query := map[]))
    ensures res.0.err == res.1.err
    ensures r.err.Some? ==> res.1 == Response(None, r.err)
    ensures r.err.None? ==> res.1 == Response(send(Prepare(r, v)).resp, send(Prepare(r, v)).err)
  {
    Do(Prepare(r, v), send)
  }

  /** Post exactly as request.go writes it: `r.URL.RawQuery = ""` runs before
      `do` looks at the error slot, so a builder without a URL panics. */
  function PostAsWritten(r: Request, send: Request -> Exchange): (o: Outcome<(Request, Response)>)
    ensures o.Panicked? <==> r.url.None?
    ensures o.Returned? ==> o.value == Execute(r, POST, send)
  {
    if r.url.None? then Panicked
    else Returned(Do(r.(verb := POST, url := Some(r.url.value.(query := map[]))), send))
  }

  /** The seven terminal verbs as request.go writes them: Post panics on a
      builder without a URL, every other verb (and Post on a builder with
      one) behaves as Execute. */
  function Invoke(r: Request, v: Verb, send: Request -> Exchange): (o: Outcome<(Request, Response)>)
    ensures o.Panicked? <==> v == POST && r.url.None?
    ensures o.Returned? ==> o.value == Execute(r, v, send)
  {
    if v == POST then PostAsWritten(r, send) else Returned(Execute(r, v, send))
  }

  /** The builder PostJson and PostForm hand to Post: Content-Type set, then
      the payload installed. */
  function WithPayload(r: Request, contentType: string, p: Payload, encodeForm: MultiMap -> string): Request
  {
    SetPayload(r.(header := Set(r.header, ContentTypeKey, contentType)), p, encodeForm)
  }

  /** PostJson with Post corrected. Content-Type becomes JSON and the payload
      is installed; every other header, the transport and the URL are kept,
      except that the query is cleared. A payload that fails to marshal is
      returned as the Response's error without reaching the transport; any
      other payload clears an earlier error and the transport's answer is the
      Response. */
  function PostJsonCorrected(r: Request, p: Payload, encodeForm: MultiMap -> string,
                             send: Request -> Exchange): (res: (Request, Response))
    ensures res.0.verb == POST
    ensures Get(res.0.header, ContentTypeKey) == JsonContentType
    ensures res.0.header == Set(r.header, ContentTypeKey, JsonContentType)
    ensures res.0.transport == r.transport
    ensures res.0.url == (if r.url.Some? then Some(r.url.value.(query := map[])) else None)
    ensures res.0.err == res.1.err
    ensures p.Structured? && p.marshalled.Fail? ==>
      res.1 == Response(None, Some(p.marshalled.error)) && res.0.body == r.body
    ensures !p.Structured? || p.marshalled.Ok? ==>
      && Encode(p, encodeForm).Ok? && res.0.body == Some(Encode(p, encodeForm).value)
      && res.1 == Response(send(res.0.(err := None)).resp, send(res.0.(err := None)).err)
  {
    Execute(WithPayload(r, JsonContentType, p, encodeForm), POST, send)
  }

  /** PostJson as request.go writes it: the payload setter leaves the URL
      alone, so Post panics exactly when the builder has no URL. */
  function PostJson(r: Request, p: Payload, encodeForm: MultiMap -> string, send: Request -> Exchange)
    : (o: Outcome<(Request, Response)>)
    ensures o.Panicked? <==> r.url.None?
    ensures o.Returned? ==> o.value == PostJsonCorrected(r, p, encodeForm, send)
  {
    PostAsWritten(WithPayload(r, JsonContentType, p, encodeForm), send)
  }

  /** PostForm with Post corrected. Content-Type becomes form encoding and
      the encoded form is installed; every other header, the transport and
      the URL are kept, except that the query is cleared. Form encoding
      cannot fail, so the error slot is cleared and the transport is always
      consulted. */
  function PostFormCorrected(r: Request, form: map<string, string>, encodeForm: MultiMap -> string,
                             send: Request -> Exchange): (res: (Request, Response))
    ensures res.0.verb == POST
    ensures Get(res.0.header, ContentTypeKey) == FormContentType
    ensures res.0.header == Set(r.header, ContentTypeKey, FormContentType)
    ensures res.0.transport == r.transport
    ensures res.0.url == (if r.url.Some? then Some(r.url.value.(query := map[])) else None)
    ensures res.0.body == Some(TextReader(encodeForm(Singletons(form))))
    ensures res.0.err == res.1.err
    ensures res.1 == Response(send(res.0.(err := None)).resp, send(res.0.(err := None)).err)
  {
    Execute(WithPayload(r, FormContentType, Form(form), encodeForm), POST, send)
  }

  /** PostForm as request.go writes it: Post panics exactly when the builder
      has no URL. */
  function PostForm(r: Request, form: map<string, string>, encodeForm: MultiMap -> string,
                    send: Request -> Exchange): (o: Outcome<(Request, Response)>)
    ensures o.Panicked? <==> r.url.None?
    ensures o.Returned? ==> o.value == PostFormCorrected(r, form, encodeForm, send)
  {
    PostAsWritten(WithPayload(r, FormContentType, Form(form), encodeForm), send)
  }

  /** A builder holding an error returns the same Response whatever the
      transport would do: the transport is never called. */
  lemma BlockedDoIgnoresTransport(r: Request, send1: Request -> Exchange, send2: Request -> Exchange)
    requires r.err.Some?
    ensures Do(r, send1) == Do(r, send2)
    ensures Do(r, send1).1.raw == None
  {
  }

  /** A transport failure sticks: the builder `do` leaves behind answers every
      later terminal verb with that error, without calling any transport;
      only Post on a builder without a URL panics instead. */
  lemma TransportFailureIsSticky(r: Request, send: Request -> Exchange, e: Error,
                                 v: Verb, later: Request -> Exchange)
    requires r.err.None? && send(r).err == Some(e)
    ensures Invoke(Do(r, send).0, v, later).Panicked? <==> v == POST && r.url.None?
    ensures Invoke(Do(r, send).0, v, later).Returned? ==>
      Invoke(Do(r, send).0, v, later).value.1 == Response(None, Some(e))
  {
  }

  /** A blocked builder is reopened by a successful SetUrl or a successful
      SetPayload: the next terminal verb reaches the transport again. A
      payload leaves a missing URL missing, so Post then panics. */
  lemma SettersReopen(r: Request, u: Url, p: Payload, encodeForm: MultiMap -> string,
                      v: Verb, send: Request -> Exchange)
    requires !p.Structured? || p.marshalled.Ok?
    ensures var b := SetUrl(r, Ok(u));
      && Invoke(b, v, send).Returned?
      && Invoke(b, v, send).value.1 == Response(send(Prepare(b, v)).resp, send(Prepare(b, v)).err)
    ensures var b := SetPayload(r, p, encodeForm);
      && (Invoke(b, v, send).Panicked? <==> v == POST && r.url.None?)
      && (Invoke(b, v, send).Returned? ==>
            Invoke(b, v, send).value.1 == Response(send(Prepare(b, v)).resp, send(Prepare(b, v)).err))
  {
  }

  /** A proxy address that fails to parse blocks the builder: every terminal
      verb returns the parse error whatever the transport (Post without a URL
      panics), until a successful SetUrl or SetPayload reopens it. */
  lemma ProxyFailureBlocks(r: Request, e: Error, v: Verb, send: Request -> Exchange,
                           other: Request -> Exchange, u: Url, p: Payload, encodeForm: MultiMap -> string)
    requires !p.Structured? || p.marshalled.Ok?
    ensures var b := SetProxy(r, Fail(e));
      && (Invoke(b, v, send).Panicked? <==> v == POST && r.url.None?)
      && Invoke(b, v, send) == Invoke(b, v, other)
      && (Invoke(b, v, send).Returned? ==> Invoke(b, v, send).value.1 == Response(None, Some(e)))
    ensures var b := SetUrl(SetProxy(r, Fail(e)), Ok(u));
      Invoke(b, v, send).Returned? && Invoke(b, v, send).value.1.err == send(Prepare(b, v)).err
    ensures var b := SetPayload(SetProxy(r, Fail(e)), p, encodeForm);
      Invoke(b, v, send).Returned? ==> Invoke(b, v, send).value.1.err == send(Prepare(b, v)).err
  {
  }

  /** PostJson and PostForm clear an error recorded by an earlier setter (a
      failed SetProxy, say): where Post returns that error without calling
      the transport, they reach it, provided the builder has a URL. */
  lemma PostsMaskEarlierError(r: Request, e: Error, p: Payload, form: map<string, string>,
                              encodeForm: MultiMap -> string, send: Request -> Exchange)
    requires r.url.Some? && r.err == Some(e)
    requires !p.Structured? || p.marshalled.Ok?
    ensures Invoke(r, POST, send).Returned? && Invoke(r, POST, send).value.1 == Response(None, Some(e))
    ensures var o := PostJson(r, p, encodeForm, send);
      && o.Returned?
      && o.value.1 == Response(send(o.value.0.(err := None)).resp, send(o.value.0.(err := None)).err)
    ensures var o := PostForm(r, form, encodeForm, send);
      && o.Returned?
      && o.value.1 == Response(send(o.value.0.(err := None)).resp, send(o.value.0.(err := None)).err)
  {
  }

  /** SetUrl's effect on URL and error does not depend on what the builder held:
      it neither keeps the old URL on failure nor the old error on success. */
  lemma SetUrlForgetsHistory(r1: Request, r2: Request, parsed: Result<Url>)
    ensures SetUrl(r1, parsed).url == SetUrl(r2, parsed).url
    ensures SetUrl(r1, parsed).err == SetUrl(r2, parsed).err
  {
  }

  /** The last successful payload wins: it replaces the body installed by any
      earlier SetPayload, and the earlier call leaves no trace. */
  lemma LastPayloadWins(r: Request, p1: Payload, p2: Payload, encodeForm: MultiMap -> string)
    requires !p2.Structured? || p2.marshalled.Ok?
    ensures SetPayload(SetPayload(r, p1, encodeForm), p2, encodeForm) == SetPayload(r, p2, encodeForm)
  {
  }

  /** Every Response `do` builds can be read by Bytes when the transport keeps
      http.Client.Do's promise: it carries an error or a raw response. */
  lemma DoResponseReadable(r: Request, send: Request -> Exchange)
    requires forall q :: Honest(send(q))
    ensures Do(r, send).1.err.Some? || Do(r, send).1.raw.Some?
  {
    if r.err.None? {
      assert Honest(send(r));
    }
  }
}
