/** The Response accessors of response.go. Reading the body goes through two
    library oracles, gzip.NewReader and ioutil.ReadAll, bundled as `Io`;
    json.Unmarshal is a parameter of BindJson. */
module Responses {
  import opened Wrappers
  import opened Strings
  import opened Http
  import opened Types
  import opened Requests

  /** What ioutil.ReadAll returns: the bytes read so far and the error, if any. */
  datatype ReadResult = ReadResult(data: seq<byte>, err: Option<Error>)

  /** The body-reading library calls: gzip.NewReader over a stream, and
      ioutil.ReadAll of a stream. */
  datatype Io = Io(gzipReader: Stream -> Result<Stream>, readAll: Stream -> ReadResult)

  function Err(r: Response): Option<Error>
  {
    r.err
  }

  /** `m` is what assigning `m[c.name] = c.value` for each cookie of `cs`, in
      order, leaves: its keys are exactly the names, and each maps to the value
      of the last cookie with that name. */
  ghost predicate LastWins(cs: seq<Cookie>, m: map<string, string>)
  {
    && (forall k :: k in m <==> exists i | 0 <= i < |cs| :: cs[i].name == k)
    && (forall k | k in m :: exists i | 0 <= i < |cs| ::
          cs[i].name == k && cs[i].value == m[k] && forall j | i < j < |cs| :: cs[j].name != k)
  }

  /** The map GetCookie's loop builds over `cs`. */
  function CookieMap(cs: seq<Cookie>): (m: map<string, string>)
    ensures LastWins(cs, m)
    decreases |cs|
  {
    if |cs| == 0 then map[]
    else
      var init, last := cs[..|cs| - 1], cs[|cs| - 1];
      assert cs == init + [last];
      var m0 := CookieMap(init);
      LastWinsStep(init, last, m0);
      m0[last.name := last.value]
  }

  /** One more assignment keeps LastWins: the new name maps to the new value,
      every other name keeps its last occurrence. */
  lemma LastWinsStep(init: seq<Cookie>, last: Cookie, m0: map<string, string>)
    requires LastWins(init, m0)
    ensures LastWins(init + [last], m0[last.name := last.value])
  {
    var cs, m := init + [last], m0[last.name := last.value];
    forall k ensures k in m <==> exists i | 0 <= i < |cs| :: cs[i].name == k {
      if k in m && k != last.name {
        var i :| 0 <= i < |init| && init[i].name == k;
        assert cs[i].name == k;
      }
      if k != last.name && exists i | 0 <= i < |cs| :: cs[i].name == k {
        var i :| 0 <= i < |cs| && cs[i].name == k;
        assert init[i].name == k;
      }
      if k == last.name {
        assert cs[|cs| - 1].name == k;
      }
    }
    forall k | k in m
      ensures exists i | 0 <= i < |cs| ::
        cs[i].name == k && cs[i].value == m[k] && forall j | i < j < |cs| :: cs[j].name != k
    {
      if k == last.name {
        assert cs[|cs| - 1].name == k && cs[|cs| - 1].value == m[k];
      } else {
        var i :| 0 <= i < |init| && init[i].name == k && init[i].value == m0[k]
                 && forall j | i < j < |init| :: init[j].name != k;
        assert cs[i].name == k && cs[i].value == m[k];
        assert forall j | i < j < |cs| :: cs[j].name != k by {
          forall j | i < j < |cs| ensures cs[j].name != k {
            if j < |init| {
              assert cs[j] == init[j];
            }
          }
        }
      }
    }
  }

  /** LastWins pins the map down: there is only one map a cookie list can yield. */
  lemma LastWinsIsUnique(cs: seq<Cookie>, m1: map<string, string>, m2: map<string, string>)
    requires LastWins(cs, m1) && LastWins(cs, m2)
    ensures m1 == m2
  {
    assert m1.Keys == m2.Keys by {
      forall k ensures k in m1 <==> k in m2 {
      }
    }
    forall k | k in m1
      ensures m1[k] == m2[k]
    {
      var i1 :| 0 <= i1 < |cs| && cs[i1].name == k && cs[i1].value == m1[k]
                && forall j | i1 < j < |cs| :: cs[j].name != k;
      var i2 :| 0 <= i2 < |cs| && cs[i2].name == k && cs[i2].value == m2[k]
                && forall j | i2 < j < |cs| :: cs[j].name != k;
      assert i1 == i2;
    }
  }

  /** The value of the last cookie named `name` in `cs`, or "" when none is:
      an independent reading of "a later duplicate wins". */
  function LastValue(cs: seq<Cookie>, name: string): string
    decreases |cs|
  {
    if |cs| == 0 then ""
    else if cs[|cs| - 1].name == name then cs[|cs| - 1].value
    else LastValue(cs[..|cs| - 1], name)
  }

  /** The loop's map gives every name present the value of its last cookie. */
  lemma {:induction false} CookieMapIsLastValue(cs: seq<Cookie>, k: string)
    requires k in CookieMap(cs)
    ensures CookieMap(cs)[k] == LastValue(cs, k)
    decreases |cs|
  {
    var init, last := cs[..|cs| - 1], cs[|cs| - 1];
    if k != last.name {
      CookieMapIsLastValue(init, k);
    }
  }

  /** Cookies of the response as a map: nil when there are none, otherwise
      every name present with its last value. response.go reads the header
      of the embedded response, which must exist. */
  function GetCookie(r: Response): (c: Option<map<string, string>>)
    requires r.raw.Some?
    ensures c.None? <==> |r.raw.value.cookies| == 0
    ensures c.Some? ==> LastWins(r.raw.value.cookies, c.value)
  {
    var cs := r.raw.value.cookies;
    if |cs| == 0 then None else Some(CookieMap(cs))
  }

  /** Headers flattened to one string each: nil when there are no header keys,
      otherwise every key present, its values joined with ";" after dropping
      the leading empty ones (the loop only adds a separator to a non-empty
      accumulator). response.go reads the embedded response, which must exist. */
  function GetHeader(r: Response): (h: Option<map<string, string>>)
    requires r.raw.Some?
    ensures h.None? <==> r.raw.value.header == map[]
    ensures h.Some? ==> h.value.Keys == r.raw.value.header.Keys
    ensures h.Some? ==> forall k | k in h.value ::
      h.value[k] == Join(DropLeadingEmpty(r.raw.value.header[k]), ";")
    ensures h.Some? ==> forall k | k in h.value ::
      h.value[k] == "" <==> forall i | 0 <= i < |r.raw.value.header[k]| :: r.raw.value.header[k][i] == ""
  {
    var hdr := r.raw.value.header;
    FoldFromEmptyIsJoinAll(";");
    forall k | k in hdr
      ensures Join(DropLeadingEmpty(hdr[k]), ";") == "" <==> forall i | 0 <= i < |hdr[k]| :: hdr[k][i] == ""
    {
      JoinDroppedIsEmptyIff(hdr[k], ";");
    }
    if hdr == map[] then None
    else Some(map k | k in hdr :: FoldFrom("", hdr[k], ";"))
  }

  /** The header value GetHeader builds from one key's values, on the examples
      where it differs from a plain join: leading empty values vanish, trailing
      ones do not. */
  lemma HeaderJoinExamples()
    ensures FoldFrom("", ["a", "b"], ";") == "a;b"
    ensures FoldFrom("", ["", "a"], ";") == "a"
    ensures FoldFrom("", ["a", ""], ";") == "a;"
    ensures Join(["", "a"], ";") == ";a"
  {
  }

  /** Bytes may be called when the carried error or the raw response is set;
      with neither, response.go dereferences a nil response. */
  predicate Readable(r: Response)
  {
    r.err.Some? || r.raw.Some?
  }

  /** Reads the body. With an error carried or no body it returns nil and
      changes nothing. Otherwise, when Content-Encoding is exactly "gzip", the
      body is read through a gzip reader, and a failure to create the reader
      is stored and yields nil; in every other case the body is read plainly.
      The read's error (nil on success) replaces the stored one, and the bytes
      read are returned even when it is set. Only the error ever changes. */
  function Bytes(r: Response, io: Io): (res: (Option<seq<byte>>, Response))
    requires Readable(r)
    ensures res.1 == r.(err := res.1.err)
    ensures r.err.Some? || r.raw.value.body.None? ==> res == (None, r)
    ensures r.err.None? && r.raw.value.body.Some? ==>
      var raw := r.raw.value;
      var body := raw.body.value;
      if Get(raw.header, ContentEncodingKey) == "gzip" then
        match io.gzipReader(body)
        case Fail(e) => res == (None, r.(err := Some(e)))
        case Ok(z) => res == (Some(io.readAll(z).data), r.(err := io.readAll(z).err))
      else
        res == (Some(io.readAll(body).data), r.(err := io.readAll(body).err))
  {
    if r.err.Some? || r.raw.value.body.None? then (None, r)
    else
      var raw := r.raw.value;
      var body := raw.body.value;
      if Get(raw.header, ContentEncodingKey) == "gzip" then
        match io.gzipReader(body)
        case Fail(e) => (None, r.(err := Some(e)))
        case Ok(z) =>
          var rd := io.readAll(z);
          (Some(rd.data), r.(err := rd.err))
      else
        var rd := io.readAll(body);
        (Some(rd.data), r.(err := rd.err))
  }

  /** Returning early reads nothing: the result is the same whatever the
      library calls would do. */
  lemma BytesEarlyReadsNothing(r: Response, io1: Io, io2: Io)
    requires r.err.Some? || (r.raw.Some? && r.raw.value.body.None?)
    ensures Bytes(r, io1) == Bytes(r, io2) == (None, r)
  {
  }

  /** Without Content-Encoding exactly "gzip" the gzip reader is never created:
      replacing it changes nothing. */
  lemma GzipOnlyWhenEncoded(r: Response, io: Io, gz: Stream -> Result<Stream>)
    requires Readable(r)
    requires r.raw.Some? ==> Get(r.raw.value.header, ContentEncodingKey) != "gzip"
    ensures Bytes(r, io) == Bytes(r, io.(gzipReader := gz))
  {
  }

  /** The stored error after Bytes is the last one written: whatever ReadAll
      reports on the path taken, or the gzip reader's error. */
  lemma BytesLastErrorWins(r: Response, io: Io)
    requires r.err.None? && r.raw.Some? && r.raw.value.body.Some?
    ensures var body := r.raw.value.body.value;
      Bytes(r, io).1.err ==
        if Get(r.raw.value.header, ContentEncodingKey) != "gzip" then io.readAll(body).err
        else if io.gzipReader(body).Fail? then Some(io.gzipReader(body).error)
        else io.readAll(io.gzipReader(body).value).err
  {
  }

  /** Once Bytes has stored an error, every later Bytes returns nil without
      reading. */
  lemma BytesFailureIsFinal(r: Response, io: Io, later: Io)
    requires Readable(r)
    ensures Bytes(r, io).1.err.Some? ==> Bytes(Bytes(r, io).1, later) == (None, Bytes(r, io).1)
  {
  }

  /** Reads the body with Bytes, then decodes it. When Bytes leaves an error
      that error is returned and the decoder is not consulted; otherwise the
      decoder's verdict on the bytes (nil read as empty) is returned. */
  function BindJson(r: Response, io: Io, unmarshal: seq<byte> -> Option<Error>)
    : (res: (Option<Error>, Response))
    requires Readable(r)
    ensures res.1 == Bytes(r, io).1
    ensures res.1.err.Some? ==> res.0 == res.1.err
    ensures res.1.err.None? ==> res.0 == unmarshal(Bytes(r, io).0.GetOr([]))
  {
    var (data, r1) := Bytes(r, io);
    if r1.err.Some? then (r1.err, r1)
    else (unmarshal(data.GetOr([])), r1)
  }

  /** A Response that already carries an error hands it back from BindJson
      whatever decoder is supplied. */
  lemma BindJsonNeverDecodesAfterError(r: Response, io: Io,
                                       u1: seq<byte> -> Option<Error>, u2: seq<byte> -> Option<Error>)
    requires r.err.Some?
    ensures BindJson(r, io, u1) == BindJson(r, io, u2) == (r.err, r)
  {
  }

  /** Copies the response's cookies into `req` with SetCookie, visiting them in
      `order` (the range order over GetCookie's map); with no cookies `req` is
      left as it was. Always returns nil. */
  function StoreCookie(r: Response, req: Request, order: seq<string>): (res: (Request, Option<Response>))
    requires r.raw.Some?
    requires GetCookie(r).Some? ==> Enumerates(order, GetCookie(r).value.Keys)
    ensures res.1 == None
    ensures GetCookie(r).None? ==> res.0 == req
    ensures GetCookie(r).Some? ==> res.0 == SetCookie(req, GetCookie(r).value, order)
    ensures res.0 == req.(header := res.0.header)
  {
    match GetCookie(r)
    case None => (req, None)
    case Some(c) => (SetCookie(req, c, order), None)
  }

  /** The `name=value` pair StoreCookie adds for each name of `order`, with
      the value of that name's last cookie. */
  function LastPairs(cs: seq<Cookie>, order: seq<string>): seq<string>
  {
    seq(|order|, i requires 0 <= i < |order| => CookieString(order[i], LastValue(cs, order[i])))
  }

  /** Storing a non-empty cookie list leaves the builder's Cookie header one
      line: the old non-empty line, then `name=value` for every name in range
      order, each with its last value, joined with "; ". Nothing else changes. */
  lemma StoreCookieJoinsLastValues(r: Response, req: Request, order: seq<string>)
    requires r.raw.Some? && |r.raw.value.cookies| > 0
    requires Enumerates(order, GetCookie(r).value.Keys)
    ensures var cs, c := r.raw.value.cookies, Get(req.header, CookieKey);
      StoreCookie(r, req, order).0 == req.(header := Set(req.header, CookieKey,
        Join((if c == "" then [] else [c]) + LastPairs(cs, order), "; ")))
  {
    var cs := r.raw.value.cookies;
    var m := GetCookie(r).value;
    assert cs[0].name in m;
    forall i | 0 <= i < |order|
      ensures CookieStrings(m, order)[i] == LastPairs(cs, order)[i]
    {
      assert order[i] in order;
      CookieMapIsLastValue(cs, order[i]);
    }
    assert CookieStrings(m, order) == LastPairs(cs, order);
  }
}
