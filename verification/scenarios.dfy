/** Whole call chains a client of the package writes, stated over the model:
    builder, terminal verb, then Response accessors. */
module Scenarios {
  import opened Wrappers
  import opened Http
  import opened Types
  import opened Requests
  import opened Responses

  /** A new builder carries no error, and neither does it after a URL that parses. */
  lemma FreshRequestHasNoError(u: Url)
    ensures Requests.Err(NewRequest()) == None
    ensures Requests.Err(SetUrl(NewRequest(), Ok(u))) == None
  {
  }

  /** A URL that fails to parse, followed by Get: the Response carries the
      parse error, has no raw response, Bytes returns nil, and the transport
      plays no part. */
  lemma InvalidUrlThenGet(e: Error, send: Request -> Exchange, other: Request -> Exchange, io: Io)
    ensures var resp := Execute(SetUrl(NewRequest(), Fail(e)), GET, send).1;
      && Responses.Err(resp) == Some(e)
      && resp.raw == None
      && Bytes(resp, io).0 == None
      && resp == Execute(SetUrl(NewRequest(), Fail(e)), GET, other).1
  {
  }

  /** Post after a failed SetUrl: request.go panics on the missing URL, the
      corrected verb returns the parse error without calling the transport. */
  lemma PostAfterInvalidUrl(r: Request, e: Error, send: Request -> Exchange)
    ensures PostAsWritten(SetUrl(r, Fail(e)), send).Panicked?
    ensures Execute(SetUrl(r, Fail(e)), POST, send).1 == Response(None, Some(e))
  {
  }

  /** PostForm after a failed SetUrl: as written it panics on the missing URL;
      with Post corrected, the form payload clears the parse error and the
      request reaches the transport without any URL. */
  lemma PostFormAfterInvalidUrl(r: Request, e: Error, form: map<string, string>,
                                encodeForm: MultiMap -> string, send: Request -> Exchange)
    ensures PostForm(SetUrl(r, Fail(e)), form, encodeForm, send).Panicked?
    ensures var res := PostFormCorrected(SetUrl(r, Fail(e)), form, encodeForm, send);
      && res.0.url == None
      && res.1.err == send(res.0.(err := None)).err
  {
  }

  /** PostJson labels every payload as JSON, but SetPayload's type switch
      still decides the body: a map is sent url-encoded and a string is sent
      as its raw text, both under `Content-Type: application/json`. */
  lemma PostJsonKeepsPayloadEncoding(r: Request, m: map<string, string>, text: string,
                                     encodeForm: MultiMap -> string, send: Request -> Exchange)
    requires r.url.Some?
    ensures var o := PostJson(r, Form(m), encodeForm, send);
      && o.Returned?
      && Get(o.value.0.header, ContentTypeKey) == JsonContentType
      && o.value.0.body == Some(TextReader(encodeForm(Singletons(m))))
    ensures var o := PostJson(r, Text(text), encodeForm, send);
      && o.Returned?
      && Get(o.value.0.header, ContentTypeKey) == JsonContentType
      && o.value.0.body == Some(TextReader(text))
  {
  }

  /** Query parameters accumulate: a second SetParam appends to the values
      the first one left. */
  lemma ParamsAccumulate(location: string)
    ensures var r := SetUrl(NewRequest(), Ok(Url(location, map[])));
      var r1 := SetParam(r, map["name" := "Tom", "age" := "99"], ["name", "age"]);
      var r2 := SetParam(r1, map["name" := "Ann"], ["name"]);
      r2.url.value.query == map["name" := ["Tom", "Ann"], "age" := ["99"]]
  {
    var m1, m2 := map["name" := "Tom", "age" := "99"], map["name" := "Ann"];
    assert Enumerates(["name", "age"], m1.Keys) by {
      assert forall k :: k in ["name", "age"] <==> k in m1.Keys;
    }
    assert Enumerates(["name"], m2.Keys) by {
      assert forall k :: k in ["name"] <==> k in m2.Keys;
    }
    FirstParams();
    SecondParams();
  }

  /** The query after the first SetParam of ParamsAccumulate. */
  lemma FirstParams()
    ensures Appended(map[], map["name" := "Tom", "age" := "99"])
            == map["name" := ["Tom"], "age" := ["99"]]
  {
    var q := Appended(map[], map["name" := "Tom", "age" := "99"]);
    assert q.Keys == {"name", "age"};
    assert q["name"] == [] + ["Tom"] == ["Tom"];
    assert q["age"] == [] + ["99"] == ["99"];
  }

  /** The query after the second SetParam of ParamsAccumulate. */
  lemma SecondParams()
    ensures Appended(map["name" := ["Tom"], "age" := ["99"]], map["name" := "Ann"])
            == map["name" := ["Tom", "Ann"], "age" := ["99"]]
  {
    var q := Appended(map["name" := ["Tom"], "age" := ["99"]], map["name" := "Ann"]);
    assert q.Keys == {"name", "age"};
    assert q["name"] == ["Tom"] + ["Ann"] == ["Tom", "Ann"];
    assert q["age"] == ["99"] + [] == ["99"];
  }

  /** A response setting SessionId=abc, stored into a builder without cookies,
      makes that builder send exactly "Cookie: SessionId=abc". */
  lemma StoreSessionCookie(raw: RawResponse, req: Request)
    requires raw.cookies == [Cookie("SessionId", "abc")]
    requires CookieKey !in req.header
    ensures var req' := StoreCookie(Response(Some(raw), None), req, ["SessionId"]).0;
      Get(req'.header, CookieKey) == "SessionId=abc"
  {
    var resp := Response(Some(raw), None);
    var c := GetCookie(resp).value;
    LastWinsIsUnique(raw.cookies, c, map["SessionId" := "abc"]);
  }
}
