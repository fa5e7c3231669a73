# requests: the fluent HTTP client's builder and response wrapper in Dafny

Package `requests` wraps `net/http` in two records:

- a chainable **Request** builder. It holds the method, URL, header, body, client transport and a single error slot.
- a **Response** wrapper. It holds the raw `*http.Response` and a carried error.

This project models both records as immutable datatypes (`types.dfy`). Every chainable setter and terminal verb of `request.go` is a pure step function (`request.dfy`). Every accessor of `response.go` is a pure function (`response.dfy`). `Bytes` and `BindJson` return their value together with the updated wrapper, because they can store an error in it; `GetCookie`, `GetHeader` and `Err` return only their value.

The library calls are parameters, so the model states exactly what the package's own code decides:

- `url.Parse` results arrive as `Result<Url>`.
- `json.Marshal` results arrive inside the payload.
- `url.Values.Encode` is the function `encodeForm`.
- `http.Client.Do` is the function `send`.
- `gzip.NewReader` and `ioutil.ReadAll` make up `Io`.
- `Response.Cookies()` is the parsed cookie list stored in the raw response.

`http.dfy` holds the few `net/http` and `net/url` behaviours the package relies on: `Header.Get/Set/Del`, `Values.Add` and the `name=value` cookie string. AddCookie's single-line `"; "` join is `Requests.AddCookie` in `request.dfy`. `strings.dfy` holds the accumulate-and-join loop shared by `GetHeader` and the cookie line. `scenarios.dfy` states whole call chains.

A Go `map` given to a setter is modelled as a Dafny map plus the order in which `range` visits its keys. The predicate `Enumerates` says that order visits each key exactly once. Results that Go makes independent of that order are proved independent of it. For `SetCookie` the order matters, and the model keeps it.

A few behaviours of the code are easy to misread; the model follows the code:

- A caller might expect a failed `SetUrl` to keep the previous URL. The code assigns url.Parse's nil result, so the builder is left with no URL (request.go:142).
- A caller might expect the error slot to stay set until the next terminal verb. Every successful branch of `SetPayload` clears it, including an error left by a failed `SetUrl` or `SetProxy` (request.go:162-185).
- A caller might expect every body-carrying verb to drop the query string. Only `Post` clears it; `Put` and `Patch` keep it (request.go:115-127).
- A caller might expect `Bytes` to return nil whenever reading fails. It returns whatever `ReadAll` read, even when `ReadAll` also reports an error (response.go:62-67).
- A caller might expect `PostJson` to send JSON. It only sets the Content-Type; `SetPayload`'s type switch still picks the body, so a `map[string]string` goes out url-encoded and a `string` as its raw text, both labelled `application/json` (request.go:101-104, request.go:158-176).
- A caller might expect `GetHeader` and `GetCookie` to return nil for a Response without a raw response. Both dereference it first (response.go:21, response.go:33).

## Model

| member | source | states |
|---|---|---|
| `Strings.FoldIsJoin` | response.go:34-41 | the accumulate loop (append `sep + v` only to a non-empty accumulator) equals a plain join of the values that remain after the leading empty ones are dropped |
| `Strings.JoinDroppedIsEmptyIff` | response.go:34-41 | the flattened value is `""` exactly when every value under the key is empty |
| `Strings.FoldNonEmptyIsJoin` | request.go:54-61 | when no added value is empty, the loop joins the starting line (if non-empty) and every value, in order |
| `Http.SetAll` | request.go:68-73 | for any range order, `Header.Set` of every entry gives the old header overridden by the map's entries: named keys hold exactly their one value, the rest are untouched |
| `Http.AddAll` | request.go:148-155 | for any range order, `Values.Add` of every entry appends each value after the values already under its key, and other keys are untouched |
| `Http.OverrideStep` | request.go:69-71 | one `Header.Set` followed by overriding with the remaining entries is the same as overriding with all of them |
| `Http.AppendStep` | request.go:150-152 | one `Values.Add` followed by appending the remaining entries is the same as appending all of them |
| `Requests.NewRequest` | request.go:32-43 | a new builder has a nil error, method GET, the empty URL with no query, no header, no body and no transport |
| `Requests.DelCookie` | request.go:49-52 | the Cookie header is gone and every other header and field is unchanged |
| `Requests.AddCookies` | request.go:54-61 | adding cookies one by one leaves a single Cookie line that is the accumulate loop over the `name=value` strings, started from the current line |
| `Requests.SetCookie` | request.go:54-62 | with no cookies nothing changes; otherwise Cookie is the one line joining the old non-empty line and the new pairs in range order with `"; "`, and nothing else changes |
| `Requests.SetUserAgent` | request.go:63-66 | User-Agent holds exactly the given value and all other headers and fields are unchanged |
| `Requests.SetHeader` | request.go:68-73 | every named header holds exactly its given value, unnamed headers keep theirs, whatever the range order |
| `Requests.SetProxy` | request.go:85-99 | an unparsable proxy records its error and leaves the transport and all else unchanged; a valid one installs a transport and leaves the error slot alone |
| `Requests.SetUrl` | request.go:141-147 | on failure the URL becomes nil and the error is the parse error; on success the URL is installed and the error is cleared; nothing else changes |
| `Requests.SetParam` | request.go:148-155 | each new value is appended to its key's query list; no value already present under any key is removed; only the URL changes |
| `Requests.SetPayload` | request.go:157-188 | text, bytes, a form and a marshallable value each install their body and clear the error; a marshal failure records the error and keeps the old body; nothing else changes |
| `Requests.Do` | request.go:190-197 | a recorded error returns a Response with no raw response and that error, and the builder is unchanged; otherwise the transport's error is copied into the builder; builder and Response always carry the same error |
| `Requests.Execute` | request.go:111-139 | the verbs with Post corrected: each fixes its method and keeps header, body and transport; only Post clears the query; a recorded error comes back in the Response without reaching the transport; otherwise the Response is exactly the transport's response and error |
| `Requests.PostAsWritten` | request.go:115-119 | Post as written panics exactly when the builder has no URL, and otherwise agrees with `Execute` |
| `Requests.Invoke` | request.go:111-139 | the seven verbs as written: a panic exactly for Post on a builder without a URL, otherwise the result of `Execute` |
| `Requests.PostJsonCorrected` | request.go:101-105 | with Post corrected: Content-Type becomes application/json and the method POST; every other header, the transport and the URL are kept, with the query cleared; a marshal failure is returned as the Response's error with the body unchanged; otherwise the payload's body is installed, the earlier error is cleared and the Response is the transport's |
| `Requests.PostJson` | request.go:101-105 | as written: panics exactly when the builder has no URL (the payload setter cannot supply one), otherwise agrees with `PostJsonCorrected` |
| `Requests.PostFormCorrected` | request.go:106-110 | with Post corrected: Content-Type becomes form-urlencoded and the method POST; every other header, the transport and the URL are kept, with the query cleared; the encoded form is the body, and the Response is always the transport's, even after an earlier recorded error |
| `Requests.PostForm` | request.go:106-110 | as written: panics exactly when the builder has no URL, otherwise agrees with `PostFormCorrected` |
| `Requests.BlockedDoIgnoresTransport` | request.go:190-193 | with a recorded error, `do` gives the same result for every transport, with no raw response |
| `Requests.TransportFailureIsSticky` | request.go:194-196 | after a transport failure, every later terminal verb as written returns that error without calling any transport, except Post on a builder without a URL, which panics |
| `Requests.SettersReopen` | request.go:141-188 | after a successful SetUrl the next verb returns the transport's answer; after a successful SetPayload too, except Post on a builder without a URL, which panics |
| `Requests.ProxyFailureBlocks` | request.go:85-90 | an unparsable proxy makes every terminal verb return its parse error whatever the transport (Post without a URL panics), until a successful SetUrl or SetPayload lets the next verb reach the transport |
| `Requests.PostsMaskEarlierError` | request.go:101-110 | on a builder with a URL and a recorded error, Post returns the error, while PostJson (with a marshallable payload) and PostForm clear it and return the transport's answer |
| `Requests.SetUrlForgetsHistory` | request.go:141-147 | the URL and error after SetUrl depend only on the parse result, never on what the builder held before |
| `Requests.LastPayloadWins` | request.go:157-188 | a successful SetPayload erases every trace of an earlier SetPayload |
| `Requests.DoResponseReadable` | request.go:190-197 | when the transport keeps http.Client.Do's promise (nil error means a response), every Response from `do` carries an error or a raw response |
| `Responses.CookieMap` | response.go:25-29 | the loop's map has exactly the cookie names as keys, each mapped to the value of its last occurrence |
| `Responses.LastWinsStep` | response.go:26-28 | one more assignment `cookie[name] = value` keeps the property: the new name maps to the new value, every other name keeps its last occurrence |
| `Responses.LastWinsIsUnique` | response.go:25-29 | only one map satisfies "keys are the names, later duplicates win", so that property fully specifies the loop |
| `Responses.GetCookie` | response.go:20-30 | nil exactly when there are no cookies; otherwise the map keyed by exactly the names, a later duplicate winning |
| `Responses.GetHeader` | response.go:31-48 | nil exactly when there are no header keys; otherwise the same keys, each mapped to its values joined by `;` after dropping the leading empty ones, and to `""` exactly when all its values are empty |
| `Responses.HeaderJoinExamples` | response.go:34-41 | `["a","b"]` gives `"a;b"`, `["","a"]` gives `"a"` (a plain join gives `";a"`), `["a",""]` gives `"a;"` |
| `Responses.Bytes` | response.go:50-68 | returns nil and changes nothing when an error is carried or there is no body; the gzip path exactly when Content-Encoding is `"gzip"`, where a reader failure is stored and yields nil; the read's error replaces the stored one; only the error changes |
| `Responses.BytesEarlyReadsNothing` | response.go:50-53 | the early return gives the same result whatever the gzip and read calls would do |
| `Responses.GzipOnlyWhenEncoded` | response.go:56-64 | without Content-Encoding `"gzip"` the result does not depend on the gzip reader at all |
| `Responses.BytesLastErrorWins` | response.go:58-66 | the stored error after reading is the gzip reader's error or ReadAll's error on the path taken, nil included |
| `Responses.BytesFailureIsFinal` | response.go:50-53 | once Bytes has stored an error, every later Bytes returns nil without reading |
| `Responses.BindJson` | response.go:70-76 | when Bytes leaves an error, that error is returned and the decoder is not consulted; otherwise the decoder's result on the bytes read is returned |
| `Responses.BindJsonNeverDecodesAfterError` | response.go:70-75 | a Response already carrying an error returns it from BindJson whatever decoder is supplied |
| `Responses.CookieMapIsLastValue` | response.go:25-29 | every name in the loop's map holds the value of its last cookie, as an independent right-to-left search finds it |
| `Responses.StoreCookieJoinsLastValues` | response.go:78-84 | for every non-empty cookie list and range order, the builder's Cookie header becomes the old non-empty line then `name=value` per name in order, each with the name's last value, joined with `"; "`; nothing else changes |
| `Responses.StoreCookie` | response.go:78-84 | the builder gets SetCookie of the response's cookies only when GetCookie is non-nil, is unchanged otherwise, only its header can change, and nil is returned |
| `Scenarios.FreshRequestHasNoError` | request_test.go:34-37 | a new builder, and one given a parsable URL, report a nil error |
| `Scenarios.InvalidUrlThenGet` | request.go:141-147 | an unparsable URL followed by Get yields a Response whose error is the parse error, with no raw response, nil Bytes, and no transport involvement |
| `Scenarios.PostAfterInvalidUrl` | request.go:115-119 | after an unparsable URL, Post as written panics while the corrected verb returns the parse error |
| `Scenarios.PostFormAfterInvalidUrl` | request.go:106-119 | after an unparsable URL, PostForm as written panics; with Post corrected it clears the parse error and sends a request that has no URL |
| `Scenarios.PostJsonKeepsPayloadEncoding` | request.go:101-104 | PostJson labels a map payload and a string payload as JSON, yet sends the map url-encoded and the string as raw text |
| `Scenarios.ParamsAccumulate` | request.go:148-155 | two SetParam calls on one key keep both values, in call order |
| `Scenarios.StoreSessionCookie` | response.go:78-84 | a response setting `SessionId=abc`, stored into a builder without cookies, makes it send `Cookie: SessionId=abc` |

## Findings

| source | as written | input that shows it | evidently intended | confidence | as-written member | corrected member |
|---|---|---|---|---|---|---|
| request.go:115-119 | `Post` assigns `r.URL.RawQuery = ""` before `do` checks the error slot | `SetUrl` with an unparsable address (URL becomes nil), then `Post()`, `PostJson` or `PostForm` | like every other verb, return the recorded error in a Response without touching the URL | high, not executed | `Requests.PostAsWritten`, `Requests.PostJson`, `Requests.PostForm`, `Requests.Invoke` (exhibited by `Scenarios.PostAfterInvalidUrl` and `Scenarios.PostFormAfterInvalidUrl`) | `Requests.Execute`, `Requests.PostJsonCorrected`, `Requests.PostFormCorrected` (proved by `Scenarios.PostAfterInvalidUrl`: the parse error is returned) |

## Left out

- `EnableSPDY` (request.go:74-83): it only configures `http.Transport`, `tls.Config` and HTTP/2, which are foreign code.
- Requests.SetProxy: the success path records only the proxy URL. The `InsecureSkipVerify` TLS setting is not modelled. A precondition replaces the nil-transport dereference request.go hits when a transport is already installed.
- `initialization` and `reset` (request.go:21-31) are never called. `DumpToFile` and `SaveToFile` (response.go:86-94) are empty stubs.
- The `log.Fatalln` branch of `NewRequest` is not modelled: `http.NewRequest("GET", "", nil)` cannot fail.
- `Get`, `Post`, `Put`, `Patch`, `Delete`, `Head` and `Options` are one function with the verb as a parameter: `Requests.Invoke` as written (Post through `Requests.PostAsWritten`), `Requests.Execute` with Post corrected.
- `Request.Err` and `Response.Err` are plain reads of the error field. They appear as `Requests.Err` and `Responses.Err` without contracts of their own, and the scenarios use them.
- Library behaviour is an input, not a model. This covers `url.Parse`, `url.Values.Encode`, `json.Marshal`/`Unmarshal`, `gzip.NewReader`, `ioutil.ReadAll`, `Response.Cookies()` and `http.Client.Do` (sockets, TLS, redirects).
- `Header.Set` key canonicalisation and AddCookie's name/value sanitisation are not modelled; keys and cookie strings are taken as given.
- The query is held as the decoded multimap. `SetParam` therefore assumes `Query()` undoes `Encode()`; malformed pairs that `Query()` silently drops are not modelled.
- Stream state is not modelled. Consuming the body, and what a second `ReadAll` of a consumed body returns, belong to the `Io` oracle. response.go never closes the body either.
- The request body is recorded as which reader was installed, not as a stream. `http.Client.Do` drains and closes that reader on the first terminal verb, so a second verb on a reused builder sends an exhausted body; in the model `send` sees the same `body` value again.
- BindJson models only the returned error; the decoded target object is not modelled.
- Requests.SetParam: requires a URL, because request.go dereferences `r.URL` and panics without one.
- Responses.GetHeader: requires a raw response, because response.go reads its header and panics without one.
- Responses.GetCookie: requires a raw response, for the same reason.
- Responses.StoreCookie: requires a raw response (it calls GetCookie). It takes the range order over the cookie map as a parameter.
- Responses.Bytes: requires an error or a raw response. With neither, response.go dereferences a nil response. `Requests.DoResponseReadable` shows `do` never builds such a Response from a transport that keeps http.Client.Do's promise.
- Concurrency is not modelled: the package is single-threaded per builder.
