/** The parts of net/http and net/url the package relies on, reduced to the
    behaviour the package observes. A `MultiMap` stands for both `http.Header` and
    `url.Values` (a map from key to a list of values); keys are taken as already
    canonical. */
module Http {
  import opened Wrappers

  newtype byte = x: int | 0 <= x < 256

  type MultiMap = map<string, seq<string>>

  const CookieKey := "Cookie"
  const UserAgentKey := "User-Agent"
  const ContentTypeKey := "Content-Type"
  const ContentEncodingKey := "Content-Encoding"

  /** All values stored under `k`, none when absent. */
  function Lookup(m: MultiMap, k: string): seq<string>
  {
    if k in m then m[k] else []
  }

  /** Header.Get: the first value under `k`, or "" */
  function Get(m: MultiMap, k: string): string
  {
    if k in m && |m[k]| > 0 then m[k][0] else ""
  }

  /** Header.Set: `k` holds exactly `v` afterwards */
  function Set(m: MultiMap, k: string, v: string): MultiMap
  {
    m[k := [v]]
  }

  /** Header.Del */
  function Del(m: MultiMap, k: string): MultiMap
  {
    m - {k}
  }

  /** Values.Add: `v` is appended after the values already under `k` */
  function Add(m: MultiMap, k: string, v: string): MultiMap
  {
    m[k := Lookup(m, k) + [v]]
  }

  /** `m'` agrees with `m` on every key other than `k` */
  ghost predicate AgreeExcept(m: MultiMap, m': MultiMap, k: string)
  {
    forall x | x != k :: (x in m <==> x in m') && (x in m ==> m[x] == m'[x])
  }

  /** `order` visits every key of `keys` exactly once, as a `range` over a Go map does. */
  ghost predicate Enumerates(order: seq<string>, keys: set<string>)
  {
    && (forall i, j | 0 <= i < j < |order| :: order[i] != order[j])
    && (forall k :: k in order <==> k in keys)
  }

  /** Every entry of a Go map[string]string as a one-value list. */
  function Singletons(m: map<string, string>): MultiMap
  {
    map k | k in m :: [m[k]]
  }

  /** `q` with each entry of `m` appended to the list under its key. */
  function Appended(q: MultiMap, m: map<string, string>): MultiMap
  {
    map k | k in q.Keys + m.Keys :: Lookup(q, k) + (if k in m then [m[k]] else [])
  }

  /** The rest of a range after its first key visits the other keys. */
  lemma EnumeratesRest(order: seq<string>, keys: set<string>)
    requires |order| > 0 && Enumerates(order, keys)
    ensures Enumerates(order[1..], keys - {order[0]})
  {
    forall k ensures k in order[1..] <==> k in keys - {order[0]} {
      if k in order[1..] {
        var i :| 0 <= i < |order[1..]| && order[1..][i] == k;
        assert order[i + 1] == k;
      }
      if k in keys && k != order[0] {
        var i :| 0 <= i < |order| && order[i] == k;
        assert order[1..][i - 1] == k;
      }
    }
  }

  /** An empty range visits an empty map. */
  lemma EmptyEnumeration(order: seq<string>, keys: set<string>)
    requires |order| == 0 && Enumerates(order, keys)
    ensures keys == {}
  {
    assert forall k :: k !in order;
  }

  /** Setting one entry first and overriding with the rest is overriding with all. */
  lemma OverrideStep(h: MultiMap, m: map<string, string>, k: string)
    requires k in m
    ensures Set(h, k, m[k]) + Singletons(m - {k}) == h + Singletons(m)
  {
    var a, b := Set(h, k, m[k]) + Singletons(m - {k}), h + Singletons(m);
    assert a.Keys == b.Keys;
    forall x | x in a ensures a[x] == b[x] {
      if x == k {
        assert a[x] == [m[k]];
      }
    }
  }

  /** Adding one entry first and appending the rest is appending all. */
  lemma AppendStep(q: MultiMap, m: map<string, string>, k: string)
    requires k in m
    ensures Appended(Add(q, k, m[k]), m - {k}) == Appended(q, m)
  {
    var a, b := Appended(Add(q, k, m[k]), m - {k}), Appended(q, m);
    assert a.Keys == b.Keys;
    forall x | x in a ensures a[x] == b[x] {
      if x == k {
        assert a[x] == Lookup(q, k) + [m[k]] + [];
      }
    }
  }

  /** Appending an empty map changes nothing. */
  lemma AppendNothing(q: MultiMap)
    ensures Appended(q, map[]) == q
  {
    var a := Appended(q, map[]);
    assert a.Keys == q.Keys;
    forall x | x in a ensures a[x] == q[x] {
      assert a[x] == q[x] + [];
    }
  }

  /** Header.Set for each key of `m`, in the order `order` visits them: the
      header overridden by the map's entries, whatever that order is. */
  function SetAll(h: MultiMap, m: map<string, string>, order: seq<string>): (h': MultiMap)
    requires Enumerates(order, m.Keys)
    ensures h' == h + Singletons(m)
    decreases |order|
  {
    if |order| == 0 then
      EmptyEnumeration(order, m.Keys);
      assert Singletons(m) == map[];
      h
    else
      var k := order[0];
      assert k in m;
      EnumeratesRest(order, m.Keys);
      OverrideStep(h, m, k);
      SetAll(Set(h, k, m[k]), m - {k}, order[1..])
  }

  /** Values.Add for each key of `m`, in the order `order` visits them: every
      value appended to its key's list, whatever that order is. */
  function AddAll(q: MultiMap, m: map<string, string>, order: seq<string>): (q': MultiMap)
    requires Enumerates(order, m.Keys)
    ensures q' == Appended(q, m)
    decreases |order|
  {
    if |order| == 0 then
      EmptyEnumeration(order, m.Keys);
      AppendNothing(q);
      q
    else
      var k := order[0];
      assert k in m;
      EnumeratesRest(order, m.Keys);
      AppendStep(q, m, k);
      AddAll(Add(q, k, m[k]), m - {k}, order[1..])
  }

  /** A cookie as Response.Cookies() reports it. */
  datatype Cookie = Cookie(name: string, value: string)

  /** The `name=value` form AddCookie writes. */
  function CookieString(name: string, value: string): (s: string)
    ensures |s| > |name|
  {
    name + "=" + value
  }

  /** A body stream; its contents are known only to the I/O oracles. */
  datatype Stream = Stream(id: nat)

  /** The parts of an *http.Response the package reads; `cookies` is the list
      Response.Cookies() parses out of the Set-Cookie headers. */
  datatype RawResponse = RawResponse(status: int, header: MultiMap, body: Option<Stream>, cookies: seq<Cookie>)

  /** What http.Client.Do returns: a response, an error, or (after a failed
      redirect check) both. */
  datatype Exchange = Exchange(resp: Option<RawResponse>, err: Option<Error>)

  /** http.Client.Do's documented promise: a nil error comes with a response. */
  predicate Honest(x: Exchange)
  {
    x.err.None? ==> x.resp.Some?
  }
}
