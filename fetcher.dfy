/** The HTTP client factory of the client app (client/src/lib/fetcher.ts):
    URL building, header merging and the request descriptions its `get`,
    `post` and `request` hand to `fetch`. */
module Fetcher {
  import opened Common

  /** A header record as a request carries it. */
  type Headers = seq<(string, string)>

  /** A header record as a caller passes it; a value may be `undefined`. */
  type Source = seq<(string, Option<string>)>

  const ContentType := "content-type"
  const JsonContentType := "application/json; charset=utf-8"

  // ----- URLs -----

  /** The URL before any query: an absolute `path` verbatim, otherwise the
      base without its trailing slash joined to the path by one slash. */
  function UrlOf(baseUrl: string, path: string): string
  {
    if StartsWith(path, "http") then path
    else DropTrailingSlash(baseUrl) + (if StartsWith(path, "/") then path else "/" + path)
  }

  /** `buildUrl(baseUrl, path, params)`; `search` is the
      `URLSearchParams` serialisation of the parameters. */
  function BuildUrl(baseUrl: string, path: string, params: Option<seq<(string, string)>>,
                    search: seq<(string, string)> -> string): string
  {
    var url := UrlOf(baseUrl, path);
    if params.None? || |params.value| == 0 then url
    else url + (if Contains(url, "?") then "&" else "?") + search(params.value)
  }

  /** `path` without one leading slash. */
  function DropLeadingSlash(path: string): (r: string)
    ensures (if StartsWith(path, "/") then "/" else "") + r == path
  {
    if StartsWith(path, "/") then path[1..] else path
  }

  /** A relative path is joined to the base with exactly the one slash
      that separates them: the base loses one trailing slash and the path
      one leading slash, and a single `/` goes between. */
  lemma UrlJoin(baseUrl: string, path: string)
    requires !StartsWith(path, "http")
    ensures UrlOf(baseUrl, path) == DropTrailingSlash(baseUrl) + "/" + DropLeadingSlash(path)
  {
    if StartsWith(path, "/") {
      assert path == "/" + path[1..];
    }
  }

  /** The URL is the path verbatim when it starts with `http`; with no
      parameters it is the bare URL; otherwise the bare URL followed by
      exactly one separator, `&` when it already has a query and `?` when
      not, and the serialised parameters. */
  lemma BuildUrlFacts(baseUrl: string, path: string, params: Option<seq<(string, string)>>,
                      search: seq<(string, string)> -> string)
    ensures var r := BuildUrl(baseUrl, path, params, search);
      var url := UrlOf(baseUrl, path);
      (StartsWith(path, "http") ==> url == path) &&
      (params.None? || params.value == [] ==> r == url) &&
      (params.Some? && params.value != [] ==>
        StartsWith(r, url) &&
        r[|url|..] == (if Contains(url, "?") then "&" else "?") + search(params.value))
  {
    var r := BuildUrl(baseUrl, path, params, search);
    var url := UrlOf(baseUrl, path);
    if params.Some? && params.value != [] {
      var tail := (if Contains(url, "?") then "&" else "?") + search(params.value);
      assert r == url + tail;
      assert r[..|url|] == url;
      assert r[|url|..] == tail;
    }
  }

  // ----- records -----

  /** `o[k] = v` on a record: the existing key keeps its place, a new key
      goes last. */
  function Put<V>(o: seq<(string, V)>, k: string, v: V): (r: seq<(string, V)>)
    ensures Lookup(r, k) == Some(v)
    ensures forall k' :: k' != k ==> Lookup(r, k') == Lookup(o, k')
  {
    if o == [] then [(k, v)]
    else if o[0].0 == k then [(k, v)] + o[1..]
    else [o[0]] + Put(o[1..], k, v)
  }

  /** The value `v` of the last entry for `k` with `v` defined and
      non-empty. */
  function LastWritten(es: Source, k: string): (r: Option<string>)
    ensures r.Some? ==> r.value != ""
  {
    if es == [] then None
    else
      var e := es[|es| - 1];
      if e.0 == k && e.1.Some? && e.1.value != "" then e.1
      else LastWritten(es[..|es| - 1], k)
  }

  /** The inner loop of `mergeHeaders`: write each entry with a defined,
      non-empty value. */
  function MergeEntries(acc: Headers, es: Source): Headers
  {
    if es == [] then acc
    else
      var a := MergeEntries(acc, es[..|es| - 1]);
      var e := es[|es| - 1];
      if e.1.Some? && e.1.value != "" then Put(a, e.0, e.1.value) else a
  }

  /** `mergeHeaders(...sources)`; a `None` source is `undefined`. */
  function MergeAll(sources: seq<Option<Source>>): Headers
  {
    if sources == [] then []
    else
      var acc := MergeAll(sources[..|sources| - 1]);
      var src := sources[|sources| - 1];
      if src.None? then acc else MergeEntries(acc, src.value)
  }

  /** The value the last defined source writes for `k`. */
  function LastWrittenAll(sources: seq<Option<Source>>, k: string): (r: Option<string>)
    ensures r.Some? ==> r.value != ""
  {
    if sources == [] then None
    else
      var src := sources[|sources| - 1];
      OrElse(if src.None? then None else LastWritten(src.value, k), LastWrittenAll(sources[..|sources| - 1], k))
  }

  lemma {:induction false} MergeEntriesLookup(acc: Headers, es: Source, k: string)
    ensures Lookup(MergeEntries(acc, es), k) == OrElse(LastWritten(es, k), Lookup(acc, k))
  {
    if es != [] {
      MergeEntriesLookup(acc, es[..|es| - 1], k);
    }
  }

  /** A merged header is the value the latest source wrote for it, and
      only a defined, non-empty value is ever written: empty and undefined
      values never erase an earlier one, and undefined sources are
      skipped. */
  lemma {:induction false} MergeAllLookup(sources: seq<Option<Source>>, k: string)
    ensures Lookup(MergeAll(sources), k) == LastWrittenAll(sources, k)
  {
    if sources != [] {
      MergeAllLookup(sources[..|sources| - 1], k);
      var src := sources[|sources| - 1];
      if src.Some? {
        MergeEntriesLookup(MergeAll(sources[..|sources| - 1]), src.value, k);
      }
    }
  }

  /** The loops of `mergeHeaders`. */
  method MergeHeaders(sources: seq<Option<Source>>) returns (acc: Headers)
    ensures acc == MergeAll(sources)
  {
    acc := [];
    for i := 0 to |sources|
      invariant acc == MergeAll(sources[..i])
    {
      assert sources[..i + 1][..i] == sources[..i];
      if sources[i].Some? {
        var src := sources[i].value;
        ghost var base := acc;
        for j := 0 to |src|
          invariant acc == MergeEntries(base, src[..j])
        {
          assert src[..j + 1][..j] == src[..j];
          var (k, v) := src[j];
          if v.Some? && v.value != "" {
            acc := Put(acc, k, v.value);
          }
        }
        assert src[..|src|] == src;
      }
    }
    assert sources[..|sources|] == sources;
  }

  // ----- requests -----

  /** The value of the last entry for `k`. */
  function LastIn<V>(es: seq<(string, V)>, k: string): Option<V>
  {
    if es == [] then None
    else if es[|es| - 1].0 == k then Some(es[|es| - 1].1)
    else LastIn(es[..|es| - 1], k)
  }

  /** `{ ...base, ...over }`. */
  function Spread<V>(base: seq<(string, V)>, over: seq<(string, V)>): seq<(string, V)>
  {
    if over == [] then base
    else Put(Spread(base, over[..|over| - 1]), over[|over| - 1].0, over[|over| - 1].1)
  }

  lemma {:induction false} SpreadLookup<V>(base: seq<(string, V)>, over: seq<(string, V)>, k: string)
    ensures Lookup(Spread(base, over), k) == OrElse(LastIn(over, k), Lookup(base, k))
  {
    if over != [] {
      SpreadLookup(base, over[..|over| - 1], k);
    }
  }

  /** A request description: method, headers, body and cache mode. */
  datatype RequestInit = RequestInit(httpMethod: string, headers: Headers, body: Option<string>, cacheMode: string)

  /** The headers `post` sends: `mergeHeaders(defaultHeaders,
      { 'content-type': …, ...headers })`. */
  function PostHeaders(defaults: Source, headers: Source): Headers
  {
    MergeAll([Some(defaults), Some(Spread([(ContentType, Some(JsonContentType))], headers))])
  }

  /** The request `post(path, body, { headers })` hands to `fetch`;
      `stringify` is `JSON.stringify`. */
  function PostInit<B>(defaults: Source, headers: Source, body: Option<B>, stringify: B -> string): (r: RequestInit)
    ensures r.httpMethod == "POST" && r.cacheMode == "no-store"
    ensures r.body.None? <==> body.None?
  {
    RequestInit("POST", PostHeaders(defaults, headers),
                if body.Some? then Some(stringify(body.value)) else None, "no-store")
  }

  /** The request `get(path, { headers })` hands to `fetch`. */
  function GetInit(defaults: Source, headers: Source): (r: RequestInit)
    ensures r.httpMethod == "GET" && r.body.None? && r.cacheMode == "no-store"
  {
    RequestInit("GET", MergeAll([Some(defaults), Some(headers)]), None, "no-store")
  }

  /** The headers of `request(path, init)`: the defaults merged with
      `init.headers`, or with nothing when it has none. */
  function RequestHeaders(defaults: Source, headers: Option<Source>): Headers
  {
    MergeAll([Some(defaults), Some(if headers.Some? then headers.value else [])])
  }

  /** Header precedence of `post`: a defined, non-empty caller header
      wins; without a caller entry, `content-type` is the JSON type;
      otherwise the default's value stands. A caller entry for
      `content-type` that is empty or undefined therefore removes the JSON
      type but restores the default's. */
  lemma PostPrecedence(defaults: Source, headers: Source, k: string)
    ensures var r := Lookup(PostHeaders(defaults, headers), k);
      (LastIn(headers, k).Some? && LastIn(headers, k).value.Some? && LastIn(headers, k).value.value != "" ==>
        r == LastIn(headers, k).value) &&
      (k == ContentType && LastIn(headers, k).None? ==> r == Some(JsonContentType)) &&
      (k != ContentType && LastIn(headers, k).None? ==> r == LastWritten(defaults, k)) &&
      (LastIn(headers, k).Some? && (LastIn(headers, k).value.None? || LastIn(headers, k).value.value == "") ==>
        r == LastWritten(defaults, k))
  {
    var base: Source := [(ContentType, Some(JsonContentType))];
    var sp := Spread(base, headers);
    PostLookup(defaults, sp, k);
    SpreadLookup(base, headers, k);
    SpreadUnique(base, headers);
    LastWrittenUnique(sp, k);
    assert Lookup(base, k) == (if k == ContentType then Some(Some(JsonContentType)) else None);
  }

  /** The two sources of `post`'s merge, the later first. */
  lemma PostLookup(defaults: Source, sp: Source, k: string)
    ensures Lookup(MergeAll([Some(defaults), Some(sp)]), k) == OrElse(LastWritten(sp, k), LastWritten(defaults, k))
  {
    var srcs := [Some(defaults), Some(sp)];
    MergeAllLookup(srcs, k);
    assert srcs[..1] == [Some(defaults)];
    assert srcs[..1][..0] == [];
    assert LastWrittenAll(srcs[..1], k) == OrElse(LastWritten(defaults, k), LastWrittenAll([], k));
    assert LastWrittenAll(srcs, k) == OrElse(LastWritten(sp, k), LastWrittenAll(srcs[..1], k));
  }

  /** `get` and `request` send the defaults overridden by the caller's
      defined, non-empty headers; `request` without headers sends the
      defaults' defined, non-empty values alone. */
  lemma GetRequestLookup(defaults: Source, headers: Source, k: string)
    ensures Lookup(GetInit(defaults, headers).headers, k) == OrElse(LastWritten(headers, k), LastWritten(defaults, k))
    ensures Lookup(RequestHeaders(defaults, Some(headers)), k) == OrElse(LastWritten(headers, k), LastWritten(defaults, k))
    ensures Lookup(RequestHeaders(defaults, None), k) == LastWritten(defaults, k)
  {
    PostLookup(defaults, headers, k);
    PostLookup(defaults, [], k);
    assert LastWritten([], k) == None;
  }

  /** No key occurs twice. */
  predicate UniqueKeys<V>(o: seq<(string, V)>)
  {
    forall i, j :: 0 <= i < j < |o| ==> o[i].0 != o[j].0
  }

  lemma {:induction false} PutUnique<V>(o: seq<(string, V)>, k: string, v: V)
    requires UniqueKeys(o)
    ensures UniqueKeys(Put(o, k, v))
  {
    if o != [] && o[0].0 != k {
      PutUnique(o[1..], k, v);
      var rest := Put(o[1..], k, v);
      assert Lookup(o[1..], o[0].0).None?;
      assert Lookup(rest, o[0].0).None?;
      assert forall j :: 0 <= j < |rest| ==> rest[j].0 != o[0].0;
      var r := [o[0]] + rest;
      forall i, j | 0 <= i < j < |r|
        ensures r[i].0 != r[j].0
      {
        if i > 0 {
          assert r[i] == rest[i - 1] && r[j] == rest[j - 1];
        }
      }
    }
  }

  lemma {:induction false} SpreadUnique<V>(base: seq<(string, V)>, over: seq<(string, V)>)
    requires UniqueKeys(base)
    ensures UniqueKeys(Spread(base, over))
  {
    if over != [] {
      SpreadUnique(base, over[..|over| - 1]);
      PutUnique(Spread(base, over[..|over| - 1]), over[|over| - 1].0, over[|over| - 1].1);
    }
  }

  lemma {:induction false} LookupAppend<V>(o: seq<(string, V)>, e: (string, V), k: string)
    ensures Lookup(o + [e], k) == OrElse(Lookup(o, k), if e.0 == k then Some(e.1) else None)
  {
    if o != [] {
      assert (o + [e])[1..] == o[1..] + [e];
      LookupAppend(o[1..], e, k);
    }
  }

  /** On a record with one entry per key, the last written value of a key
      is its value when that is defined and non-empty. */
  lemma {:induction false} LastWrittenUnique(sp: Source, k: string)
    requires UniqueKeys(sp)
    ensures LastWritten(sp, k) ==
      (if Lookup(sp, k).Some? && Lookup(sp, k).value.Some? && Lookup(sp, k).value.value != ""
       then Lookup(sp, k).value else None)
  {
    if sp != [] {
      var init := sp[..|sp| - 1];
      var e := sp[|sp| - 1];
      assert sp == init + [e];
      assert UniqueKeys(init);
      LastWrittenUnique(init, k);
      LookupAppend(init, e, k);
      if e.0 == k {
        assert forall j :: 0 <= j < |init| ==> init[j].0 != k;
      }
    }
  }
}
