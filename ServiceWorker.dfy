/** The offline cache of sw.js. The browser's cache storage is a map from bucket names to
    buckets, each a map from request URLs to responses, with the bucket names in the order the
    buckets were created (the order `caches.keys()` and `caches.match` use). The worker also
    keeps whether it is still waiting to take over from an older one. */
module ServiceWorker {
  import opened Common

  /** A response: its HTTP status, its `type` (`"basic"`, `"cors"`, `"opaque"`, ...) and its
      body. */
  datatype Response = Response(status: int, kind: string, body: string)

  /** A request: its URL and its `destination` (`"document"` for a page load). */
  datatype Request = Request(url: string, destination: string)

  /** What `fetch(request)` gave: it failed (the network is down), or it resolved, possibly to
      nothing. */
  datatype NetResult = NetFailed | Resolved(response: Option<Response>)

  type Bucket = map<string, Response>

  /** `CACHE_NAME`. */
  const CacheName := "jogos-criancas-v1"

  /** `ASSETS_TO_CACHE`. */
  const Assets: seq<string> := [
    "./",
    "./index.html",
    "./manifest.json",
    "./css/style.css",
    "./js/app.js",
    "./js/games.js",
    "./js/audio.js",
    "./icons/icon-192.png",
    "./icons/icon-512.png"
  ]

  /** The buckets in creation order: every name once, and exactly the names of `buckets`. */
  ghost predicate WellFormed(names: seq<string>, buckets: map<string, Bucket>) {
    Distinct(names) && (forall n :: n in names <==> n in buckets)
  }

  /** `caches.match(url)`: the response stored for `url` in the first bucket, in creation
      order, that has one. */
  function MatchAll(names: seq<string>, buckets: map<string, Bucket>, url: string): (r: Option<Response>)
    requires forall n :: n in names ==> n in buckets
    ensures r.Some? <==> exists n :: n in names && url in buckets[n]
    ensures r.Some? ==> exists n :: n in names && url in buckets[n] && buckets[n][url] == r.value
    ensures r.Some? ==> exists i :: 0 <= i < |names| && url in buckets[names[i]]
                          && r.value == buckets[names[i]][url]
                          && forall j :: 0 <= j < i ==> url !in buckets[names[j]]
  {
    if names == [] then None
    else if url in buckets[names[0]] then Some(buckets[names[0]][url])
    else
      var r := MatchAll(names[1..], buckets, url);
      assert forall n :: n in names[1..] ==> n in names;
      assert r.Some? ==> exists i :: 1 <= i < |names| && url in buckets[names[i]]
                           && r.value == buckets[names[i]][url]
                           && forall j :: 0 <= j < i ==> url !in buckets[names[j]] by {
        if r.Some? {
          var k :| 0 <= k < |names| - 1 && url in buckets[names[1..][k]]
                   && r.value == buckets[names[1..][k]][url]
                   && forall j :: 0 <= j < k ==> url !in buckets[names[1..][j]];
          assert forall j :: 1 <= j < k + 1 ==> names[j] == names[1..][j - 1];
        }
      }
      r
  }

  /** A response `fetch` may store: status 200 and type `"basic"`. */
  predicate Cacheable(response: Response) {
    response.status == 200 && response.kind == "basic"
  }

  /** `response.ok`, which `cache.addAll` requires of every response. */
  predicate Ok(response: Response) {
    200 <= response.status <= 299
  }

  /** Whether every asset resolved to an `ok` response, so that `cache.addAll` succeeds. */
  predicate AllAssetsOk(network: map<string, Response>) {
    forall a :: a in Assets ==> a in network && Ok(network[a])
  }

  /** The names left by `activate`: those equal to `keep`, in order. */
  function KeepOnly(names: seq<string>, keep: string): (r: seq<string>)
    ensures forall n :: n in r <==> n in names && n == keep
    ensures |r| <= |names|
  {
    if names == [] then []
    else (if names[0] == keep then [names[0]] else []) + KeepOnly(names[1..], keep)
  }

  /** The buckets left by `activate`: only `CACHE_NAME`, if it exists, with its entries. */
  function ActivatedBuckets(buckets: map<string, Bucket>): (r: map<string, Bucket>)
    ensures forall n :: n in r <==> n in buckets && n == CacheName
    ensures CacheName in buckets ==> r[CacheName] == buckets[CacheName]
  {
    if CacheName in buckets then map[CacheName := buckets[CacheName]] else map[]
  }

  /** Activating a second time changes nothing more. */
  lemma ActivateIdempotent(names: seq<string>, buckets: map<string, Bucket>)
    ensures KeepOnly(KeepOnly(names, CacheName), CacheName) == KeepOnly(names, CacheName)
    ensures ActivatedBuckets(ActivatedBuckets(buckets)) == ActivatedBuckets(buckets)
  {
    KeepOnlyOfKept(names, CacheName);
  }

  lemma {:induction false} KeepOnlyOfKept(names: seq<string>, keep: string)
    ensures KeepOnly(KeepOnly(names, keep), keep) == KeepOnly(names, keep)
  {
    if names != [] {
      KeepOnlyOfKept(names[1..], keep);
      var head := if names[0] == keep then [names[0]] else [];
      KeepOnlyAppend(head, KeepOnly(names[1..], keep), keep);
      assert KeepOnly(head, keep) == head;
    }
  }

  lemma {:induction false} KeepOnlyAppend(a: seq<string>, b: seq<string>, keep: string)
    ensures KeepOnly(a + b, keep) == KeepOnly(a, keep) + KeepOnly(b, keep)
  {
    if a == [] {
      assert a + b == b;
    } else {
      var head := if a[0] == keep then [a[0]] else [];
      assert (a + b)[0] == a[0] && (a + b)[1..] == a[1..] + b;
      assert KeepOnly(a + b, keep) == head + KeepOnly(a[1..] + b, keep);
      KeepOnlyAppend(a[1..], b, keep);
      assert KeepOnly(a, keep) == head + KeepOnly(a[1..], keep);
      assert head + (KeepOnly(a[1..], keep) + KeepOnly(b, keep))
          == (head + KeepOnly(a[1..], keep)) + KeepOnly(b, keep);
    }
  }

  /** The loop of `activate` over `caches.keys()`: every bucket whose name is not
      `CACHE_NAME` is deleted. */
  method DeleteOldCaches(names: seq<string>, buckets: map<string, Bucket>)
    returns (newNames: seq<string>, newBuckets: map<string, Bucket>)
    requires WellFormed(names, buckets)
    ensures newNames == KeepOnly(names, CacheName)
    ensures newBuckets == ActivatedBuckets(buckets)
    ensures WellFormed(newNames, newBuckets)
  {
    newNames, newBuckets := names, buckets;
    var i := 0;
    while i < |names|
      invariant 0 <= i <= |names|
      invariant newNames == KeepOnly(names[..i], CacheName) + names[i..]
      invariant newBuckets == Pruned(buckets, names[..i])
    {
      var name := names[i];
      DeleteStep(names, i);
      PrunedStep(buckets, names, i);
      if name != CacheName {
        newNames := Without(newNames, [name]);
        newBuckets := newBuckets - {name};
      }
      i := i + 1;
    }
    assert names[..|names|] == names;
    PrunedAll(names, buckets);
    KeepOnlyDistinct(names, CacheName);
  }

  /** `buckets` once the names in `done` other than `CACHE_NAME` have been deleted. */
  function Pruned(buckets: map<string, Bucket>, done: seq<string>): (r: map<string, Bucket>)
    ensures forall n :: n in r <==> n in buckets && (n == CacheName || n !in done)
    ensures forall n :: n in r ==> r[n] == buckets[n]
  {
    map n | n in buckets && (n == CacheName || n !in done) :: buckets[n]
  }

  lemma PrunedStep(buckets: map<string, Bucket>, names: seq<string>, i: nat)
    requires i < |names|
    ensures Pruned(buckets, names[..i + 1])
            == if names[i] == CacheName then Pruned(buckets, names[..i])
               else Pruned(buckets, names[..i]) - {names[i]}
  {
    assert names[..i + 1] == names[..i] + [names[i]];
  }

  /** Once every name has been visited, only `CACHE_NAME` is left. */
  lemma PrunedAll(names: seq<string>, buckets: map<string, Bucket>)
    requires WellFormed(names, buckets)
    ensures Pruned(buckets, names) == ActivatedBuckets(buckets)
  {
  }

  /** One step of the loop of `activate`: deleting the `i`-th name when it is not
      `CACHE_NAME`, keeping it otherwise. */
  lemma DeleteStep(names: seq<string>, i: nat)
    requires Distinct(names) && i < |names|
    ensures var before := KeepOnly(names[..i], CacheName) + names[i..];
            var after := KeepOnly(names[..i + 1], CacheName) + names[i + 1..];
            if names[i] == CacheName then before == after else Without(before, [names[i]]) == after
  {
    var name, kept, rest := names[i], KeepOnly(names[..i], CacheName), names[i + 1..];
    assert names[..i + 1] == names[..i] + [name];
    KeepOnlyAppend(names[..i], [name], CacheName);
    assert names[i..] == [name] + rest;
    forall n | n in rest ensures n != name {
      var j :| 0 <= j < |rest| && rest[j] == n;
      assert names[i + 1 + j] == n;
    }
    assert KeepOnly([name], CacheName) == (if name == CacheName then [name] else []) + KeepOnly([], CacheName);
    if name != CacheName {
      assert kept + names[i..] == (kept + [name]) + rest;
      WithoutAppend(kept + [name], rest, [name]);
      WithoutAppend(kept, [name], [name]);
      WithoutNothing(kept, [name]);
      WithoutNothing(rest, [name]);
      assert Without([name], [name]) == [] + Without([], [name]);
    } else {
      assert kept + names[i..] == (kept + [name]) + rest;
    }
  }

  /** The service worker and the cache storage it works on. */
  class Worker {
    /** The bucket names, in creation order. */
    var names: seq<string>
    var buckets: map<string, Bucket>
    /** Whether this worker is still waiting for an older one to go; `skipWaiting` ends it. */
    var waiting: bool

    ghost predicate Valid()
      reads this
    {
      WellFormed(names, buckets)
    }

    /** A newly registered worker over the cache storage `buckets` (in the order `names`). */
    constructor (names: seq<string>, buckets: map<string, Bucket>)
      requires WellFormed(names, buckets)
      ensures Valid() && this.names == names && this.buckets == buckets && waiting
    {
      this.names := names;
      this.buckets := buckets;
      waiting := true;
    }

    /** `caches.open(name)`: the bucket, created empty (and last in order) if missing. */
    method Open(name: string)
      requires Valid()
      modifies this
      ensures Valid() && name in buckets
      ensures name in old(buckets) ==> names == old(names) && buckets == old(buckets)
      ensures name !in old(buckets) ==>
                names == old(names) + [name] && buckets == old(buckets)[name := map[]]
      ensures waiting == old(waiting)
    {
      if name !in buckets {
        names := names + [name];
        buckets := buckets[name := map[]];
      }
    }

    /** The `install` handler, with `network` the responses the asset requests get (a missing
        URL failed): `caches.open(CACHE_NAME)`, then `cache.addAll(ASSETS_TO_CACHE)`, which
        stores every asset when all responses are `ok` and nothing otherwise, then
        `skipWaiting()` only when `addAll` succeeded. */
    method Install(network: map<string, Response>) returns (ok: bool)
      requires Valid()
      modifies this
      ensures Valid() && CacheName in buckets
      ensures ok <==> AllAssetsOk(network)
      ensures var bucket0 := if CacheName in old(buckets) then old(buckets)[CacheName] else map[];
              && (ok ==>
                    && buckets == old(buckets)[CacheName := bucket0 + map a | a in Assets :: network[a]]
                    && !waiting)
              && (!ok ==> buckets == old(buckets)[CacheName := bucket0] && waiting == old(waiting))
      ensures names == if CacheName in old(buckets) then old(names) else old(names) + [CacheName]
    {
      Open(CacheName);
      ok := AllAssetsOk(network);
      if ok {
        buckets := buckets[CacheName := buckets[CacheName] + map a | a in Assets :: network[a]];
        waiting := false;
      }
    }

    /** The `activate` handler: every bucket but `CACHE_NAME` is deleted. */
    method Activate()
      requires Valid()
      modifies this
      ensures Valid()
      ensures names == KeepOnly(old(names), CacheName)
      ensures buckets == ActivatedBuckets(old(buckets))
      ensures waiting == old(waiting)
    {
      names, buckets := DeleteOldCaches(names, buckets);
    }

    /** The `fetch` handler for `request`, with `network` what `fetch(request)` gives: a
        stored response from any bucket is returned as is; otherwise the network response is
        returned, and stored under the request's URL in `CACHE_NAME` when it is cacheable;
        when the network fails, a page load gets the stored `./index.html` (if any) and any
        other request gets nothing. */
    method Fetch(request: Request, network: NetResult) returns (result: Option<Response>)
      requires Valid()
      modifies this
      ensures Valid() && waiting == old(waiting)
      ensures forall n :: n in old(buckets) ==> n in buckets
      ensures var hit := MatchAll(old(names), old(buckets), request.url);
              && (hit.Some? ==> result == hit && unchanged(this))
              && (hit.None? && network.NetFailed? ==>
                    && unchanged(this)
                    && result == (if request.destination == "document"
                                  then MatchAll(names, buckets, "./index.html") else None))
              && (hit.None? && network.Resolved? ==>
                    && result == network.response
                    && (network.response.None? || !Cacheable(network.response.value) ==> unchanged(this))
                    && (network.response.Some? && Cacheable(network.response.value) ==>
                          var bucket0 := if CacheName in old(buckets) then old(buckets)[CacheName] else map[];
                          && buckets == old(buckets)[CacheName := bucket0[request.url := network.response.value]]
                          && names == if CacheName in old(buckets) then old(names) else old(names) + [CacheName]))
    {
      var hit := MatchAll(names, buckets, request.url);
      if hit.Some? {
        return hit;
      }
      if network.NetFailed? {
        if request.destination == "document" {
          result := MatchAll(names, buckets, "./index.html");
        } else {
          result := None;
        }
        return;
      }
      var response := network.response;
      if response.None? || !Cacheable(response.value) {
        return response;
      }
      Open(CacheName);
      buckets := buckets[CacheName := buckets[CacheName][request.url := response.value]];
      result := response;
    }

    /** The `message` handler: only a message whose `data.type` is `"SKIP_WAITING"` calls
        `skipWaiting()`; `messageType` is `None` when the data is missing or has no type. */
    method Message(messageType: Option<string>)
      modifies this
      ensures names == old(names) && buckets == old(buckets)
      ensures waiting == if messageType == Some("SKIP_WAITING") then false else old(waiting)
    {
      if messageType.Some? && messageType.value == "SKIP_WAITING" {
        waiting := false;
      }
    }
  }

  /** After `install` succeeds, `caches.match` finds every asset: in `CACHE_NAME` or in an
      older bucket that already had it. */
  lemma InstalledAssetsMatch(names: seq<string>, buckets: map<string, Bucket>,
                             network: map<string, Response>, a: string)
    requires WellFormed(names, buckets) && AllAssetsOk(network) && a in Assets
    ensures var bucket0 := if CacheName in buckets then buckets[CacheName] else map[];
            var installed := buckets[CacheName := bucket0 + map u | u in Assets :: network[u]];
            var installedNames := if CacheName in buckets then names else names + [CacheName];
            MatchAll(installedNames, installed, a).Some?
  {
  }

  /** After `activate` only `CACHE_NAME` is searched, so a stored response is the one in
      `CACHE_NAME`. */
  lemma ActivatedMatch(names: seq<string>, buckets: map<string, Bucket>, url: string)
    requires WellFormed(names, buckets)
    ensures var b := ActivatedBuckets(buckets);
            MatchAll(KeepOnly(names, CacheName), b, url)
              == if CacheName in buckets && url in buckets[CacheName]
                 then Some(buckets[CacheName][url]) else None
  {
    var kept := KeepOnly(names, CacheName);
    var b := ActivatedBuckets(buckets);
    if CacheName in buckets {
      KeepOnlyDistinct(names, CacheName);
      assert CacheName in kept;
      assert kept[0] in kept;
    }
  }

  lemma {:induction false} KeepOnlyDistinct(names: seq<string>, keep: string)
    requires Distinct(names)
    ensures Distinct(KeepOnly(names, keep))
  {
    if names != [] {
      assert Distinct(names[1..]);
      KeepOnlyDistinct(names[1..], keep);
      assert names[0] !in names[1..];
    }
  }
}
