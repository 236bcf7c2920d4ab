/**
 Properties of the cached resolution: what a miss stores, that failures are not cached,
 that the cache stays consistent with a fresh scan over a fixed candidate sequence and is
 therefore invisible to callers, and what goes wrong when a method name has a dot.
 */
module ResolverProperties {
  import opened Wrappers
  import opened LookupKey
  import opened HandlerMapping
  import opened Resolver

  /** A successful miss adds exactly one entry, the key to the returned handler, and leaves
      every other entry as it was. */
  lemma MissInsertsOneEntry(cands: seq<HandlerMethod>, cache: Cache, lookupPath: string, httpMethod: string)
    requires MethodLookupKey(lookupPath, httpMethod) !in cache
    requires Resolve(cands, cache, lookupPath, httpMethod).outcome.Found?
    ensures var r := Resolve(cands, cache, lookupPath, httpMethod);
      && r.cache.Keys == cache.Keys + {MethodLookupKey(lookupPath, httpMethod)}
      && |r.cache| == |cache| + 1
      && r.outcome == Uncached(cands, lookupPath, httpMethod)
  {
  }

  /** Nothing is cached for a request that finds no handler, so once a matching candidate
      is added, at any position, the same request finds it. */
  lemma NoNegativeCaching(cands: seq<HandlerMethod>, cache: Cache, lookupPath: string, httpMethod: string,
                          extra: HandlerMethod, pos: nat)
    requires pos <= |cands|
    requires Resolve(cands, cache, lookupPath, httpMethod).outcome == NotFound
    requires Examine(extra, lookupPath, httpMethod) == Accepted
    ensures var r := Resolve(cands, cache, lookupPath, httpMethod);
      && r.cache == cache
      && Resolve(cands[..pos] + [extra] + cands[pos..], r.cache, lookupPath, httpMethod).outcome == Found(extra)
  {
    assert Scan(cands, lookupPath, httpMethod).Miss?;
    InsertAfterMiss(cands, extra, pos, lookupPath, httpMethod);
  }

  /** Resolving the same request twice gives the same answer, and the second call changes
      nothing. Holds for any cache and any candidates. */
  lemma ResolveIdempotent(cands: seq<HandlerMethod>, cache: Cache, lookupPath: string, httpMethod: string)
    ensures var r1 := Resolve(cands, cache, lookupPath, httpMethod);
      var r2 := Resolve(cands, r1.cache, lookupPath, httpMethod);
      r2 == Resolution(r1.outcome, r1.cache)
  {
  }

  /** The empty cache, as the resolver starts out, is consistent with any candidates. */
  lemma EmptyCacheSound(cands: seq<HandlerMethod>)
    ensures CacheSound(cands, map[])
  {
  }

  /** For a fixed candidate sequence and a dot-free method name, a consistent cache stays
      consistent after a request. */
  lemma ResolvePreservesSoundness(cands: seq<HandlerMethod>, cache: Cache, lookupPath: string, httpMethod: string)
    requires CacheSound(cands, cache) && SeparatorFree(httpMethod)
    ensures CacheSound(cands, Resolve(cands, cache, lookupPath, httpMethod).cache)
  {
    var key := MethodLookupKey(lookupPath, httpMethod);
    var r := Resolve(cands, cache, lookupPath, httpMethod);
    forall p: string, m: string | SeparatorFree(m) && MethodLookupKey(p, m) in r.cache
      ensures Uncached(cands, p, m) == Found(r.cache[MethodLookupKey(p, m)])
    {
      var k := MethodLookupKey(p, m);
      if k !in cache {
        // the only new key is the request's own, and keys of dot-free methods are unique
        KeyInjective(p, m, lookupPath, httpMethod);
      }
    }
  }

  /** With a consistent cache and a dot-free method name the cache is invisible: the answer
      is what a fresh scan gives. */
  lemma ResolveIsTransparent(cands: seq<HandlerMethod>, cache: Cache, lookupPath: string, httpMethod: string)
    requires CacheSound(cands, cache) && SeparatorFree(httpMethod)
    ensures Resolve(cands, cache, lookupPath, httpMethod).outcome == Uncached(cands, lookupPath, httpMethod)
  {
  }

  /** True iff every request in `reqs` has a dot-free method name. */
  predicate DotFreeRequests(reqs: seq<Request>)
  {
    forall i :: 0 <= i < |reqs| ==> SeparatorFree(reqs[i].httpMethod)
  }

  /** Over any series of dot-free requests against a fixed candidate sequence, starting from
      a consistent cache, every answer is what a fresh scan gives and the cache stays
      consistent. */
  lemma {:induction false} ResolveAllTransparent(cands: seq<HandlerMethod>, cache: Cache, reqs: seq<Request>)
    requires CacheSound(cands, cache) && DotFreeRequests(reqs)
    ensures var t := ResolveAll(cands, cache, reqs);
      && CacheSound(cands, t.cache)
      && forall i :: 0 <= i < |reqs| ==> t.outcomes[i] == Uncached(cands, reqs[i].lookupPath, reqs[i].httpMethod)
    decreases |reqs|
  {
    if |reqs| > 0 {
      var q := reqs[0];
      var r := Resolve(cands, cache, q.lookupPath, q.httpMethod);
      ResolveIsTransparent(cands, cache, q.lookupPath, q.httpMethod);
      ResolvePreservesSoundness(cands, cache, q.lookupPath, q.httpMethod);
      assert DotFreeRequests(reqs[1..]) by {
        forall i | 0 <= i < |reqs[1..]| ensures SeparatorFree(reqs[1..][i].httpMethod) {
          assert reqs[1..][i] == reqs[i + 1];
        }
      }
      ResolveAllTransparent(cands, r.cache, reqs[1..]);
      var t := ResolveAll(cands, cache, reqs);
      var rest := ResolveAll(cands, r.cache, reqs[1..]);
      forall i | 0 <= i < |reqs|
        ensures t.outcomes[i] == Uncached(cands, reqs[i].lookupPath, reqs[i].httpMethod)
      {
        if i > 0 {
          assert t.outcomes[i] == rest.outcomes[i - 1];
          assert reqs[i] == reqs[1..][i - 1];
        }
      }
    }
  }

  /** A method name with a dot breaks the cache: after ("/a.b", "c") is resolved, the
      request ("/a", "b.c") hits that entry and gets a handler whose path is not "/a",
      although a fresh scan finds none. */
  lemma StaleHitOnDottedMethod()
    ensures var cands := [HandlerMethod("page", Some(RequestMapping(["/a.b"], [])))];
      var r1 := Resolve(cands, map[], "/a.b", "c");
      var r2 := Resolve(cands, r1.cache, "/a", "b.c");
      && r1.outcome == Found(cands[0])
      && r2.outcome == Found(cands[0])
      && Uncached(cands, "/a", "b.c") == NotFound
  {
    var cands := [HandlerMethod("page", Some(RequestMapping(["/a.b"], [])))];
    assert Examine(cands[0], "/a.b", "c") == Accepted;
    ScanStopsAt(cands, "/a.b", "c", 0);
    KeyCollision();
    assert Examine(cands[0], "/a", "b.c") == Skipped;
    ScanStopsAt(cands, "/a", "b.c", 1);
  }

  /** Two handlers share a path and differ in verb: POST resolves to the second and is
      cached under "/orders.POST"; DELETE finds none and the cache is left as it was. */
  lemma OrdersScenario()
    ensures var get := HandlerMethod("list", Some(RequestMapping(["/orders"], ["GET"])));
      var post := HandlerMethod("create", Some(RequestMapping(["/orders"], ["POST"])));
      var cands := [get, post];
      var r1 := Resolve(cands, map[], "/orders", "POST");
      var r2 := Resolve(cands, r1.cache, "/orders", "DELETE");
      && r1 == Resolution(Found(post), map["/orders.POST" := post])
      && r2 == Resolution(NotFound, r1.cache)
  {
    var get := HandlerMethod("list", Some(RequestMapping(["/orders"], ["GET"])));
    var post := HandlerMethod("create", Some(RequestMapping(["/orders"], ["POST"])));
    var cands := [get, post];
    assert Examine(get, "/orders", "POST") == Skipped;
    assert Examine(post, "/orders", "POST") == Accepted;
    ScanStopsAt(cands, "/orders", "POST", 1);
    assert MethodLookupKey("/orders", "POST") == "/orders.POST";
    assert Examine(get, "/orders", "DELETE") == Skipped;
    assert Examine(post, "/orders", "DELETE") == Skipped;
    ScanStopsAt(cands, "/orders", "DELETE", 2);
    assert MethodLookupKey("/orders", "DELETE") != "/orders.POST" by {
      assert MethodLookupKey("/orders", "DELETE")[8] == 'D';
    }
  }
}
