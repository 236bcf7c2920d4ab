/**
 The resolver: a cache from lookup keys to handler methods in front of the linear scan.

 A request whose key is cached gets the cached handler at once, without looking at the
 candidates again. Otherwise the candidates are scanned; a found handler is stored under
 the key, while "not found" and failures are never stored.

 `Resolve` is the functional model; `ResolveHandlerMethod` and `GetHandlerMethod` follow
 the loops of the original and are proved to agree with it.
 */
module Resolver {
  import opened LookupKey
  import opened HandlerMapping

  /** The resolution cache, from `MethodLookupKey` to the handler found for it. */
  type Cache = map<string, HandlerMethod>

  /** The answer to one request: a handler, none (a null return), or a failure (an exception). */
  datatype Outcome = Found(handler: HandlerMethod) | NotFound | Failed(fault: Fault)

  /** The answer together with the cache after the request. */
  datatype Resolution = Resolution(outcome: Outcome, cache: Cache)

  /** What a scan of the candidates alone answers, with no cache in front of it. */
  function Uncached(cands: seq<HandlerMethod>, lookupPath: string, httpMethod: string): (r: Outcome)
    // the answer is decided by the first candidate that is not skipped: a found handler is
    // the first accepting one, a failure is the fault of a broken one reached before any
    // match, and none is found only if every candidate is skipped
    ensures r.Found? ==>
      exists i :: (0 <= i < |cands| && cands[i] == r.handler
        && Examine(cands[i], lookupPath, httpMethod) == Accepted
        && SkippedBefore(cands, lookupPath, httpMethod, i))
    ensures r == NotFound <==>
      forall j :: 0 <= j < |cands| ==> Examine(cands[j], lookupPath, httpMethod) == Skipped
    ensures r.Failed? ==>
      exists i :: (0 <= i < |cands|
        && Examine(cands[i], lookupPath, httpMethod) == Broken(r.fault)
        && SkippedBefore(cands, lookupPath, httpMethod, i))
  {
    match Scan(cands, lookupPath, httpMethod)
    case Hit(i) => Found(cands[i])
    case Miss => NotFound
    case Fault(_, f) => Failed(f)
  }

  /** Every cached entry is what a fresh scan of `cands` answers for its request. Stated for
      method names without a dot, the ones for which a key names exactly one request. */
  ghost predicate CacheSound(cands: seq<HandlerMethod>, cache: Cache)
  {
    forall lookupPath: string, httpMethod: string ::
      SeparatorFree(httpMethod) && MethodLookupKey(lookupPath, httpMethod) in cache ==>
        Uncached(cands, lookupPath, httpMethod) == Found(cache[MethodLookupKey(lookupPath, httpMethod)])
  }

  /** Every entry of `small` is in `large` with the same handler. */
  predicate Extends(large: Cache, small: Cache)
  {
    forall k :: k in small ==> k in large && large[k] == small[k]
  }

  /** Resolves one request against the candidates and the cache. */
  function Resolve(cands: seq<HandlerMethod>, cache: Cache, lookupPath: string, httpMethod: string): (r: Resolution)
    // a hit returns the cached handler and leaves the cache alone
    ensures MethodLookupKey(lookupPath, httpMethod) in cache ==>
      r == Resolution(Found(cache[MethodLookupKey(lookupPath, httpMethod)]), cache)
    // a miss answers what a fresh scan answers
    ensures MethodLookupKey(lookupPath, httpMethod) !in cache ==>
      r.outcome == Uncached(cands, lookupPath, httpMethod)
    // the cache only grows, by at most the request's own key
    ensures Extends(r.cache, cache)
    ensures r.cache.Keys <= cache.Keys + {MethodLookupKey(lookupPath, httpMethod)}
    // a found handler is cached under the key; nothing else is ever stored
    ensures r.outcome.Found? ==>
      MethodLookupKey(lookupPath, httpMethod) in r.cache
      && r.cache[MethodLookupKey(lookupPath, httpMethod)] == r.outcome.handler
    ensures !r.outcome.Found? ==> r.cache == cache
  {
    var key := MethodLookupKey(lookupPath, httpMethod);
    if key in cache then Resolution(Found(cache[key]), cache)
    else
      match Uncached(cands, lookupPath, httpMethod)
      case Found(h) => Resolution(Found(h), cache[key := h])
      case NotFound => Resolution(NotFound, cache)
      case Failed(f) => Resolution(Failed(f), cache)
  }

  /** The scan of the original, loop for loop: the outer loop over the candidates and the
      inner loop over a candidate's verbs. A found handler is stored under `methodLookupPath`. */
  method GetHandlerMethod(cands: seq<HandlerMethod>, cache: Cache, lookupPath: string,
                          methodLookupPath: string, httpMethod: string)
    returns (outcome: Outcome, cache': Cache)
    ensures outcome == Uncached(cands, lookupPath, httpMethod)
    ensures outcome.Found? ==> cache' == cache[methodLookupPath := outcome.handler]
    ensures !outcome.Found? ==> cache' == cache
  {
    var i := 0;
    while i < |cands|
      invariant i <= |cands|
      invariant SkippedBefore(cands, lookupPath, httpMethod, i)
    {
      var handlerMethod := cands[i];
      ScanStopsAt(cands, lookupPath, httpMethod, i);
      if handlerMethod.mapping.None? {
        return Failed(MissingMapping), cache;
      }
      var mapping := handlerMethod.mapping.value;
      if |mapping.paths| == 0 {
        return Failed(NoPathValue), cache;
      }
      if mapping.paths[0] == lookupPath {
        if |mapping.verbs| > 0 {
          var v := 0;
          while v < |mapping.verbs|
            invariant v <= |mapping.verbs|
            invariant forall k :: 0 <= k < v ==> mapping.verbs[k] != httpMethod
          {
            if httpMethod == mapping.verbs[v] {
              return Found(handlerMethod), cache[methodLookupPath := handlerMethod];
            }
            v := v + 1;
          }
        } else {
          return Found(handlerMethod), cache[methodLookupPath := handlerMethod];
        }
      }
      i := i + 1;
    }
    ScanStopsAt(cands, lookupPath, httpMethod, i);
    return NotFound, cache;
  }

  /** The entry point of the original: build the key, answer from the cache on a hit,
      otherwise scan. Agrees with `Resolve` on every input. */
  method ResolveHandlerMethod(cands: seq<HandlerMethod>, cache: Cache, lookupPath: string, httpMethod: string)
    returns (outcome: Outcome, cache': Cache)
    ensures Resolution(outcome, cache') == Resolve(cands, cache, lookupPath, httpMethod)
  {
    var methodLookupPath := MethodLookupKey(lookupPath, httpMethod);
    if methodLookupPath in cache {
      outcome, cache' := Found(cache[methodLookupPath]), cache;
    } else {
      outcome, cache' := GetHandlerMethod(cands, cache, lookupPath, methodLookupPath, httpMethod);
    }
  }

  /** A request for a particular path and method. */
  datatype Request = Request(lookupPath: string, httpMethod: string)

  /** The answers to a series of requests, and the cache after the last one. */
  datatype Trace = Trace(outcomes: seq<Outcome>, cache: Cache)

  /** Resolves `reqs` in order, each request seeing the cache the previous one left. */
  function ResolveAll(cands: seq<HandlerMethod>, cache: Cache, reqs: seq<Request>): (t: Trace)
    ensures |t.outcomes| == |reqs|
    // the cache only grows: no entry is removed or overwritten
    ensures Extends(t.cache, cache)
    // every request that found a handler left its key in the final cache
    ensures forall i :: 0 <= i < |reqs| && t.outcomes[i].Found? ==>
      && MethodLookupKey(reqs[i].lookupPath, reqs[i].httpMethod) in t.cache
      && t.cache[MethodLookupKey(reqs[i].lookupPath, reqs[i].httpMethod)] == t.outcomes[i].handler
    decreases |reqs|
  {
    if |reqs| == 0 then Trace([], cache)
    else
      var r := Resolve(cands, cache, reqs[0].lookupPath, reqs[0].httpMethod);
      var rest := ResolveAll(cands, r.cache, reqs[1..]);
      Trace([r.outcome] + rest.outcomes, rest.cache)
  }
}
