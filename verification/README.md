# Handler-method resolution cache of the Impala MVC extension

This project models the core of `AnnotationHandlerMethodResolver` in Dafny. That class resolves a
web request to the handler method of an annotated controller, and it caches the answer.

A request is a lookup path and an HTTP method name. Resolution has two steps:

1. Build the cache key: the lookup path, a `.`, then the method name. If the key is cached, return the
   cached handler. The candidates are not looked at again.
2. Otherwise scan the candidate handler methods in order. A candidate matches when both hold:
   - the first path literal of its `RequestMapping` equals the lookup path exactly;
   - its verb list is empty, or it lists the request method (case-sensitive).

   The first match is stored under the key and returned. When nothing matches, nothing is stored and
   the answer is "none". A candidate without a mapping, or whose mapping has no path literal, makes
   the scan fail when the scan reaches it. A failure stores nothing either.

Modules:

- `Wrappers` holds `Option`, which stands in for a nullable reference.
- `LookupKey` builds the cache key. It proves the key is injective when method names contain no dot.
- `HandlerMapping` holds the candidate records (`HandlerMethod`, `RequestMapping`) and the
  examination of one candidate. It also holds `Scan`, the recursive reference scan, and its lemmas:
  first match wins, verb filtering, and first path literal only.
- `Resolver` holds the cache, the functional `Resolve`, and the request-series function
  `ResolveAll`, whose contract states that the cache only grows. It also holds `GetHandlerMethod` and `ResolveHandlerMethod`, two methods that follow
  the original's control flow. Both are proved to agree with the functional model.
- `ResolverProperties` proves the cache properties.
  - Exactly one insertion on a successful miss.
  - No caching of misses or failures.
  - Idempotence.
  - Consistency: every entry equals what a fresh scan gives, for a fixed candidate sequence. As a
    result, the cache is invisible to callers.

Nothing in `resolveHandlerMethod` (lines 95-107) stops a lookup path from containing a dot
(`/foo.htm`), so the key identifies its request only when the method name
has no dot. Every standard HTTP method name meets this condition. The consistency lemmas assume
it. `StaleHitOnDottedMethod` shows what happens without it. First `("/a.b", "c")` is resolved and
cached. Then `("/a", "b.c")` hits that entry and gets a handler whose path is not `/a`.

A misconfigured candidate makes the code throw. With no mapping, it throws a
`NullPointerException` at line 114. With an empty `value()`, it throws an
`ArrayIndexOutOfBoundsException` at line 116. The model returns `Failed(MissingMapping)` or
`Failed(NoPathValue)` in those cases. The exception is raised only when the scan reaches the bad
candidate, so the model treats it as an error outcome and does not exclude it with a precondition.
`WellFormedNeverFaults` states the precondition form: if every candidate is well formed, no failure
can happen.

I/O is replaced by parameters:
- The request's lookup path and method are plain strings. The original computes the path with
  `UrlPathHelper`.
- The candidates arrive as a sequence, in the order the original's metadata set happens to be
  iterated.
- The cache is passed in and returned as a `map`.

## Model

| member | source | states |
|---|---|---|
| LookupKey.MethodLookupKey | impala-extension-mvc/src/org/impalaframework/extension/mvc/annotation/handler/AnnotationHandlerMethodResolver.java:98 | the key is the lookup path, then the separator, then the method name, and each part can be recovered by position |
| LookupKey.KeyInjective | impala-extension-mvc/src/org/impalaframework/extension/mvc/annotation/handler/AnnotationHandlerMethodResolver.java:97-98 | for dot-free method names, two keys are equal exactly when path and method are both equal, even when paths contain dots |
| LookupKey.KeyCollision | impala-extension-mvc/src/org/impalaframework/extension/mvc/annotation/handler/AnnotationHandlerMethodResolver.java:98 | without that condition, different requests share a key: ("/a", "b.c") and ("/a.b", "c") |
| HandlerMapping.Examine | impala-extension-mvc/src/org/impalaframework/extension/mvc/annotation/handler/AnnotationHandlerMethodResolver.java:113-129 | a candidate fails exactly when it has no mapping or no path literal, with the missing mapping told apart; it is accepted exactly when it is well formed, its first path literal equals the lookup path and its verb list accepts the method |
| HandlerMapping.Scan | impala-extension-mvc/src/org/impalaframework/extension/mvc/annotation/handler/AnnotationHandlerMethodResolver.java:112-133 | a hit is at an accepting candidate with every earlier one skipped; a fault is at the first candidate that cannot be examined; a miss means every candidate was skipped |
| HandlerMapping.ScanStopsAt | impala-extension-mvc/src/org/impalaframework/extension/mvc/annotation/handler/AnnotationHandlerMethodResolver.java:112-133 | conversely, once every candidate before i is skipped, candidate i decides the answer: hit, fault, or miss at the end |
| HandlerMapping.FirstMatchWins | impala-extension-mvc/src/org/impalaframework/extension/mvc/annotation/handler/AnnotationHandlerMethodResolver.java:112-131 | if any candidate accepts, the scan does not miss, and a hit is at or before every accepting candidate, so later matches are never returned |
| HandlerMapping.FirstPathLiteralOnly | impala-extension-mvc/src/org/impalaframework/extension/mvc/annotation/handler/AnnotationHandlerMethodResolver.java:114-116 | only the first path literal is compared: replacing later literals changes nothing, and a different first literal means the candidate is skipped |
| HandlerMapping.VerbFiltering | impala-extension-mvc/src/org/impalaframework/extension/mvc/annotation/handler/AnnotationHandlerMethodResolver.java:118-129 | with the path matching, a non-empty verb list accepts exactly the listed method names, and an empty list accepts every method |
| HandlerMapping.WellFormedNeverFaults | impala-extension-mvc/src/org/impalaframework/extension/mvc/annotation/handler/AnnotationHandlerMethodResolver.java:113-116 | when every candidate has a mapping with at least one path literal, the scan never fails |
| HandlerMapping.InsertAfterMiss | impala-extension-mvc/src/org/impalaframework/extension/mvc/annotation/handler/AnnotationHandlerMethodResolver.java:112-133 | after a miss, inserting an accepting candidate at any position makes the scan hit exactly that position, so a changed candidate set is rescanned afresh |
| Resolver.Uncached | impala-extension-mvc/src/org/impalaframework/extension/mvc/annotation/handler/AnnotationHandlerMethodResolver.java:112-133 | the answer of a scan with no cache in front, decided by the first candidate that is not skipped: a found handler is the first accepting candidate, a failure is the fault of a broken candidate reached before any match, and none is found exactly when every candidate is skipped |
| Resolver.Resolve | impala-extension-mvc/src/org/impalaframework/extension/mvc/annotation/handler/AnnotationHandlerMethodResolver.java:95-133 | a hit returns the cached handler with the cache unchanged; a miss answers what a fresh scan answers; the cache only grows, by at most the request's key; a found handler is cached under the key; no other result changes the cache |
| Resolver.GetHandlerMethod | impala-extension-mvc/src/org/impalaframework/extension/mvc/annotation/handler/AnnotationHandlerMethodResolver.java:109-134 | the nested candidate and verb loops answer what the reference scan answers; they store the handler under the given key on success and otherwise leave the cache alone |
| Resolver.ResolveHandlerMethod | impala-extension-mvc/src/org/impalaframework/extension/mvc/annotation/handler/AnnotationHandlerMethodResolver.java:95-107 | key construction, cache lookup and fallback to the scan give the same answer and cache as the functional model |
| Resolver.ResolveAll | impala-extension-mvc/src/org/impalaframework/extension/mvc/annotation/handler/AnnotationHandlerMethodResolver.java:48-133 | a series of requests on one resolver, each seeing the cache the previous left: one answer per request, no entry is ever removed or overwritten, and every request that found a handler leaves its key in the final cache, mapped to the handler it found |
| ResolverProperties.MissInsertsOneEntry | impala-extension-mvc/src/org/impalaframework/extension/mvc/annotation/handler/AnnotationHandlerMethodResolver.java:122-127 | a successful miss adds exactly the request's key, so the cache grows by one, and returns the fresh-scan answer |
| ResolverProperties.NoNegativeCaching | impala-extension-mvc/src/org/impalaframework/extension/mvc/annotation/handler/AnnotationHandlerMethodResolver.java:100-133 | a request that finds nothing leaves the cache unchanged, and once a matching candidate is inserted at any position the same request finds it |
| ResolverProperties.ResolveIdempotent | impala-extension-mvc/src/org/impalaframework/extension/mvc/annotation/handler/AnnotationHandlerMethodResolver.java:100-133 | resolving the same request twice gives the same answer, and the second call leaves the cache as the first left it |
| ResolverProperties.EmptyCacheSound | impala-extension-mvc/src/org/impalaframework/extension/mvc/annotation/handler/AnnotationHandlerMethodResolver.java:48 | the empty cache the resolver starts with is consistent with any candidates |
| ResolverProperties.ResolvePreservesSoundness | impala-extension-mvc/src/org/impalaframework/extension/mvc/annotation/handler/AnnotationHandlerMethodResolver.java:97-127 | for fixed candidates and a dot-free method name, a request keeps every entry equal to what a fresh scan gives for its request |
| ResolverProperties.ResolveIsTransparent | impala-extension-mvc/src/org/impalaframework/extension/mvc/annotation/handler/AnnotationHandlerMethodResolver.java:100-106 | with a consistent cache and a dot-free method name, the cached answer equals a fresh scan's |
| ResolverProperties.ResolveAllTransparent | impala-extension-mvc/src/org/impalaframework/extension/mvc/annotation/handler/AnnotationHandlerMethodResolver.java:95-133 | over any series of dot-free requests on fixed candidates from a consistent cache, every answer equals a fresh scan's and the cache stays consistent |
| ResolverProperties.StaleHitOnDottedMethod | impala-extension-mvc/src/org/impalaframework/extension/mvc/annotation/handler/AnnotationHandlerMethodResolver.java:97-106 | with a dotted method name, a cache hit returns a handler where a fresh scan returns none |
| ResolverProperties.OrdersScenario | impala-extension-mvc/src/org/impalaframework/extension/mvc/annotation/handler/AnnotationHandlerMethodResolver.java:112-133 | with GET and POST handlers on one path, POST resolves to the second and is cached under "/orders.POST"; DELETE finds none and stores nothing |

## Left out

- `init()` and `getHandlerAnnotations()` are left out. They use Java reflection to collect the
  class-level annotations that carry the `Handler` meta-annotation, and they have no part in
  resolution.
- `getHandlerMethods()`, `getModelAttributeMethods()` and `hasHandlerMethods()` are left out. They
  pass through to Spring's `HandlerMethodResolver`. The model takes the candidate list as a
  parameter and fixes its order as a sequence. The original iterates a `Set` whose order is
  unspecified.
- `UrlPathHelper.getLookupPathForRequest` and `HttpServletRequest` are library code that is not
  part of this model. The lookup path and the method name are plain string inputs.
- `AnnotationUtils.findAnnotation` is reflection. It is replaced by the candidate's `mapping` field.
- The `ConcurrentHashMap` and its concurrent redundant writes are left out. The cache is modelled
  sequentially as a value passed in and returned.
- The `method != null` test is left out. Annotation arrays are never null, so an empty verb list
  covers that case.
- `RequestMethod` enum values appear as their `toString()` names. Which names the enum defines is
  not modelled.
- The exception types and messages are left out. They appear only as the two `Fault` values.
