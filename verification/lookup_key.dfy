/**
 The cache key of the resolver: the lookup path, a dot, and the HTTP method name
 (`lookupPath + "." + request.getMethod()`).

 Lookup paths may themselves contain dots (`/foo.htm`), so the key identifies the
 (path, method) pair only when the method name has no dot. `KeyInjective` proves that
 this suffices; `KeyCollision` shows the key is not injective without it.
 */
module LookupKey {

  /** The character placed between the lookup path and the method name. */
  const Separator: char := '.'

  /** The key under which a resolution for (`lookupPath`, `httpMethod`) is cached: the path,
      then the separator, then the method name, each recoverable by position. */
  function MethodLookupKey(lookupPath: string, httpMethod: string): (k: string)
    ensures |k| == |lookupPath| + 1 + |httpMethod|
    ensures k[..|lookupPath|] == lookupPath
    ensures k[|lookupPath|] == Separator
    ensures k[|lookupPath| + 1..] == httpMethod
  {
    var k := lookupPath + [Separator] + httpMethod;
    assert k[..|lookupPath|] == lookupPath;
    assert k[|lookupPath| + 1..] == httpMethod;
    k
  }

  /** True iff `s` contains no separator; every standard HTTP method name qualifies. */
  predicate SeparatorFree(s: string)
  {
    Separator !in s
  }

  /** Distinct (path, method) pairs give distinct keys when neither method name has a dot,
      even if the paths contain dots. */
  lemma KeyInjective(p1: string, m1: string, p2: string, m2: string)
    requires SeparatorFree(m1) && SeparatorFree(m2)
    ensures MethodLookupKey(p1, m1) == MethodLookupKey(p2, m2) <==> p1 == p2 && m1 == m2
  {
    // a separator after the longer path would lie inside the other method name,
    // so the separators line up and the parts agree by MethodLookupKey's layout
  }

  /** Without the dot-free condition two different requests share a key. */
  lemma KeyCollision()
    ensures MethodLookupKey("/a", "b.c") == MethodLookupKey("/a.b", "c")
  {
  }
}
