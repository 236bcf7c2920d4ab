/**
 Candidate handler methods and the linear scan that picks the handler for a request.

 A candidate carries the `RequestMapping` annotation found on it, if any: its path
 literals (`value()`) and the names of the HTTP methods it accepts (`method()`). The scan
 walks the candidates in order and stops at the first one whose FIRST path literal equals
 the lookup path and whose verb list is empty or contains the request method. A
 candidate without a mapping, or whose mapping has no path literal, makes the scan fail
 when it is reached.
 */
module HandlerMapping {
  import opened Wrappers

  /** The mapping annotation of a handler method. */
  datatype RequestMapping = RequestMapping(paths: seq<string>, verbs: seq<string>)

  /** A candidate handler method: an opaque identity and its mapping annotation, if present. */
  datatype HandlerMethod = HandlerMethod(id: string, mapping: Option<RequestMapping>)

  /** Why a candidate could not be examined: no mapping annotation (a null dereference in
      the original), or a mapping with no path literal (an index out of bounds). */
  datatype Fault = MissingMapping | NoPathValue

  /** What examining one candidate against a request yields. */
  datatype Verdict = Broken(fault: Fault) | Accepted | Skipped

  /** True iff the candidate can be examined without a fault. */
  predicate WellFormed(h: HandlerMethod)
  {
    h.mapping.Some? && |h.mapping.value.paths| > 0
  }

  /** An empty verb list accepts every method; otherwise the method must be listed,
      compared case-sensitively. */
  predicate AcceptsVerb(verbs: seq<string>, httpMethod: string)
  {
    |verbs| == 0 || httpMethod in verbs
  }

  /** Examines one candidate: only the first path literal is compared with the lookup path. */
  function Examine(h: HandlerMethod, lookupPath: string, httpMethod: string): (v: Verdict)
    ensures v.Broken? <==> !WellFormed(h)
    ensures v == Broken(MissingMapping) <==> h.mapping.None?
    ensures v == Accepted <==>
      WellFormed(h) && h.mapping.value.paths[0] == lookupPath && AcceptsVerb(h.mapping.value.verbs, httpMethod)
  {
    match h.mapping
    case None => Broken(MissingMapping)
    case Some(rm) =>
      if |rm.paths| == 0 then Broken(NoPathValue)
      else if rm.paths[0] == lookupPath && AcceptsVerb(rm.verbs, httpMethod) then Accepted
      else Skipped
  }

  /** Every candidate before position `i` was examined and passed over. */
  predicate SkippedBefore(cands: seq<HandlerMethod>, lookupPath: string, httpMethod: string, i: nat)
    requires i <= |cands|
  {
    forall j :: 0 <= j < i ==> Examine(cands[j], lookupPath, httpMethod) == Skipped
  }

  /** Where the scan stopped: at a matching candidate, at the end, or at a broken candidate. */
  datatype ScanResult = Hit(index: nat) | Miss | Fault(index: nat, fault: Fault)

  /** Moves a result of scanning a suffix to the positions of the whole sequence. */
  function Shift(r: ScanResult): ScanResult
  {
    match r
    case Hit(i) => Hit(i + 1)
    case Miss => Miss
    case Fault(i, f) => Fault(i + 1, f)
  }

  /** The scan in candidate order, stopping at the first candidate that is not skipped. */
  function Scan(cands: seq<HandlerMethod>, lookupPath: string, httpMethod: string): (r: ScanResult)
    ensures r.Hit? ==>
      && r.index < |cands|
      && Examine(cands[r.index], lookupPath, httpMethod) == Accepted
      && SkippedBefore(cands, lookupPath, httpMethod, r.index)
    ensures r.Fault? ==>
      && r.index < |cands|
      && Examine(cands[r.index], lookupPath, httpMethod) == Broken(r.fault)
      && SkippedBefore(cands, lookupPath, httpMethod, r.index)
    ensures r.Miss? ==> SkippedBefore(cands, lookupPath, httpMethod, |cands|)
    decreases |cands|
  {
    if |cands| == 0 then Miss
    else
      match Examine(cands[0], lookupPath, httpMethod)
      case Broken(f) => Fault(0, f)
      case Accepted => Hit(0)
      case Skipped => Shift(Scan(cands[1..], lookupPath, httpMethod))
  }

  /** The converse of `Scan`'s contract: once every candidate before `i` is skipped, the
      scan's answer is decided by candidate `i` (or is a miss when there is none). */
  lemma ScanStopsAt(cands: seq<HandlerMethod>, lookupPath: string, httpMethod: string, i: nat)
    requires i <= |cands| && SkippedBefore(cands, lookupPath, httpMethod, i)
    ensures i == |cands| ==> Scan(cands, lookupPath, httpMethod) == Miss
    ensures i < |cands| && Examine(cands[i], lookupPath, httpMethod) == Accepted ==>
      Scan(cands, lookupPath, httpMethod) == Hit(i)
    ensures i < |cands| && Examine(cands[i], lookupPath, httpMethod).Broken? ==>
      Scan(cands, lookupPath, httpMethod) == Fault(i, Examine(cands[i], lookupPath, httpMethod).fault)
  {
    var r := Scan(cands, lookupPath, httpMethod);
    if i < |cands| && !Examine(cands[i], lookupPath, httpMethod).Skipped? {
      // r cannot stop before i (those were skipped) nor after it (i was not)
      assert !r.Miss?;
      assert r.index == i;
    }
  }

  /** First match wins: a hit is at the earliest accepting candidate, and no later
      accepting candidate is ever returned. */
  lemma FirstMatchWins(cands: seq<HandlerMethod>, lookupPath: string, httpMethod: string, j: nat)
    requires j < |cands| && Examine(cands[j], lookupPath, httpMethod) == Accepted
    ensures Scan(cands, lookupPath, httpMethod).Hit? ==> Scan(cands, lookupPath, httpMethod).index <= j
    ensures !Scan(cands, lookupPath, httpMethod).Miss?
  {
  }

  /** Only the first path literal counts: later literals never make a candidate match,
      and replacing them changes nothing. */
  lemma FirstPathLiteralOnly(id: string, first: string, rest: seq<string>, rest': seq<string>,
                             verbs: seq<string>, lookupPath: string, httpMethod: string)
    ensures var h := HandlerMethod(id, Some(RequestMapping([first] + rest, verbs)));
      var h' := HandlerMethod(id, Some(RequestMapping([first] + rest', verbs)));
      && Examine(h, lookupPath, httpMethod) == Examine(h', lookupPath, httpMethod)
      && (first != lookupPath ==> Examine(h, lookupPath, httpMethod) == Skipped)
  {
  }

  /** Verb filtering: with a non-empty verb list a candidate whose path matches is accepted
      exactly when the method is listed; with an empty list it is accepted for every method. */
  lemma VerbFiltering(h: HandlerMethod, lookupPath: string, httpMethod: string)
    requires WellFormed(h) && h.mapping.value.paths[0] == lookupPath
    ensures |h.mapping.value.verbs| > 0 ==>
      (Examine(h, lookupPath, httpMethod) == Accepted <==>
       exists k :: 0 <= k < |h.mapping.value.verbs| && h.mapping.value.verbs[k] == httpMethod)
    ensures |h.mapping.value.verbs| == 0 ==> Examine(h, lookupPath, httpMethod) == Accepted
  {
  }

  /** When every candidate is well-formed (has a mapping with at least one path literal)
      the scan never fails. */
  lemma WellFormedNeverFaults(cands: seq<HandlerMethod>, lookupPath: string, httpMethod: string)
    requires forall k :: 0 <= k < |cands| ==> WellFormed(cands[k])
    ensures !Scan(cands, lookupPath, httpMethod).Fault?
  {
  }

  /** A scan that missed, repeated after an accepting candidate is inserted at any position,
      finds that candidate: nothing about the earlier miss is remembered. */
  lemma InsertAfterMiss(cands: seq<HandlerMethod>, extra: HandlerMethod, pos: nat,
                        lookupPath: string, httpMethod: string)
    requires pos <= |cands|
    requires Scan(cands, lookupPath, httpMethod).Miss?
    requires Examine(extra, lookupPath, httpMethod) == Accepted
    ensures Scan(cands[..pos] + [extra] + cands[pos..], lookupPath, httpMethod) == Hit(pos)
  {
    var all := cands[..pos] + [extra] + cands[pos..];
    assert SkippedBefore(all, lookupPath, httpMethod, pos) by {
      forall j | 0 <= j < pos
        ensures Examine(all[j], lookupPath, httpMethod) == Skipped
      {
        assert all[j] == cands[j];
      }
    }
    assert all[pos] == extra;
    ScanStopsAt(all, lookupPath, httpMethod, pos);
  }
}
