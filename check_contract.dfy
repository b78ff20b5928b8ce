/**
 * What a plugin's check is to the engine: a named generator that is handed
 * the service's cache and the run context and yields findings until it is
 * exhausted or raises. Its whole run is described by one value: the findings
 * it yielded, the cache entries it wrote, and how it ended.
 */
module CheckContract {
  import opened Findings

  /** A cached SDK response (a dict); only its truthiness matters to the engine. */
  datatype Response = Response(fields: map<string, string>)

  /** `if response:` on a dict: only the empty dict is falsy. */
  predicate Truthy(v: Response)
  {
    v.fields != map[]
  }

  /** The contents of a per-service `auditor_cache` dict. */
  type CacheMap = map<string, Response>

  /** The keyword arguments every check receives besides the cache. */
  datatype RunContext = RunContext(awsAccountId: string, awsRegion: string, awsPartition: string)

  /** How a check's generator ended: exhausted normally, or raised an exception. */
  datatype Outcome = Exhausted | Raised(error: string)

  /**
   * One complete run of a check: the findings it yielded, in order, up to the
   * point where it stopped; the cache entries it wrote meanwhile; and how it
   * stopped. Checks only add or overwrite cache entries, never delete them.
   */
  datatype CheckRun = CheckRun(findings: seq<Finding>, writes: CacheMap, outcome: Outcome)

  /** A decorated check function: its `__name__` and its behaviour. */
  datatype Check = Check(name: string, behaviour: (CacheMap, RunContext) -> CheckRun)

  /** The shared memo helper of the auditors: what it returns and the cache after it. */
  datatype MemoResult = MemoResult(value: Response, cache: CacheMap)

  /**
   * `cache.get(key)`, returned when truthy; otherwise `fetched` (the SDK
   * call's answer) is stored under `key` and returned. A falsy cached value is
   * fetched again.
   */
  function Memo(cache: CacheMap, key: string, fetched: Response): (r: MemoResult)
    ensures r.cache.Keys == cache.Keys + {key}
    ensures forall k :: k in cache && k != key ==> r.cache[k] == cache[k]
    ensures r.cache[key] == r.value
    ensures key in cache && Truthy(cache[key]) ==> r.value == cache[key] && r.cache == cache
    ensures !(key in cache && Truthy(cache[key])) ==> r.value == fetched
  {
    if key in cache && Truthy(cache[key]) then MemoResult(cache[key], cache)
    else MemoResult(fetched, cache[key := fetched])
  }

  /** Once a truthy value is memoised, every later lookup returns it, whatever a fetch would answer. */
  lemma MemoTwice(cache: CacheMap, key: string, first: Response, second: Response)
    requires Truthy(first)
    ensures Memo(Memo(cache, key, first).cache, key, second) == Memo(cache, key, first)
  {
  }

  /**
   * The `auditor_cache` dict object that run_checks allocates for one service
   * and passes, by reference, to each of that service's checks.
   */
  class AuditorCache {
    var entries: CacheMap

    constructor ()
      ensures entries == map[]
    {
      entries := map[];
    }
  }
}
