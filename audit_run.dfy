/**
 * What `SBAuditor.run_checks` does, as functions of the registry: which checks
 * are invoked, in which order, with which cache contents, and which findings
 * come out. The method in module Auditor is proved to produce exactly these.
 */
module AuditRun {
  import opened Wrappers
  import opened OrderedMap
  import opened Findings
  import opened CheckContract
  import opened CheckRegistry

  /**
   * `not requested_check_name or requested_check_name and requested_check_name == check_name`:
   * None and "" select every check; any other name selects the checks of that name.
   */
  predicate Selected(requested: Option<string>, name: string)
  {
    Falsy(requested) || (!Falsy(requested) && requested.value == name)
  }

  /** One invocation of a check: where it was registered, the cache it saw, what it did. */
  datatype Call = Call(service: string, check: string, cacheIn: CacheMap, run: CheckRun)

  /**
   * The invocations made for one service, walking its checks in order with the
   * service's cache, which starts as `cache` and collects what each check writes.
   */
  function ServiceCalls(service: string, checks: Dict<Check>, cache: CacheMap,
                        requested: Option<string>, ctx: RunContext): seq<Call>
    decreases |checks|
  {
    if checks == [] then []
    else if Selected(requested, checks[0].0) then
      var run := checks[0].1.behaviour(cache, ctx);
      [Call(service, checks[0].0, cache, run)]
        + ServiceCalls(service, checks[1..], cache + run.writes, requested, ctx)
    else ServiceCalls(service, checks[1..], cache, requested, ctx)
  }

  /** The invocations of a whole run: service by service, each from an empty cache. */
  function AllCalls(reg: Registry, requested: Option<string>, ctx: RunContext): seq<Call>
    decreases |reg|
  {
    if reg == [] then []
    else ServiceCalls(reg[0].0, reg[0].1, map[], requested, ctx) + AllCalls(reg[1..], requested, ctx)
  }

  /** The yielded findings: every invocation's findings, in invocation order. */
  function Output(calls: seq<Call>): seq<Finding>
  {
    if calls == [] then [] else calls[0].run.findings + Output(calls[1..])
  }

  /** The names of the checks that raised, in order (one log line each). */
  function FailedChecks(calls: seq<Call>): seq<string>
  {
    if calls == [] then []
    else (if calls[0].run.outcome.Raised? then [calls[0].check] else []) + FailedChecks(calls[1..])
  }

  /** (service, check name) of each invocation. */
  function Invoked(calls: seq<Call>): seq<(string, string)>
  {
    if calls == [] then [] else [(calls[0].service, calls[0].check)] + Invoked(calls[1..])
  }

  /** Every (service, check name) of one service, in registry order. */
  function ServicePairs(service: string, checks: Dict<Check>): seq<(string, string)>
  {
    if checks == [] then [] else [(service, checks[0].0)] + ServicePairs(service, checks[1..])
  }

  /** Every (service, check name) of the registry, service by service. */
  function Pairs(reg: Registry): seq<(string, string)>
  {
    if reg == [] then [] else ServicePairs(reg[0].0, reg[0].1) + Pairs(reg[1..])
  }

  /** The pairs whose check name the request selects, order kept. */
  function Only(ps: seq<(string, string)>, requested: Option<string>): seq<(string, string)>
  {
    if ps == [] then []
    else (if Selected(requested, ps[0].1) then [ps[0]] else []) + Only(ps[1..], requested)
  }

  // ---------------------------------------------------------------- append laws

  lemma {:induction false} OutputAppend(a: seq<Call>, b: seq<Call>)
    ensures Output(a + b) == Output(a) + Output(b)
  {
    if a == [] {
      assert a + b == b;
    } else {
      assert (a + b)[0] == a[0] && (a + b)[1..] == a[1..] + b;
      OutputAppend(a[1..], b);
    }
  }

  lemma {:induction false} FailedChecksAppend(a: seq<Call>, b: seq<Call>)
    ensures FailedChecks(a + b) == FailedChecks(a) + FailedChecks(b)
  {
    if a == [] {
      assert a + b == b;
    } else {
      assert (a + b)[0] == a[0] && (a + b)[1..] == a[1..] + b;
      FailedChecksAppend(a[1..], b);
    }
  }

  lemma {:induction false} InvokedAppend(a: seq<Call>, b: seq<Call>)
    ensures Invoked(a + b) == Invoked(a) + Invoked(b)
  {
    if a == [] {
      assert a + b == b;
    } else {
      assert (a + b)[0] == a[0] && (a + b)[1..] == a[1..] + b;
      InvokedAppend(a[1..], b);
    }
  }

  lemma {:induction false} OnlyAppend(a: seq<(string, string)>, b: seq<(string, string)>, requested: Option<string>)
    ensures Only(a + b, requested) == Only(a, requested) + Only(b, requested)
  {
    if a == [] {
      assert a + b == b;
    } else {
      assert (a + b)[0] == a[0] && (a + b)[1..] == a[1..] + b;
      OnlyAppend(a[1..], b, requested);
      var head := if Selected(requested, a[0].1) then [a[0]] else [];
      var x, y := Only(a[1..], requested), Only(b, requested);
      assert Only(a + b, requested) == head + (x + y);
      assert head + (x + y) == (head + x) + y;
    }
  }

  lemma {:induction false} AllCallsAppend(a: Registry, b: Registry, requested: Option<string>, ctx: RunContext)
    ensures AllCalls(a + b, requested, ctx) == AllCalls(a, requested, ctx) + AllCalls(b, requested, ctx)
  {
    if a == [] {
      assert a + b == b;
    } else {
      assert (a + b)[0] == a[0] && (a + b)[1..] == a[1..] + b;
      AllCallsAppend(a[1..], b, requested, ctx);
    }
  }

  /** The calls of the first i + 1 services extend those of the first i by service i's. */
  lemma AllCallsSnoc(reg: Registry, i: nat, requested: Option<string>, ctx: RunContext)
    requires i < |reg|
    ensures AllCalls(reg[..i + 1], requested, ctx)
         == AllCalls(reg[..i], requested, ctx) + ServiceCalls(reg[i].0, reg[i].1, map[], requested, ctx)
  {
    assert reg[..i + 1] == reg[..i] + [reg[i]];
    AllCallsAppend(reg[..i], [reg[i]], requested, ctx);
    assert [reg[i]][1..] == [];
  }

  // ---------------------------------------------------------------- which checks run

  /** Within a service, the checks invoked are the selected ones, in order, whatever the cache. */
  lemma {:induction false} ServiceCallsInvoked(service: string, checks: Dict<Check>, cache: CacheMap,
                                               requested: Option<string>, ctx: RunContext)
    ensures Invoked(ServiceCalls(service, checks, cache, requested, ctx))
         == Only(ServicePairs(service, checks), requested)
  {
    if checks != [] {
      var rest := checks[1..];
      if Selected(requested, checks[0].0) {
        var run := checks[0].1.behaviour(cache, ctx);
        ServiceCallsInvoked(service, rest, cache + run.writes, requested, ctx);
        InvokedAppend([Call(service, checks[0].0, cache, run)],
                      ServiceCalls(service, rest, cache + run.writes, requested, ctx));
      } else {
        ServiceCallsInvoked(service, rest, cache, requested, ctx);
      }
      OnlyAppend([(service, checks[0].0)], ServicePairs(service, rest), requested);
    }
  }

  /**
   * The checks a run invokes are exactly the registered (service, check) pairs
   * the request selects, in registry order. What a check yields, and whether it
   * raises, has no influence on which later checks run.
   */
  lemma {:induction false} RunInvokesSelected(reg: Registry, requested: Option<string>, ctx: RunContext)
    ensures Invoked(AllCalls(reg, requested, ctx)) == Only(Pairs(reg), requested)
  {
    if reg != [] {
      var first := ServiceCalls(reg[0].0, reg[0].1, map[], requested, ctx);
      RunInvokesSelected(reg[1..], requested, ctx);
      ServiceCallsInvoked(reg[0].0, reg[0].1, map[], requested, ctx);
      InvokedAppend(first, AllCalls(reg[1..], requested, ctx));
      OnlyAppend(ServicePairs(reg[0].0, reg[0].1), Pairs(reg[1..]), requested);
    }
  }

  lemma {:induction false} OnlyAll(ps: seq<(string, string)>, requested: Option<string>)
    requires Falsy(requested)
    ensures Only(ps, requested) == ps
  {
    if ps != [] {
      OnlyAll(ps[1..], requested);
    }
  }

  lemma {:induction false} OnlyNamed(ps: seq<(string, string)>, requested: Option<string>, p: (string, string))
    requires !Falsy(requested)
    ensures p in Only(ps, requested) <==> p in ps && p.1 == requested.value
  {
    if ps != [] {
      OnlyNamed(ps[1..], requested, p);
      assert ps == [ps[0]] + ps[1..];
    }
  }

  /** With no check name (None or ""), every registered check is invoked, in registry order. */
  lemma RunsEveryCheckWhenUnnamed(reg: Registry, requested: Option<string>, ctx: RunContext)
    requires Falsy(requested)
    ensures Invoked(AllCalls(reg, requested, ctx)) == Pairs(reg)
  {
    RunInvokesSelected(reg, requested, ctx);
    OnlyAll(Pairs(reg), requested);
  }

  /** With a check name, a check is invoked iff it has that name, in whichever service it is. */
  lemma RunsOnlyNamedCheck(reg: Registry, requested: Option<string>, ctx: RunContext, p: (string, string))
    requires !Falsy(requested)
    ensures p in Invoked(AllCalls(reg, requested, ctx)) <==> p in Pairs(reg) && p.1 == requested.value
  {
    RunInvokesSelected(reg, requested, ctx);
    OnlyNamed(Pairs(reg), requested, p);
  }

  // ---------------------------------------------------------------- what comes out

  /**
   * The output is made of each invocation's findings in turn: in particular a
   * check that raised keeps the findings it yielded before raising, and the
   * findings of every later invocation follow them.
   */
  lemma OutputAroundCall(calls: seq<Call>, i: nat)
    requires i < |calls|
    ensures Output(calls) == Output(calls[..i]) + calls[i].run.findings + Output(calls[i + 1..])
  {
    OutputSplit(calls, i + 1);
    OutputSnoc(calls, i);
  }

  /** Cutting the invocations anywhere cuts the output there. */
  lemma OutputSplit(calls: seq<Call>, k: nat)
    requires k <= |calls|
    ensures Output(calls) == Output(calls[..k]) + Output(calls[k..])
  {
    assert calls == calls[..k] + calls[k..];
    OutputAppend(calls[..k], calls[k..]);
  }

  /** The output of the first i + 1 invocations ends with the findings of the one at i. */
  lemma OutputSnoc(calls: seq<Call>, i: nat)
    requires i < |calls|
    ensures Output(calls[..i + 1]) == Output(calls[..i]) + calls[i].run.findings
  {
    var last := [calls[i]];
    TakeOneMore(calls, i);
    OutputAppend(calls[..i], last);
    assert last[1..] == [];
    assert Output(last) == calls[i].run.findings + [];
    assert calls[i].run.findings + [] == calls[i].run.findings;
  }

  /** The first i + 1 elements are the first i followed by the element at i. */
  lemma TakeOneMore<T>(s: seq<T>, i: nat)
    requires i < |s|
    ensures s[..i + 1] == s[..i] + [s[i]]
  {
  }

  // ---------------------------------------------------------------- the cache

  /** Every invocation made for a service is recorded under that service. */
  lemma {:induction false} ServiceCallsService(service: string, checks: Dict<Check>, cache: CacheMap,
                                               requested: Option<string>, ctx: RunContext)
    ensures forall i :: 0 <= i < |ServiceCalls(service, checks, cache, requested, ctx)| ==>
                          ServiceCalls(service, checks, cache, requested, ctx)[i].service == service
  {
    if checks != [] {
      var rest := checks[1..];
      if Selected(requested, checks[0].0) {
        var run := checks[0].1.behaviour(cache, ctx);
        var c := Call(service, checks[0].0, cache, run);
        var more := ServiceCalls(service, rest, cache + run.writes, requested, ctx);
        ServiceCallsService(service, rest, cache + run.writes, requested, ctx);
        assert ServiceCalls(service, checks, cache, requested, ctx) == [c] + more;
        forall i | 0 <= i < |[c] + more| ensures ([c] + more)[i].service == service {
          if i > 0 {
            assert ([c] + more)[i] == more[i - 1];
          }
        }
      } else {
        ServiceCallsService(service, rest, cache, requested, ctx);
      }
    }
  }

  /** The first invocation of a service sees the cache the service started with. */
  lemma {:induction false} ServiceCallsFirst(service: string, checks: Dict<Check>, cache: CacheMap,
                                             requested: Option<string>, ctx: RunContext)
    ensures ServiceCalls(service, checks, cache, requested, ctx) != [] ==>
              ServiceCalls(service, checks, cache, requested, ctx)[0].cacheIn == cache
  {
    if checks != [] && !Selected(requested, checks[0].0) {
      ServiceCallsFirst(service, checks[1..], cache, requested, ctx);
    }
  }

  /** Within one service: its calls carry its name, start from its cache and thread the writes. */
  lemma {:induction false} ServiceCallsCache(service: string, checks: Dict<Check>, cache: CacheMap,
                                             requested: Option<string>, ctx: RunContext)
    ensures var calls := ServiceCalls(service, checks, cache, requested, ctx);
      && (forall i :: 0 <= i < |calls| ==> calls[i].service == service)
      && (calls != [] ==> calls[0].cacheIn == cache)
      && (forall i :: 0 <= i < |calls| - 1 ==>
            calls[i + 1].cacheIn == calls[i].cacheIn + calls[i].run.writes)
  {
    if checks != [] {
      var rest := checks[1..];
      if Selected(requested, checks[0].0) {
        var run := checks[0].1.behaviour(cache, ctx);
        ServiceCallsCache(service, rest, cache + run.writes, requested, ctx);
      } else {
        ServiceCallsCache(service, rest, cache, requested, ctx);
      }
    }
  }

  /** Every call of a run names a registered service. */
  lemma {:induction false} AllCallsServices(reg: Registry, requested: Option<string>, ctx: RunContext)
    ensures forall i :: 0 <= i < |AllCalls(reg, requested, ctx)| ==>
                          AllCalls(reg, requested, ctx)[i].service in Keys(reg)
  {
    if reg != [] {
      var first: seq<Call> := ServiceCalls(reg[0].0, reg[0].1, map[], requested, ctx);
      var rest: seq<Call> := AllCalls(reg[1..], requested, ctx);
      assert AllCalls(reg, requested, ctx) == first + rest;
      ServiceCallsService(reg[0].0, reg[0].1, map[], requested, ctx);
      AllCallsServices(reg[1..], requested, ctx);
      assert Keys(reg) == [reg[0].0] + Keys(reg[1..]);
      ServicesOfAppend(first, rest, reg[0].0, Keys(reg[1..]));
    }
  }

  /** Calls of `service` followed by calls of services in `names` are all calls of services in `[service] + names`. */
  lemma ServicesOfAppend(first: seq<Call>, rest: seq<Call>, service: string, names: seq<string>)
    requires forall i :: 0 <= i < |first| ==> first[i].service == service
    requires forall i :: 0 <= i < |rest| ==> rest[i].service in names
    ensures forall i :: 0 <= i < |first + rest| ==> (first + rest)[i].service in [service] + names
  {
    forall i | 0 <= i < |first + rest| ensures (first + rest)[i].service in [service] + names {
      if i >= |first| {
        assert (first + rest)[i] == rest[i - |first|];
      } else {
        assert (first + rest)[i] == first[i];
      }
    }
  }

  /** A run's first call starts from an empty cache. */
  lemma {:induction false} AllCallsFirst(reg: Registry, requested: Option<string>, ctx: RunContext)
    ensures AllCalls(reg, requested, ctx) != [] ==> AllCalls(reg, requested, ctx)[0].cacheIn == map[]
  {
    if reg != [] {
      var first: seq<Call> := ServiceCalls(reg[0].0, reg[0].1, map[], requested, ctx);
      var rest: seq<Call> := AllCalls(reg[1..], requested, ctx);
      assert AllCalls(reg, requested, ctx) == first + rest;
      ServiceCallsFirst(reg[0].0, reg[0].1, map[], requested, ctx);
      AllCallsFirst(reg[1..], requested, ctx);
      if first == [] {
        assert first + rest == rest;
      } else {
        assert (first + rest)[0] == first[0];
      }
    }
  }

  /**
   * Each service has its own cache. The next invocation in the same service sees
   * the cache as the previous one left it (its entries plus what that check
   * wrote, also when it raised); the first invocation of another service sees an
   * empty cache, so nothing leaks from one service to another.
   */
  lemma {:induction false} CacheScopedToService(reg: Registry, requested: Option<string>, ctx: RunContext, i: nat)
    requires UniqueKeys(reg)
    requires i + 1 < |AllCalls(reg, requested, ctx)|
    ensures var calls := AllCalls(reg, requested, ctx);
      && (calls[i + 1].service == calls[i].service ==>
            calls[i + 1].cacheIn == calls[i].cacheIn + calls[i].run.writes)
      && (calls[i + 1].service != calls[i].service ==> calls[i + 1].cacheIn == map[])
  {
    var first: seq<Call> := ServiceCalls(reg[0].0, reg[0].1, map[], requested, ctx);
    var rest: seq<Call> := AllCalls(reg[1..], requested, ctx);
    assert AllCalls(reg, requested, ctx) == first + rest;
    ServiceCallsCache(reg[0].0, reg[0].1, map[], requested, ctx);
    if i + 1 < |first| {
      assert (first + rest)[i] == first[i] && (first + rest)[i + 1] == first[i + 1];
    } else if i + 1 == |first| {
      assert (first + rest)[i] == first[i] && (first + rest)[i + 1] == rest[0];
      AllCallsServices(reg[1..], requested, ctx);
      AllCallsFirst(reg[1..], requested, ctx);
      assert rest[0].service in Keys(reg[1..]);
      assert rest[0].service != reg[0].0;
    } else {
      assert (first + rest)[i] == rest[i - |first|] && (first + rest)[i + 1] == rest[i + 1 - |first|];
      assert UniqueKeys(reg[1..]);
      CacheScopedToService(reg[1..], requested, ctx, i - |first|);
    }
  }

  /**
   * The memo helper across a service: once a check has cached a truthy
   * response, the next check of the same service gets it back without fetching.
   */
  lemma MemoSharedWithinService(reg: Registry, requested: Option<string>, ctx: RunContext, i: nat,
                                key: string, fetched: Response)
    requires UniqueKeys(reg)
    requires i + 1 < |AllCalls(reg, requested, ctx)|
    requires AllCalls(reg, requested, ctx)[i + 1].service == AllCalls(reg, requested, ctx)[i].service
    requires key in AllCalls(reg, requested, ctx)[i].run.writes
    requires Truthy(AllCalls(reg, requested, ctx)[i].run.writes[key])
    ensures Memo(AllCalls(reg, requested, ctx)[i + 1].cacheIn, key, fetched).value
         == AllCalls(reg, requested, ctx)[i].run.writes[key]
  {
    CacheScopedToService(reg, requested, ctx, i);
  }

  /** ... and the first check of another service has to fetch it itself. */
  lemma MemoNotSharedAcrossServices(reg: Registry, requested: Option<string>, ctx: RunContext, i: nat,
                                    key: string, fetched: Response)
    requires UniqueKeys(reg)
    requires i + 1 < |AllCalls(reg, requested, ctx)|
    requires AllCalls(reg, requested, ctx)[i + 1].service != AllCalls(reg, requested, ctx)[i].service
    ensures Memo(AllCalls(reg, requested, ctx)[i + 1].cacheIn, key, fetched).value == fetched
  {
    CacheScopedToService(reg, requested, ctx, i);
  }
}
