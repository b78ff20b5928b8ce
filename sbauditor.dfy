/**
 * `SBAuditor`: resolves the run context, loads the plugin modules (whose
 * import registers their checks in the shared store) and runs the registered
 * checks service by service.
 */
module Auditor {
  import opened Wrappers
  import opened OrderedMap
  import opened Findings
  import opened CheckContract
  import opened CheckRegistry
  import opened AuditRun

  const DefaultSearchPath: string := "./auditors/aws"
  const GovRegions: seq<string> := ["us-gov-east-1", "us-gov-west-1"]
  const ParametersKey: string := "Parameters"
  const ValueKey: string := "Value"

  /**
   * What importing one plugin module does: the `register_check` decorations
   * that run during the import, in order, and the exception that ends the
   * import, if any (registrations made before it stay in effect).
   */
  datatype PluginLoad = PluginLoad(registrations: seq<(string, Check)>, error: Option<string>)

  /** The plugin source over the search path: the plugins it lists and what loading each one does. */
  datatype PluginSource = PluginSource(names: seq<string>, load: string -> PluginLoad)

  /** An SSM parameter, and one page of `get_parameters_by_path`. */
  type Parameter = map<string, string>
  type ParameterPage = map<string, seq<Parameter>>

  /** `awsPartition`: "aws", reassigned to "aws-us-gov" in the two GovCloud regions. */
  method PartitionOf(region: string) returns (partition: string)
    ensures partition == "aws-us-gov" <==> region == "us-gov-east-1" || region == "us-gov-west-1"
    ensures partition != "aws-us-gov" ==> partition == "aws"
  {
    partition := "aws";
    if region in GovRegions {
      partition := "aws-us-gov";
    }
  }

  /** The SSM path listing the regions in which `service` is available. */
  function RegionsPath(service: string): string
  {
    "/aws/service/global-infrastructure/services/" + service + "/regions"
  }

  /** Every parameter carries a `Value`. */
  predicate AllHaveValue(ps: seq<Parameter>)
  {
    forall i :: 0 <= i < |ps| ==> ValueKey in ps[i]
  }

  /** All registrations performed by importing `names`, in import order. */
  function Imported(names: seq<string>, load: string -> PluginLoad): seq<(string, Check)>
  {
    if names == [] then [] else Imported(names[..|names| - 1], load) + load(names[|names| - 1]).registrations
  }

  /** The plugins among `names` whose import raised, in order. */
  function LoadFailures(names: seq<string>, load: string -> PluginLoad): seq<string>
  {
    if names == [] then []
    else
      var last := names[|names| - 1];
      LoadFailures(names[..|names| - 1], load) + (if load(last).error.Some? then [last] else [])
  }

  /** The services whose region list does not contain `region` (one notice each). */
  function Unsupported(reg: Registry, region: string, regionsOf: string -> seq<string>): seq<string>
  {
    if reg == [] then []
    else
      var last := reg[|reg| - 1].0;
      Unsupported(reg[..|reg| - 1], region, regionsOf) + (if region !in regionsOf(last) then [last] else [])
  }

  /** Registering a concatenation is registering one part after the other. */
  lemma {:induction false} RegisterAllAppend(reg: Registry, a: seq<(string, Check)>, b: seq<(string, Check)>)
    ensures RegisterAll(reg, a + b) == RegisterAll(RegisterAll(reg, a), b)
  {
    if b == [] {
      assert a + b == a;
    } else {
      var n := |b| - 1;
      assert (a + b)[..|a + b| - 1] == a + b[..n];
      RegisterAllAppend(reg, a, b[..n]);
    }
  }

  lemma ImportedOne(name: string, load: string -> PluginLoad)
    ensures Imported([name], load) == load(name).registrations
    ensures LoadFailures([name], load) == if load(name).error.Some? then [name] else []
  {
    assert [name][..0] == [];
  }

  lemma ImportedSnoc(names: seq<string>, name: string, load: string -> PluginLoad)
    ensures Imported(names + [name], load) == Imported(names, load) + load(name).registrations
    ensures LoadFailures(names + [name], load)
         == LoadFailures(names, load) + (if load(name).error.Some? then [name] else [])
  {
    assert (names + [name])[..|names|] == names;
  }

  /** After loading `attempted` from `start`: the failures so far and the store's contents. */
  ghost predicate LoadedSoFar(start: Registry, attempted: seq<string>, load: string -> PluginLoad,
                              entries: Registry, failed: seq<string>)
  {
    failed == LoadFailures(attempted, load) && entries == RegisterAll(start, Imported(attempted, load))
  }

  /** Loading one more plugin: its registrations follow those of the plugins before it. */
  lemma LoadStep(start: Registry, attempted: seq<string>, name: string, load: string -> PluginLoad,
                 entries: Registry, failed: seq<string>)
    requires LoadedSoFar(start, attempted, load, entries, failed)
    ensures LoadedSoFar(start, attempted + [name], load, RegisterAll(entries, load(name).registrations),
                        failed + (if load(name).error.Some? then [name] else []))
  {
    ImportedSnoc(attempted, name, load);
    RegisterAllAppend(start, Imported(attempted, load), load(name).registrations);
  }

  /** A service later in the registry is not among the keys before it. */
  lemma KeyNotEarlier(reg: Registry, i: nat)
    requires UniqueKeys(reg) && i < |reg|
    ensures reg[i].0 !in Keys(reg[..i])
  {
  }

  /** Recording one more invocation extends the output by its findings and the failure log by its name. */
  lemma SnocCall(calls: seq<Call>, c: Call)
    ensures Output(calls + [c]) == Output(calls) + c.run.findings
    ensures FailedChecks(calls + [c]) == FailedChecks(calls) + (if c.run.outcome.Raised? then [c.check] else [])
  {
    OutputAppend(calls, [c]);
    FailedChecksAppend(calls, [c]);
    assert [c][1..] == [];
  }

  /** Two invocations got the same cache object exactly when they belong to the same service. */
  ghost predicate CachePerService(calls: seq<Call>, caches: seq<AuditorCache>)
  {
    |caches| == |calls| &&
    forall a, b :: 0 <= a < |calls| && 0 <= b < |calls| ==>
      (caches[a] == caches[b] <==> calls[a].service == calls[b].service)
  }

  /** Everything the run has invoked so far belongs to one of `services`. */
  ghost predicate ServicesAmong(calls: seq<Call>, services: seq<string>)
  {
    forall a :: 0 <= a < |calls| ==> calls[a].service in services
  }

  /** `n` copies of `x`: the cache object seen by each of a service's invocations. */
  ghost function Repeat<T>(x: T, n: nat): (r: seq<T>)
    ensures |r| == n && forall k :: 0 <= k < n ==> r[k] == x
  {
    if n == 0 then [] else Repeat(x, n - 1) + [x]
  }

  /** The invocations of a newly visited service keep "same cache object iff same service". */
  lemma CacheStep(calls: seq<Call>, caches: seq<AuditorCache>, services: seq<string>,
                  svc: seq<Call>, service: string, cache: AuditorCache)
    requires CachePerService(calls, caches) && ServicesAmong(calls, services) && service !in services
    requires forall a :: 0 <= a < |caches| ==> caches[a] != cache
    requires forall b :: 0 <= b < |svc| ==> svc[b].service == service
    ensures CachePerService(calls + svc, caches + Repeat(cache, |svc|))
  {
    var cs, os := calls + svc, caches + Repeat(cache, |svc|);
    forall a, b | 0 <= a < |cs| && 0 <= b < |cs|
      ensures os[a] == os[b] <==> cs[a].service == cs[b].service
    {
      if a >= |calls| {
        assert os[a] == cache && cs[a] == svc[a - |calls|];
      } else {
        assert os[a] == caches[a] && cs[a] == calls[a];
      }
      if b >= |calls| {
        assert os[b] == cache && cs[b] == svc[b - |calls|];
      } else {
        assert os[b] == caches[b] && cs[b] == calls[b];
      }
    }
  }

  /** After service i, every invocation belongs to one of the first i + 1 services. */
  lemma AmongStep(reg: Registry, i: nat, calls: seq<Call>, svc: seq<Call>)
    requires i < |reg| && ServicesAmong(calls, Keys(reg[..i]))
    requires forall b :: 0 <= b < |svc| ==> svc[b].service == reg[i].0
    ensures ServicesAmong(calls + svc, Keys(reg[..i + 1]))
  {
    assert reg[..i + 1] == reg[..i] + [reg[i]];
    KeysAppend(reg[..i], [reg[i]]);
    forall a | 0 <= a < |calls + svc| ensures (calls + svc)[a].service in Keys(reg[..i + 1]) {
      if a >= |calls| {
        assert (calls + svc)[a] == svc[a - |calls|];
      } else {
        assert (calls + svc)[a] == calls[a];
      }
    }
  }

  lemma KeysAppend<V>(a: Dict<V>, b: Dict<V>)
    ensures Keys(a + b) == Keys(a) + Keys(b)
  {
  }

  /** The region notices of the first i + 1 services. */
  lemma UnsupportedSnoc(reg: Registry, i: nat, region: string, regionsOf: string -> seq<string>)
    requires i < |reg|
    ensures Unsupported(reg[..i + 1], region, regionsOf)
         == Unsupported(reg[..i], region, regionsOf) + (if region !in regionsOf(reg[i].0) then [reg[i].0] else [])
  {
    assert reg[..i + 1][..i] == reg[..i];
  }

  /**
   * What `run_checks` has done after the first i services: the invocations, the
   * output and the failure log of those services, their region notices, and
   * one cache object per service.
   */
  ghost predicate RunSoFar(reg: Registry, i: nat, requested: Option<string>, ctx: RunContext,
                           region: string, regionsOf: string -> seq<string>,
                           calls: seq<Call>, caches: seq<AuditorCache>,
                           out: seq<Finding>, failed: seq<string>, unsupported: seq<string>)
    requires i <= |reg|
  {
    && calls == AllCalls(reg[..i], requested, ctx)
    && out == Output(calls) && failed == FailedChecks(calls)
    && unsupported == Unsupported(reg[..i], region, regionsOf)
    && CachePerService(calls, caches) && ServicesAmong(calls, Keys(reg[..i]))
  }

  /** One iteration of the service loop, run with a cache object no earlier service had. */
  lemma RunStep(reg: Registry, i: nat, requested: Option<string>, ctx: RunContext,
                region: string, regionsOf: string -> seq<string>,
                calls: seq<Call>, caches: seq<AuditorCache>,
                out: seq<Finding>, failed: seq<string>, unsupported: seq<string>,
                svc: seq<Call>, cache: AuditorCache)
    requires UniqueKeys(reg) && i < |reg|
    requires RunSoFar(reg, i, requested, ctx, region, regionsOf, calls, caches, out, failed, unsupported)
    requires svc == ServiceCalls(reg[i].0, reg[i].1, map[], requested, ctx)
    requires forall a :: 0 <= a < |caches| ==> caches[a] != cache
    ensures RunSoFar(reg, i + 1, requested, ctx, region, regionsOf,
                     calls + svc, caches + Repeat(cache, |svc|),
                     out + Output(svc), failed + FailedChecks(svc),
                     unsupported + (if region !in regionsOf(reg[i].0) then [reg[i].0] else []))
  {
    var service := reg[i].0;
    UnsupportedSnoc(reg, i, region, regionsOf);
    ServiceCallsService(service, reg[i].1, map[], requested, ctx);
    KeyNotEarlier(reg, i);
    CacheStep(calls, caches, Keys(reg[..i]), svc, service, cache);
    AmongStep(reg, i, calls, svc);
    AllCallsSnoc(reg, i, requested, ctx);
    OutputAppend(calls, svc);
    FailedChecksAppend(calls, svc);
  }

  /**
   * What the loop over one service's checks has done after the first j: the
   * invocations so far, `cache` the cache contents now, and the findings and
   * failure log so far; the rest of the service's invocations follow from there.
   */
  ghost predicate ServiceSoFar(service: string, checks: Dict<Check>, j: nat, cache: CacheMap,
                               requested: Option<string>, ctx: RunContext,
                               svc: seq<Call>, out: seq<Finding>, failed: seq<string>)
    requires j <= |checks|
  {
    && svc + ServiceCalls(service, checks[j..], cache, requested, ctx)
         == ServiceCalls(service, checks, map[], requested, ctx)
    && out == Output(svc) && failed == FailedChecks(svc)
  }

  /** One check of the loop: invoked with the current cache if selected, skipped otherwise. */
  lemma ServiceRunStep(service: string, checks: Dict<Check>, j: nat, cache: CacheMap,
                       requested: Option<string>, ctx: RunContext,
                       svc: seq<Call>, out: seq<Finding>, failed: seq<string>)
    requires j < |checks| && ServiceSoFar(service, checks, j, cache, requested, ctx, svc, out, failed)
    ensures var run := checks[j].1.behaviour(cache, ctx);
      if Selected(requested, checks[j].0) then
        ServiceSoFar(service, checks, j + 1, cache + run.writes, requested, ctx,
                     svc + [Call(service, checks[j].0, cache, run)], out + run.findings,
                     failed + (if run.outcome.Raised? then [checks[j].0] else []))
      else
        ServiceSoFar(service, checks, j + 1, cache, requested, ctx, svc, out, failed)
  {
    assert checks[j..][0] == checks[j] && checks[j..][1..] == checks[j + 1..];
    var run := checks[j].1.behaviour(cache, ctx);
    var c := Call(service, checks[j].0, cache, run);
    if Selected(requested, checks[j].0) {
      var rest := ServiceCalls(service, checks[j + 1..], cache + run.writes, requested, ctx);
      assert ServiceCalls(service, checks[j..], cache, requested, ctx) == [c] + rest;
      assert svc + ([c] + rest) == (svc + [c]) + rest;
      SnocCall(svc, c);
    }
  }

  /**
   * The loader tests: the test module's own import has already registered
   * `plugin_func_1` under "test" (or nothing has been registered there yet);
   * loading plugin1, by name or as the only listed plugin, fails nowhere and
   * leaves exactly that name under "test".
   */
  lemma PluginLoaderScenario(reg: Registry, f: Check, load: string -> PluginLoad)
    requires f.name == "plugin_func_1" && load("plugin1") == PluginLoad([("test", f)], None)
    requires Get(reg, "test").None? || Keys(ChecksOf(reg, "test")) == ["plugin_func_1"]
    ensures LoadFailures(["plugin1"], load) == []
    ensures Keys(ChecksOf(RegisterAll(reg, Imported(["plugin1"], load)), "test")) == ["plugin_func_1"]
  {
    ImportedOne("plugin1", load);
    var regs := [("test", f)];
    assert regs[..0] == [];
    assert RegisterAll(reg, regs) == Register(reg, "test", f);
    if Get(reg, "test").None? {
      RegisterNewService(reg, "test", f);
    } else {
      GetMeansKey(ChecksOf(reg, "test"), f.name);
      RegisterKeys(reg, "test", f);
    }
  }

  /** The run tests: with only `plugin_func_1` registered, running all checks or just that one yields its finding. */
  lemma RunCheckScenario(f: Check, x: Finding, ctx: RunContext)
    requires f.behaviour(map[], ctx) == CheckRun([x], map[], Exhausted)
    ensures Output(AllCalls([("test", [("plugin_func_1", f)])], None, ctx)) == [x]
    ensures Output(AllCalls([("test", [("plugin_func_1", f)])], Some(""), ctx)) == [x]
    ensures Output(AllCalls([("test", [("plugin_func_1", f)])], Some("plugin_func_1"), ctx)) == [x]
    ensures Output(AllCalls([("test", [("plugin_func_1", f)])], Some("other"), ctx)) == []
  {
    var reg := [("test", [("plugin_func_1", f)])];
    var c := Call("test", "plugin_func_1", map[], CheckRun([x], map[], Exhausted));
    assert reg[1..] == [] && reg[0].1[1..] == [];
    assert ServiceCalls("test", reg[0].1, map[], None, ctx) == [c];
    assert ServiceCalls("test", reg[0].1, map[], Some(""), ctx) == [c];
    assert ServiceCalls("test", reg[0].1, map[], Some("plugin_func_1"), ctx) == [c];
    assert ServiceCalls("test", reg[0].1, map[], Some("other"), ctx) == [];
    assert [c][1..] == [];
    assert AllCalls(reg, None, ctx) == [c];
    assert AllCalls(reg, Some(""), ctx) == [c];
    assert AllCalls(reg, Some("plugin_func_1"), ctx) == [c];
  }

  /**
   * The services whose loop body `run_checks` completes: all of them, or only
   * the first when a negative delay makes the `sleep` after it raise.
   */
  function Reached(reg: Registry, delay: int): Registry
  {
    if delay < 0 && reg != [] then reg[..1] else reg
  }

  /** With a non-negative delay every service is reached; otherwise a non-empty registry stops after its first. */
  lemma ReachedPrefix(reg: Registry, delay: int)
    ensures Reached(reg, delay) == reg[..|Reached(reg, delay)|]
    ensures Reached(reg, delay) == reg <==> delay >= 0 || |reg| <= 1
  {
  }

  /**
   * A negative delay: what the run yields and logs is exactly what the first
   * service's checks yield and log, however many services follow.
   */
  lemma NegativeDelayFirstServiceOnly(reg: Registry, delay: int, requested: Option<string>, ctx: RunContext)
    requires delay < 0 && reg != []
    ensures AllCalls(Reached(reg, delay), requested, ctx) == ServiceCalls(reg[0].0, reg[0].1, map[], requested, ctx)
  {
    var svc := ServiceCalls(reg[0].0, reg[0].1, map[], requested, ctx);
    assert reg[..1][1..] == [];
    assert AllCalls(reg[..1], requested, ctx) == svc + [];
    assert svc + [] == svc;
  }

  class SBAuditor {
    const name: string
    const searchPath: string
    const registry: CheckRegister
    const awsAccountId: string
    const awsRegion: string
    const awsPartition: string
    const source: PluginSource

    /**
     * `SBAuditor(name, search_path)`. `store` is the class-level check store,
     * `account` the caller identity's account, `envRegion` the AWS_REGION
     * variable, `sessionRegion` the STS client's region, `source` the plugin
     * source over the search path.
     */
    constructor (name: string, searchPath: Option<string>, store: CheckStore, account: string,
                 envRegion: Option<string>, sessionRegion: string, source: PluginSource)
      ensures this.name == name && this.source == source && awsAccountId == account
      ensures this.searchPath == if Falsy(searchPath) then DefaultSearchPath else searchPath.value
      ensures registry.checks == store
      ensures awsRegion == if envRegion.Some? then envRegion.value else sessionRegion
      ensures awsPartition == "aws-us-gov" <==> awsRegion in GovRegions
      ensures awsPartition != "aws-us-gov" ==> awsPartition == "aws"
    {
      this.name := name;
      this.searchPath := if Falsy(searchPath) then DefaultSearchPath else searchPath.value;
      registry := new CheckRegister(store);
      awsAccountId := account;
      var region := if envRegion.Some? then envRegion.value else sessionRegion;
      awsRegion := region;
      var partition := PartitionOf(region);
      awsPartition := partition;
      this.source := source;
    }

    /** The context every check of a run receives. */
    function Context(): RunContext
    {
      RunContext(awsAccountId, awsRegion, awsPartition)
    }

    /**
     * One `source.load_plugin(plugin_name)` inside its try/except: the module's
     * own `CheckRegister()` performs its registrations on the shared store; an
     * exception is caught and reported in `failed`.
     */
    method LoadPlugin(pluginName: string) returns (failed: seq<string>)
      requires registry.checks.Valid()
      modifies registry.checks
      ensures registry.checks.Valid()
      ensures registry.checks.entries
           == RegisterAll(old(registry.checks.entries), source.load(pluginName).registrations)
      ensures failed == if source.load(pluginName).error.Some? then [pluginName] else []
    {
      var load := source.load(pluginName);
      var moduleRegistry := new CheckRegister(registry.checks);
      var regs := load.registrations;
      var k := 0;
      while k < |regs|
        invariant 0 <= k <= |regs|
        invariant registry.checks.Valid()
        invariant registry.checks.entries == RegisterAll(old(registry.checks.entries), regs[..k])
      {
        assert regs[..k + 1][..k] == regs[..k];
        var _ := moduleRegistry.RegisterCheck(regs[k].0, regs[k].1);
        k := k + 1;
      }
      assert regs[..k] == regs;
      failed := if load.error.Some? then [pluginName] else [];
    }

    /**
     * `load_plugins(plugin_name)`: a truthy name loads that one plugin; otherwise
     * every listed plugin is loaded in order, and a failing one does not stop
     * the rest. No exception reaches the caller.
     */
    method LoadPlugins(pluginName: Option<string>) returns (attempted: seq<string>, failed: seq<string>)
      requires registry.checks.Valid()
      modifies registry.checks
      ensures registry.checks.Valid()
      ensures attempted == if Falsy(pluginName) then source.names else [pluginName.value]
      ensures failed == LoadFailures(attempted, source.load)
      ensures registry.checks.entries
           == RegisterAll(old(registry.checks.entries), Imported(attempted, source.load))
    {
      if !Falsy(pluginName) {
        attempted := [pluginName.value];
        ImportedOne(pluginName.value, source.load);
        failed := LoadPlugin(pluginName.value);
      } else {
        attempted, failed := LoadListed();
      }
    }

    /** The `else` branch of `load_plugins`: every plugin `list_plugins()` names, in order. */
    method LoadListed() returns (attempted: seq<string>, failed: seq<string>)
      requires registry.checks.Valid()
      modifies registry.checks
      ensures registry.checks.Valid()
      ensures attempted == source.names
      ensures failed == LoadFailures(attempted, source.load)
      ensures registry.checks.entries
           == RegisterAll(old(registry.checks.entries), Imported(attempted, source.load))
    {
      ghost var start := registry.checks.entries;
      var names := source.names;
      attempted, failed := [], [];
      var i := 0;
      while i < |names|
        invariant 0 <= i <= |names|
        invariant attempted == names[..i]
        invariant registry.checks.Valid()
        invariant LoadedSoFar(start, attempted, source.load, registry.checks.entries, failed)
      {
        LoadStep(start, attempted, names[i], source.load, registry.checks.entries, failed);
        var f := LoadPlugin(names[i]);
        attempted := attempted + [names[i]];
        failed := failed + f;
        i := i + 1;
        assert names[..i] == names[..i - 1] + [names[i - 1]];
      }
      assert names[..i] == names;
    }

    /**
     * `get_regions(service)`: the `Value` of every parameter under the service's
     * regions path, in page order. A page without `Parameters` or a parameter
     * without `Value` raises KeyError.
     */
    method GetRegions(ssm: string -> seq<ParameterPage>, service: string) returns (r: Result<seq<string>>)
      ensures var pages := ssm(RegionsPath(service));
        r.Ok? <==> PagesHave(pages, ParametersKey) && AllHaveValue(ConcatPages(pages, ParametersKey))
      ensures var pages := ssm(RegionsPath(service));
        r.Ok? ==> (PagesHave(pages, ParametersKey)
          && |r.value| == |ConcatPages(pages, ParametersKey)|
          && forall q :: 0 <= q < |r.value| ==> r.value[q] == ConcatPages(pages, ParametersKey)[q][ValueKey])
    {
      var pages := ssm(RegionsPath(service));
      var results := AccumulatePagedResults(pages, ParametersKey);
      if results.Err? {
        return Err(results.error);
      }
      var parameters := results.value[ParametersKey];
      var values: seq<string> := [];
      var q := 0;
      while q < |parameters|
        invariant 0 <= q <= |parameters|
        invariant AllHaveValue(parameters[..q])
        invariant |values| == q
        invariant forall t :: 0 <= t < q ==> values[t] == parameters[t][ValueKey]
      {
        if ValueKey !in parameters[q] {
          assert !AllHaveValue(parameters);
          return Err("KeyError: " + ValueKey);
        }
        values := values + [parameters[q][ValueKey]];
        q := q + 1;
        assert forall t :: 0 <= t < q ==> parameters[..q][t] == parameters[t];
      }
      assert parameters[..q] == parameters;
      r := Ok(values);
    }

    /** `for finding in check(...): yield finding`, up to where the check stopped or raised. */
    method YieldFindings(out: seq<Finding>, findings: seq<Finding>) returns (out': seq<Finding>)
      ensures out' == out + findings
    {
      out' := out;
      var k := 0;
      while k < |findings|
        invariant 0 <= k <= |findings|
        invariant out' == out + findings[..k]
      {
        out' := out' + [findings[k]];
        k := k + 1;
        assert findings[..k] == findings[..k - 1] + [findings[k - 1]];
      }
      assert findings[..k] == findings;
    }

    /**
     * The body of `run_checks` for one service: a fresh `auditor_cache`, then
     * each selected check in order, called with that cache; its findings are
     * re-yielded one by one and its exception, if any, is caught and logged.
     */
    method RunServiceChecks(service: string, checkList: Dict<Check>, requested: Option<string>, ctx: RunContext)
      returns (out: seq<Finding>, failed: seq<string>, ghost svc: seq<Call>, ghost cache: AuditorCache)
      ensures fresh(cache)
      ensures svc == ServiceCalls(service, checkList, map[], requested, ctx)
      ensures out == Output(svc) && failed == FailedChecks(svc)
    {
      var auditorCache := new AuditorCache();
      cache := auditorCache;
      out, failed, svc := [], [], [];
      var j := 0;
      while j < |checkList|
        invariant 0 <= j <= |checkList|
        invariant ServiceSoFar(service, checkList, j, auditorCache.entries, requested, ctx, svc, out, failed)
      {
        var checkName, check := checkList[j].0, checkList[j].1;
        ServiceRunStep(service, checkList, j, auditorCache.entries, requested, ctx, svc, out, failed);
        if Selected(requested, checkName) {
          ghost var seen := auditorCache.entries;
          var run := check.behaviour(auditorCache.entries, ctx);
          out := YieldFindings(out, run.findings);
          auditorCache.entries := auditorCache.entries + run.writes;
          if run.outcome.Raised? {
            failed := failed + [checkName];
          }
          svc := svc + [Call(service, checkName, seen, run)];
        }
        j := j + 1;
      }
      assert checkList[j..] == [];
    }

    /**
     * One iteration of `run_checks`'s service loop: the region probe (only
     * reported), then the service's checks with a fresh cache object.
     */
    method RunService(reg: Registry, i: nat, requested: Option<string>, ctx: RunContext,
                      regionsOf: string -> seq<string>, ghost calls: seq<Call>, ghost caches: seq<AuditorCache>,
                      out: seq<Finding>, failed: seq<string>, unsupported: seq<string>)
      returns (out': seq<Finding>, failed': seq<string>, unsupported': seq<string>,
               ghost calls': seq<Call>, ghost caches': seq<AuditorCache>)
      requires UniqueKeys(reg) && i < |reg|
      requires RunSoFar(reg, i, requested, ctx, awsRegion, regionsOf, calls, caches, out, failed, unsupported)
      ensures RunSoFar(reg, i + 1, requested, ctx, awsRegion, regionsOf, calls', caches', out', failed', unsupported')
    {
      var service, checkList := reg[i].0, reg[i].1;
      unsupported' := unsupported;
      if awsRegion !in regionsOf(service) {
        unsupported' := unsupported + [service];
        // the source's `next` here is a bare name, not a `continue`: the service still runs
      }
      var o, f, svc, cache := RunServiceChecks(service, checkList, requested, ctx);
      RunStep(reg, i, requested, ctx, awsRegion, regionsOf, calls, caches, out, failed, unsupported, svc, cache);
      out', failed' := out + o, failed + f;
      calls', caches' := calls + svc, caches + Repeat(cache, |svc|);
    }

    /**
     * `run_checks(requested_check_name, delay)`, consumed to the end. For each
     * service in registry order it probes the region list (the answer is only
     * reported in `unsupported`: the bare `next` skips nothing), runs the
     * service's checks with a fresh cache, and sleeps `delay`. `regionsOf`
     * gives `get_regions`'s answer per service. `sleep` stands outside the
     * try: a negative delay raises ValueError after the first service's
     * checks, which ends the generator with what it has yielded so far.
     */
    method RunChecks(requested: Option<string>, delay: int, regionsOf: string -> seq<string>)
      returns (out: seq<Finding>, failed: seq<string>, unsupported: seq<string>, raised: Option<string>,
               ghost calls: seq<Call>, ghost caches: seq<AuditorCache>, ghost sleeps: seq<int>)
      requires registry.checks.Valid()
      ensures raised.Some? <==> delay < 0 && registry.checks.entries != []
      ensures calls == AllCalls(Reached(registry.checks.entries, delay), requested, Context())
      ensures out == Output(AllCalls(Reached(registry.checks.entries, delay), requested, Context()))
      ensures failed == FailedChecks(AllCalls(Reached(registry.checks.entries, delay), requested, Context()))
      ensures unsupported == Unsupported(Reached(registry.checks.entries, delay), awsRegion, regionsOf)
      ensures CachePerService(calls, caches)
      ensures sleeps == Repeat(delay, if raised.Some? then 0 else |registry.checks.entries|)
    {
      var reg := registry.checks.entries;
      var ctx := Context();
      out, failed, unsupported, raised := [], [], [], None;
      calls, caches, sleeps := [], [], [];
      var i := 0;
      while i < |reg| && raised.None?
        invariant 0 <= i <= |reg|
        invariant RunSoFar(reg, i, requested, ctx, awsRegion, regionsOf, calls, caches, out, failed, unsupported)
        invariant raised.Some? ==> delay < 0 && i == 1 && sleeps == []
        invariant raised.None? ==> sleeps == Repeat(delay, i) && (delay < 0 ==> i == 0)
      {
        out, failed, unsupported, calls, caches :=
          RunService(reg, i, requested, ctx, regionsOf, calls, caches, out, failed, unsupported);
        i := i + 1;
        if delay < 0 {
          raised := Some("ValueError: sleep length must be non-negative");
        } else {
          sleeps := sleeps + [delay];
        }
      }
      assert reg[..i] == Reached(reg, delay);
    }
  }
}
