/**
 * The check registry: `CheckRegister.checks`, a class-level dict from service
 * name to a dict from check name to check, filled in by the
 * `register_check(service)` decorator as plugin modules are imported; and the
 * paging helper `accumulate_paged_results`.
 */
module CheckRegistry {
  import opened Wrappers
  import opened OrderedMap
  import opened CheckContract

  /** service name -> (check `__name__` -> check), both in insertion order. */
  type Registry = Dict<Dict<Check>>

  /** Both levels are dicts: no service twice, no check name twice within a service. */
  predicate WellFormed(reg: Registry)
  {
    UniqueKeys(reg) && forall i :: 0 <= i < |reg| ==> UniqueKeys(reg[i].1)
  }

  /** The checks registered under `service` (empty when there are none). */
  function ChecksOf(reg: Registry, service: string): Dict<Check>
  {
    GetOr(reg, service, [])
  }

  /** The registry after `register_check(service)` has decorated `f`. */
  function Register(reg: Registry, service: string, f: Check): Registry
  {
    Put(reg, service, Put(ChecksOf(reg, service), f.name, f))
  }

  /** After registering f under s, `checks[s][f.__name__]` is f. */
  lemma RegisterFinds(reg: Registry, service: string, f: Check)
    ensures Get(Register(reg, service, f), service).Some?
    ensures Get(ChecksOf(Register(reg, service, f), service), f.name) == Some(f)
  {
    PutGet(reg, service, Put(ChecksOf(reg, service), f.name, f));
    PutGet(ChecksOf(reg, service), f.name, f);
  }

  /** The first check of a new service creates the one-entry dict `{f.__name__: f}`. */
  lemma RegisterNewService(reg: Registry, service: string, f: Check)
    requires Get(reg, service).None?
    ensures Get(Register(reg, service, f), service) == Some([(f.name, f)])
    ensures Keys(Register(reg, service, f)) == Keys(reg) + [service]
  {
    PutGet(reg, service, Put([], f.name, f));
    PutKeys(reg, service, Put([], f.name, f));
  }

  /**
   * Re-registering a name keeps the service's names as they were (the
   * entry is overwritten, not duplicated); a new name is appended. An
   * existing service keeps its place among the services.
   */
  lemma RegisterKeys(reg: Registry, service: string, f: Check)
    ensures Get(ChecksOf(reg, service), f.name).Some?
        ==> Keys(ChecksOf(Register(reg, service, f), service)) == Keys(ChecksOf(reg, service))
    ensures Get(ChecksOf(reg, service), f.name).None?
        ==> Keys(ChecksOf(Register(reg, service, f), service)) == Keys(ChecksOf(reg, service)) + [f.name]
    ensures Get(reg, service).Some? ==> Keys(Register(reg, service, f)) == Keys(reg)
  {
    var inner := Put(ChecksOf(reg, service), f.name, f);
    PutGet(reg, service, inner);
    PutKeys(ChecksOf(reg, service), f.name, f);
    PutKeys(reg, service, inner);
  }

  /** Every other name in the service and every other service are left unchanged. */
  lemma RegisterLeavesOthers(reg: Registry, service: string, f: Check)
    ensures forall n :: n != f.name ==> Get(ChecksOf(Register(reg, service, f), service), n) == Get(ChecksOf(reg, service), n)
    ensures forall s :: s != service ==> Get(Register(reg, service, f), s) == Get(reg, s)
  {
    PutGet(reg, service, Put(ChecksOf(reg, service), f.name, f));
    PutGet(ChecksOf(reg, service), f.name, f);
  }

  /** Every service's dict in a well-formed registry has unique names. */
  lemma ChecksOfUnique(reg: Registry, s: string)
    requires WellFormed(reg)
    ensures UniqueKeys(ChecksOf(reg, s))
  {
    GetMeansKey(reg, s);
    if s in Keys(reg) {
      var j :| 0 <= j < |reg| && Keys(reg)[j] == s;
      GetAt(reg, j);
    }
  }

  /** Registration keeps both levels of the registry dicts. */
  lemma RegisterWellFormed(reg: Registry, service: string, f: Check)
    requires WellFormed(reg)
    ensures WellFormed(Register(reg, service, f))
  {
    var inner := Put(ChecksOf(reg, service), f.name, f);
    var r := Put(reg, service, inner);
    PutUnique(reg, service, inner);
    ChecksOfUnique(reg, service);
    PutUnique(ChecksOf(reg, service), f.name, f);
    PutGet(reg, service, inner);
    forall i | 0 <= i < |r| ensures UniqueKeys(r[i].1) {
      GetAt(r, i);
      if r[i].0 != service {
        ChecksOfUnique(reg, r[i].0);
      }
    }
  }

  /** Registering the same check twice leaves the registry as registering it once. */
  lemma RegisterIdempotent(reg: Registry, service: string, f: Check)
    ensures Register(Register(reg, service, f), service, f) == Register(reg, service, f)
  {
    var inner := ChecksOf(reg, service);
    PutGet(reg, service, Put(inner, f.name, f));
    assert ChecksOf(Register(reg, service, f), service) == Put(inner, f.name, f);
    PutPut(inner, f.name, f, f);
    PutPut(reg, service, Put(inner, f.name, f), Put(inner, f.name, f));
  }

  /** Re-registering a name in a service: the later check replaces the earlier one. */
  lemma RegisterLastWins(reg: Registry, service: string, f: Check, g: Check)
    requires f.name == g.name
    ensures Register(Register(reg, service, f), service, g) == Register(reg, service, g)
  {
    var inner := ChecksOf(reg, service);
    PutGet(reg, service, Put(inner, f.name, f));
    assert ChecksOf(Register(reg, service, f), service) == Put(inner, f.name, f);
    PutPut(inner, f.name, f, g);
    PutPut(reg, service, Put(inner, f.name, f), Put(inner, g.name, g));
  }

  /** The registry after each (service, check) registration of `regs`, in order. */
  function RegisterAll(reg: Registry, regs: seq<(string, Check)>): Registry
    decreases |regs|
  {
    if regs == [] then reg
    else Register(RegisterAll(reg, regs[..|regs| - 1]), regs[|regs| - 1].0, regs[|regs| - 1].1)
  }

  /** A run of registrations keeps service names and every service's check names unique. */
  lemma {:induction false} RegisterAllWellFormed(reg: Registry, regs: seq<(string, Check)>)
    requires WellFormed(reg)
    ensures WellFormed(RegisterAll(reg, regs))
  {
    if regs != [] {
      var n := |regs| - 1;
      RegisterAllWellFormed(reg, regs[..n]);
      RegisterWellFormed(RegisterAll(reg, regs[..n]), regs[n].0, regs[n].1);
    }
  }

  /** No later registration reuses the service and check name of `regs[k]`. */
  predicate LastFor(regs: seq<(string, Check)>, k: nat)
    requires k < |regs|
  {
    forall j :: k < j < |regs| ==> regs[j].0 != regs[k].0 || regs[j].1.name != regs[k].1.name
  }

  /** After a run of registrations, each one that is not overridden later is in the registry. */
  lemma {:induction false} RegisterAllContains(reg: Registry, regs: seq<(string, Check)>, k: nat)
    requires k < |regs| && LastFor(regs, k)
    ensures Get(ChecksOf(RegisterAll(reg, regs), regs[k].0), regs[k].1.name) == Some(regs[k].1)
  {
    var n := |regs| - 1;
    var prev := RegisterAll(reg, regs[..n]);
    RegisterAllLast(reg, regs);
    if k < n {
      LastForPrefix(regs, k, n);
      RegisterAllContains(reg, regs[..n], k);
      RegisterKeepsEntry(prev, regs[n].0, regs[n].1, regs[k].0, regs[k].1.name);
    } else {
      RegisterFinds(prev, regs[n].0, regs[n].1);
    }
  }

  lemma RegisterAllLast(reg: Registry, regs: seq<(string, Check)>)
    requires regs != []
    ensures RegisterAll(reg, regs)
         == Register(RegisterAll(reg, regs[..|regs| - 1]), regs[|regs| - 1].0, regs[|regs| - 1].1)
  {
  }

  lemma LastForPrefix(regs: seq<(string, Check)>, k: nat, n: nat)
    requires k < n <= |regs| && LastFor(regs, k)
    ensures regs[..n][k] == regs[k] && LastFor(regs[..n], k)
  {
    forall j | k < j < n
      ensures regs[..n][j].0 != regs[k].0 || regs[..n][j].1.name != regs[k].1.name
    {
      assert regs[..n][j] == regs[j];
    }
  }

  /** One registration for another (service, name) pair leaves an entry untouched. */
  lemma RegisterKeepsEntry(reg: Registry, service: string, f: Check, s: string, n: string)
    requires service != s || f.name != n
    ensures Get(ChecksOf(Register(reg, service, f), s), n) == Get(ChecksOf(reg, s), n)
  {
    RegisterLeavesOthers(reg, service, f);
  }

  /** Registrations for other (service, name) pairs leave an entry untouched. */
  lemma {:induction false} RegisterAllLeavesOthers(reg: Registry, regs: seq<(string, Check)>, s: string, n: string)
    requires forall j :: 0 <= j < |regs| ==> regs[j].0 != s || regs[j].1.name != n
    ensures Get(ChecksOf(RegisterAll(reg, regs), s), n) == Get(ChecksOf(reg, s), n)
  {
    if regs != [] {
      var m := |regs| - 1;
      assert forall j :: 0 <= j < m ==> regs[..m][j] == regs[j];
      RegisterAllLeavesOthers(reg, regs[..m], s, n);
      RegisterKeepsEntry(RegisterAll(reg, regs[..m]), regs[m].0, regs[m].1, s, n);
    }
  }

  /** `@wraps(func)` around `func(*args, **kwargs)`: same name, same behaviour. */
  function Wrap(f: Check): (w: Check)
    ensures w.name == f.name
    ensures forall c, ctx :: w.behaviour(c, ctx) == f.behaviour(c, ctx)
  {
    Check(f.name, (c, ctx) => f.behaviour(c, ctx))
  }

  /** The dict object bound to the class attribute `CheckRegister.checks`. */
  class CheckStore {
    var entries: Registry

    ghost predicate Valid()
      reads this
    {
      WellFormed(entries)
    }

    constructor ()
      ensures Valid() && entries == []
    {
      entries := [];
    }

    /** `checks.clear()`, as the runner test does before loading plugins. */
    method Clear()
      modifies this
      ensures Valid() && entries == []
    {
      entries := [];
    }
  }

  /**
   * A `CheckRegister()` instance. Its `checks` is the class attribute, so every
   * instance reaches the same store: the one it is constructed with.
   */
  class CheckRegister {
    const checks: CheckStore

    constructor (shared: CheckStore)
      ensures checks == shared
    {
      checks := shared;
    }

    /** `register_check(service)` applied to `f`: files `f` and returns its wrapper. */
    method RegisterCheck(service: string, f: Check) returns (wrapper: Check)
      requires checks.Valid()
      modifies checks
      ensures checks.Valid()
      ensures checks.entries == Register(old(checks.entries), service, f)
      ensures wrapper.name == f.name
      ensures forall c, ctx :: wrapper.behaviour(c, ctx) == f.behaviour(c, ctx)
    {
      var existing := Get(checks.entries, service);
      ghost var before := checks.entries;
      if existing.None? {
        assert Put([], f.name, f) == [(f.name, f)];
        checks.entries := Put(checks.entries, service, [(f.name, f)]);
      } else {
        checks.entries := Put(checks.entries, service, Put(existing.value, f.name, f));
      }
      assert checks.entries == Register(before, service, f);
      RegisterWellFormed(before, service, f);
      wrapper := Wrap(f);
    }
  }

  /** A check registered through one instance is visible through any other. */
  method RegistrationIsShared(a: CheckRegister, b: CheckRegister, service: string, f: Check)
    requires a.checks == b.checks && a.checks.Valid()
    modifies a.checks
    ensures Get(ChecksOf(b.checks.entries, service), f.name) == Some(f)
  {
    var _ := a.RegisterCheck(service, f);
    RegisterFinds(old(a.checks.entries), service, f);
  }

  /** Every page carries `key`. */
  predicate PagesHave<V>(pages: seq<map<string, seq<V>>>, key: string)
  {
    forall i :: 0 <= i < |pages| ==> key in pages[i]
  }

  /** The concatenation, in page order, of every page's `key` list. */
  function ConcatPages<V>(pages: seq<map<string, seq<V>>>, key: string): seq<V>
    requires PagesHave(pages, key)
  {
    if pages == [] then [] else ConcatPages(pages[..|pages| - 1], key) + pages[|pages| - 1][key]
  }

  /** The total length of every page's `key` list. */
  function PageItemCount<V>(pages: seq<map<string, seq<V>>>, key: string): nat
    requires PagesHave(pages, key)
  {
    if pages == [] then 0 else PageItemCount(pages[1..], key) + |pages[0][key]|
  }

  /** Nothing is lost or duplicated: the result is as long as all pages together. */
  lemma {:induction false} ConcatPagesLength<V>(pages: seq<map<string, seq<V>>>, key: string)
    requires PagesHave(pages, key)
    ensures |ConcatPages(pages, key)| == PageItemCount(pages, key)
  {
    if pages != [] {
      ConcatPagesLength(pages[1..], key);
      ConcatPagesFront(pages, key);
    }
  }

  /** Peeling the first page off the front. */
  lemma {:induction false} ConcatPagesFront<V>(pages: seq<map<string, seq<V>>>, key: string)
    requires pages != [] && PagesHave(pages, key)
    ensures ConcatPages(pages, key) == pages[0][key] + ConcatPages(pages[1..], key)
  {
    var n := |pages| - 1;
    var init, tail := pages[..n], pages[1..];
    assert ConcatPages(pages, key) == ConcatPages(init, key) + pages[n][key];
    if n == 0 {
      assert init == [] && tail == [];
    } else {
      assert forall i :: 0 <= i < |init| ==> init[i] == pages[i];
      assert forall i :: 0 <= i < |tail| ==> tail[i] == pages[i + 1];
      ConcatPagesFront(init, key);
      assert tail[..n - 1] == init[1..];
      assert ConcatPages(tail, key) == ConcatPages(init[1..], key) + pages[n][key];
    }
  }

  /**
   * `accumulate_paged_results(pages, key)`: the dict `{key: [...]}` holding
   * every page's `key` list in order. A page without `key` raises KeyError.
   */
  method AccumulatePagedResults<V>(pages: seq<map<string, seq<V>>>, key: string)
    returns (r: Result<map<string, seq<V>>>)
    ensures r.Ok? <==> PagesHave(pages, key)
    ensures r.Ok? ==> r.value.Keys == {key} && r.value[key] == ConcatPages(pages, key)
  {
    var results := map[key := []];
    var i := 0;
    while i < |pages|
      invariant 0 <= i <= |pages|
      invariant PagesHave(pages[..i], key)
      invariant results.Keys == {key} && results[key] == ConcatPages(pages[..i], key)
    {
      if key !in pages[i] {
        return Err("KeyError: " + key);
      }
      assert pages[..i + 1][..i] == pages[..i];
      results := results[key := results[key] + pages[i][key]];
      i := i + 1;
    }
    assert pages[..i] == pages;
    r := Ok(results);
  }
}
