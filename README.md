# ElectricEye auditor engine, modelled in Dafny

This project models the engine of ElectricEye's `sbauditor`, together with two of the sinks that receive its findings.

- **Check registry.** `CheckRegister` keeps a class-level dictionary `checks[service][check_name]`. Every instance shares it.
  - The `register_check(service)` decorator files a function under its name and returns a pass-through wrapper.
  - `accumulate_paged_results` concatenates one key's list across a sequence of result pages.
- **Auditor.** `SBAuditor` does four things:
  - it derives the AWS partition from the region;
  - it loads every plugin module, or a named one, and carries on past load failures;
  - it reads a service's region list from SSM parameter pages;
  - it runs the registered checks service by service. Each service gets its own fresh cache. Each check's findings are re-yielded in order, and an `Exception` raised by a check is caught and logged. The `sleep(delay)` after each service is outside the try, so a negative delay ends the run with a ValueError after the first service.
- **Security Hub output.** `write_findings` sends the findings in consecutive slices of at most 100.
- **PagerDuty add-on.** A Lambda handler maps each finding's severity label to a PagerDuty severity. It sends one Events API v2 "trigger" request per (finding, resource) pair.

Modules follow the source files:

- `Wrappers` holds Option/Result and Python string truthiness.
- `OrderedMap` models the insertion-ordered dict as a sequence of pairs with unique keys.
- `Findings` holds the finding record.
- `CheckContract` holds what a check is: a behaviour from cache contents and run context to the findings it yields, the cache writes it makes and whether it ended by raising. It also holds the per-service cache object and the memo helper the auditors share.
- `CheckRegistry` models `check_register.py`.
- `AuditRun` gives the specification functions of a run.
- `Auditor` models `sbauditor.py`.
- `SecHub` models `sechub.py`.
- `PagerDuty` models the add-on.

Two points where the code differs from the intended design are modelled as written:

- In `run_checks`, the region probe ends in a bare `next`, which is an expression statement and not a `continue`. A service whose region list lacks the current region is reported and still run. The intended behaviour is to skip it.
- In the PagerDuty handler, `severityLabel == 'MEDIUM' or 'LOW'` is always true. Every label other than CRITICAL and HIGH becomes "warning", and the "info" branch is dead.

An empty check name selects every check, because the test is `not requested_check_name`.

## Model

| member | source | states |
|---|---|---|
| OrderedMap.PutGet | sbauditor/check_register.py:16-19 | after dict assignment the key maps to the new value, and every other key maps to what it did before |
| OrderedMap.PutKeys | sbauditor/check_register.py:16-19 | assigning an existing key keeps the key order; assigning a new key appends it at the end |
| OrderedMap.PutUnique | sbauditor/check_register.py:16-19 | dict assignment keeps the keys unique |
| OrderedMap.PutPut | sbauditor/check_register.py:18-19 | assigning a key twice equals assigning only the second value |
| OrderedMap.GetMeansKey | sbauditor/check_register.py:16 | a lookup succeeds exactly when the key is among the dict's keys (`service_name not in self.checks`) |
| OrderedMap.GetAt | sbauditor/sbauditor.py:72 | with unique keys, each item the iteration yields is what a lookup of its key returns |
| CheckRegistry.RegisterFinds | sbauditor/check_register.py:15-19 | after f is registered under service s, s is present and `checks[s][f.__name__]` is f |
| CheckRegistry.RegisterNewService | sbauditor/check_register.py:16-17 | an unknown service gets the one-entry dict `{f.__name__: f}`, appended after the existing services |
| CheckRegistry.RegisterKeys | sbauditor/check_register.py:16-19 | a re-registered name keeps the service's key order with no duplicate; a new name is appended; a known service keeps its place among the services |
| CheckRegistry.RegisterLeavesOthers | sbauditor/check_register.py:16-19 | registration changes no other name in the service and no other service |
| CheckRegistry.RegisterWellFormed | sbauditor/check_register.py:15-19 | registration keeps service names and every service's check names unique |
| CheckRegistry.RegisterIdempotent | sbauditor/check_register.py:18-19 | registering the same function twice equals registering it once |
| CheckRegistry.RegisterLastWins | sbauditor/check_register.py:18-19 | of two registrations of one name in one service, the second replaces the first |
| CheckRegistry.RegisterAllWellFormed | sbauditor/check_register.py:15-19 | a run of registrations keeps service names and every service's check names unique |
| CheckRegistry.RegisterAllContains | sbauditor/check_register.py:15-19 | after a sequence of registrations, a (service, name) pair maps to the last function registered under it |
| CheckRegistry.RegisterAllLeavesOthers | sbauditor/check_register.py:16-19 | a sequence of registrations leaves every (service, name) pair it never names exactly as it was |
| CheckRegistry.Wrap | sbauditor/check_register.py:21-23 | the wrapper has the function's name and returns what the function returns for every cache and context |
| CheckRegistry.CheckRegister.RegisterCheck | sbauditor/check_register.py:7-27 | registration on the shared store by the insert-or-update branches; the store's new contents are `Register` of the old; the returned wrapper behaves like the function |
| CheckRegistry.RegistrationIsShared | sbauditor/check_register.py:5 | a registration made through one instance is visible through any other instance on the same class-level store |
| CheckRegistry.CheckStore.Clear | sbauditor/tests/test_sbauditor.py:28 | `checks.clear()` empties the shared store |
| CheckRegistry.ConcatPagesLength | sbauditor/check_register.py:31-35 | the concatenated list is as long as the pages' lists together |
| CheckRegistry.ConcatPagesFront | sbauditor/check_register.py:32-34 | the first page's list comes first, followed by the rest in page order |
| CheckRegistry.AccumulatePagedResults | sbauditor/check_register.py:30-35 | succeeds exactly when every page has the key (otherwise KeyError); the result has the single key `key`, whose value is the in-order concatenation of the pages' lists (`[]` for no pages) |
| CheckContract.Memo | sbauditor/auditors/aws/Amazon_S3_Auditor.py:10-15 | a truthy cached value is returned and the cache is unchanged; a missing or falsy one is replaced by the fetched value, which is returned; other keys are untouched |
| AuditRun.OutputAppend | sbauditor/sbauditor.py:72-93 | the output of consecutive invocations is the concatenation of their outputs |
| AuditRun.FailedChecksAppend | sbauditor/sbauditor.py:94-95 | the failure log of consecutive invocations is the concatenation of their logs |
| AuditRun.AllCallsAppend | sbauditor/sbauditor.py:72 | the invocations for a registry's services are those of its first services followed by those of the rest |
| AuditRun.ServiceCallsInvoked | sbauditor/sbauditor.py:78-84 | within a service the invoked checks are exactly the selected ones, in registration order |
| AuditRun.RunInvokesSelected | sbauditor/sbauditor.py:72-84 | a run invokes exactly the selected (service, check) pairs, in service-then-check registry order |
| AuditRun.RunsEveryCheckWhenUnnamed | sbauditor/sbauditor.py:80-84 | with no name or the empty name (the CLI default), every registered check runs, in registry order |
| AuditRun.RunsOnlyNamedCheck | sbauditor/sbauditor.py:80-84 | with a non-empty name, a pair is invoked exactly when it is registered and its check has that name, in whichever service |
| AuditRun.OnlyAll | sbauditor/sbauditor.py:81 | a falsy name filters nothing |
| AuditRun.OnlyNamed | sbauditor/sbauditor.py:82-83 | a truthy name keeps exactly the pairs with that check name |
| AuditRun.OutputSplit | sbauditor/sbauditor.py:72-93 | cutting the invocations at any point cuts the output at the same point |
| AuditRun.OutputSnoc | sbauditor/sbauditor.py:87-93 | one more invocation appends exactly its findings to the output |
| AuditRun.OutputAroundCall | sbauditor/sbauditor.py:85-95 | each invocation's findings, including those a failing check yielded before raising, appear in the output as one contiguous segment between the earlier and the later invocations' findings |
| AuditRun.ServiceCallsCache | sbauditor/sbauditor.py:77-92 | within a service, the first check sees the starting cache and each later check sees the cache left by the one before |
| AuditRun.ServiceCallsService | sbauditor/sbauditor.py:78-92 | every invocation made in a service's inner loop is recorded under that service |
| AuditRun.ServiceCallsFirst | sbauditor/sbauditor.py:77-92 | the first check run in a service sees the cache the service started with |
| AuditRun.AllCallsServices | sbauditor/sbauditor.py:72-77 | every invocation belongs to a service that is registered |
| AuditRun.AllCallsFirst | sbauditor/sbauditor.py:72-77 | the first invocation of a run starts from an empty cache |
| AuditRun.CacheScopedToService | sbauditor/sbauditor.py:77-88 | consecutive invocations of one service share the cache (the later sees the earlier's writes); the first invocation of another service sees an empty cache |
| AuditRun.MemoSharedWithinService | sbauditor/sbauditor.py:77-88 | a truthy value one check memoises is served from the cache to the next check of the same service |
| AuditRun.MemoNotSharedAcrossServices | sbauditor/sbauditor.py:77 | a check of a new service always fetches: nothing memoised by another service is visible |
| AuditRun.AllCallsSnoc | sbauditor/sbauditor.py:72-77 | each further service contributes its own invocations, from an empty cache |
| Auditor.PartitionOf | sbauditor/sbauditor.py:35-37 | the partition is "aws-us-gov" exactly when the region is us-gov-east-1 or us-gov-west-1, and "aws" otherwise |
| Auditor.SBAuditor.constructor | sbauditor/sbauditor.py:23-37 | falsy search path defaults to "./auditors/aws"; the registry uses the shared store; the region is AWS_REGION or the session's region; the partition follows the region |
| Auditor.RegisterAllAppend | sbauditor/sbauditor.py:51-57 | performing two batches of registrations one after the other equals performing their concatenation |
| Auditor.SBAuditor.LoadPlugin | sbauditor/sbauditor.py:46-50 | importing one plugin applies its registrations to the shared store; an exception is caught and reported, the registrations made before it stay |
| Auditor.SBAuditor.LoadPlugins | sbauditor/sbauditor.py:44-57 | a truthy name attempts exactly that plugin; otherwise every listed plugin is attempted in order whatever fails; the failures are exactly the plugins whose import raised; the store holds all their registrations in import order; nothing propagates |
| Auditor.SBAuditor.LoadListed | sbauditor/sbauditor.py:51-57 | every listed plugin is attempted in order whatever fails; the failures are exactly the plugins whose import raised; the store gets all their registrations in import order |
| Auditor.SBAuditor.GetRegions | sbauditor/sbauditor.py:59-69 | the result is the `Value` of every parameter of every page, in order, one per parameter; a page without `Parameters` or a parameter without `Value` is a KeyError |
| Auditor.SBAuditor.YieldFindings | sbauditor/sbauditor.py:87-93 | re-yields a check's findings in order after everything yielded before |
| Auditor.SBAuditor.RunServiceChecks | sbauditor/sbauditor.py:77-95 | one service: a fresh cache object, the selected checks in order on it, findings re-yielded in order, exceptions caught and logged |
| Auditor.SBAuditor.RunService | sbauditor/sbauditor.py:72-95 | one iteration of the service loop: the region probe is only reported, the service's checks run with a fresh cache object, and the run so far gains exactly that service's invocations, findings, failures and notice, each invocation holding a cache object no earlier service had |
| Auditor.SBAuditor.RunChecks | sbauditor/sbauditor.py:71-96 | the output is every selected check's findings over the services reached, in service-then-check registry order, a failing check keeping the findings it yielded; two invocations share a cache object exactly when they belong to the same service; the region probe only reports (every service reached still runs); one sleep of `delay` per service; a negative delay raises ValueError exactly when there is a service, after the first service's checks, with no sleep done |
| Auditor.ReachedPrefix | sbauditor/sbauditor.py:72-96 | the services reached are a prefix of the registry, and all of it exactly when the delay is non-negative or there is at most one service |
| Auditor.NegativeDelayFirstServiceOnly | sbauditor/sbauditor.py:72-96 | with a negative delay, the invocations of the run are exactly those of the first service |
| Auditor.PluginLoaderScenario | sbauditor/tests/test_sbauditor.py:5-19 | from a store where "test" is absent or holds only `plugin_func_1` (the test module's own import registers it), loading plugin1 by name or as the only listed plugin fails nowhere and leaves exactly `plugin_func_1` under "test" |
| Auditor.RunCheckScenario | sbauditor/tests/test_sbauditor.py:22-38 | with plugin1's check registered, an unnamed, empty-named or `plugin_func_1` run yields exactly its finding, and another name yields nothing |
| SecHub.BatchesFlatten | sbauditor/processor/outputs/sechub.py:15-16 | the batches, concatenated in call order, are the findings: nothing dropped, duplicated or reordered |
| SecHub.BatchesSizes | sbauditor/processor/outputs/sechub.py:15-16 | ceil(n/100) batches, each non-empty and at most 100 long, all but the last exactly 100 |
| SecHub.BatchAt | sbauditor/processor/outputs/sechub.py:15-16 | batch k is `findings[100k : 100k + 100]` |
| SecHub.TwoHundredFiftyFindings | sbauditor/processor/outputs/sechub.py:15-16 | 250 findings go out as 100, 100 and 50 |
| SecHub.WriteFindings | sbauditor/processor/outputs/sechub.py:11-17 | no client and no call for an empty list; otherwise the calls are exactly the batches, in order |
| PagerDuty.PdSeverity | add-ons/electriceye-pagerduty-integration/raw-source/ElectricEye-to-Pagerduty.py:19-29 | CRITICAL maps to "critical" and HIGH to "error" (both iff); every other label maps to "warning"; "info" is never produced and the `pass` branch never reached |
| PagerDuty.InformationalPagedAsWarning | add-ons/electriceye-pagerduty-integration/raw-source/ElectricEye-to-Pagerduty.py:24-27 | INFORMATIONAL is paged as "warning", and LOW as MEDIUM |
| PagerDuty.EventsCount | add-ons/electriceye-pagerduty-integration/raw-source/ElectricEye-to-Pagerduty.py:18-36 | one event per (finding, resource) pair |
| PagerDuty.EventAt | add-ons/electriceye-pagerduty-integration/raw-source/ElectricEye-to-Pagerduty.py:30-58 | the event of resource j of finding i is at its finding-then-resource position and carries: dedup_key = finding Id, component = resource Id, event_action "trigger", source "ElectricEye", class "Security Hub Finding", the mapped severity, the summary 'AWS account ' + account + ' has failed ElectricEye check ' + title, and custom details with the original label and the resource type |
| PagerDuty.EventPosition | add-ons/electriceye-pagerduty-integration/raw-source/ElectricEye-to-Pagerduty.py:36-58 | the event for resource j of finding i comes after the events of all earlier findings and the first j resources of finding i, and is built from that finding and that resource |
| PagerDuty.PostsAppend | add-ons/electriceye-pagerduty-integration/raw-source/ElectricEye-to-Pagerduty.py:66 | the requests for two runs of events are the two runs of requests, one after the other |
| PagerDuty.FindingRequests | add-ons/electriceye-pagerduty-integration/raw-source/ElectricEye-to-Pagerduty.py:36-67 | with the key read, one request per resource of the finding, in order, each carrying that resource's event; with the key unbound, the first resource raises NameError and nothing is sent |
| PagerDuty.LambdaHandler | add-ons/electriceye-pagerduty-integration/raw-source/ElectricEye-to-Pagerduty.py:6-67 | with the integration key read, one request per (finding, resource) pair in order, each carrying that pair's event; if the key read raised, the key is unbound and the first pair raises NameError before any request is sent (nothing is sent and nothing raised when there are no pairs) |

## Left out

- The AWS SDK is not modelled. STS `get_caller_identity` becomes the `account` and `sessionRegion` parameters. SSM paging becomes the `ssm` oracle that hands back parameter pages. The Security Hub client and urllib3 stand behind the recorded calls and requests. The failure of STS in the constructor is not modelled.
- `pluginbase` dynamic import becomes `PluginSource`: the plugin names it lists, and, per name, the registrations the import performs and whether it raised. How modules are located on the search path is not modelled, and neither is the `print` of each name.
- Auditor.SBAuditor.RunChecks: the region probe is the `regionsOf` oracle, which stands for `get_regions`'s answer. An exception raised by the probe itself, which would end the generator, is not modelled.
- Auditor.SBAuditor.RunChecks: the generator is modelled as consumed to the end, as `controller.run_auditor` does with `list(...)`. A consumer that stops early is not modelled.
- `sleep(delay)` is recorded as one ghost entry per service. Timing is not modelled.
- Auditor.SBAuditor.RunChecks: a check's `Outcome.Raised` and a plugin's `PluginLoad.error` stand for an `Exception` subclass, which `except Exception` catches. SystemExit, KeyboardInterrupt and GeneratorExit pass through `except Exception` and would end the run; they are not modelled.
- Auditor.SBAuditor.LoadPlugins: as above, an import that ends with SystemExit or KeyboardInterrupt would propagate out of `load_plugins`; only `Exception` subclasses are modelled.
- SecHub.WriteFindings: `batch_import_findings` is modelled as always returning. A call that raises would skip every later batch and propagate; that path is not modelled.
- PagerDuty.LambdaHandler: `http.request` is modelled as always returning. A request that raises would skip every later pair and propagate; that path is not modelled.
- PagerDuty.LambdaHandler: reading `os.environ['PAGERDUTY_INTEGRATION_KEY_PARAMETER']` raises KeyError before anything else when the variable is unset. The environment is not modelled; the handler starts from the SSM read.
- A check is modelled by what its iteration yields: a prefix of findings, its cache writes and whether it raised. The individual auditors are not modelled. They are boto3 calls and literal finding dictionaries, some with wall-clock timestamps and floating point. Only the memo helper they share is modelled, as `CheckContract.Memo`.
- `print_checks_md` is not modelled. It builds a documentation table from `inspect.getfile` and docstrings.
- `controller.py` is not modelled. It is CLI parsing. `processor/main.py` and `processor/outputs/output_base.py` (the `SecurityBotOutput` registration decorator) are not part of this model.
- The ChatOps add-ons are not modelled; they are webhook POST fan-out with no branching.
- Logging `print`s are not modelled, and neither is the `print(r)` of each PagerDuty response.
- `write_findings` returns None in every case, so the model returns only the client flag and the recorded calls.
- PagerDuty.LambdaHandler: a finding or resource missing one of the keys the handler reads would raise KeyError. Findings are modelled as records that have every field, so that path is absent. The JSON encoding of the body is not modelled, and neither is the HTTP response.
- Findings are kept opaque apart from the fields the PagerDuty handler reads.
