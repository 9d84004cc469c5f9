# setup-node orchestrator, modelled in Dafny

This project models the orchestrator of the `setup-node` GitHub Action: `run()` and
`resolveVersionInput()` in `src/main.ts`. The orchestrator reads named string inputs and
works out the Node.js version to install. It then decides which external steps to run, and
with which arguments:

- the installer;
- the environment report;
- the registry-auth writer;
- the run-state write and the dependency-cache restore;
- the three problem-matcher directives.

The steps run in a fixed order, and the first one that throws ends the run with a recorded failure.

The model has four modules.

- `Flags` (`flags.dfy`) covers the string-typed flags `stable` and `check-latest`. Both go through
  one conversion: upper-case the input (or a default) and compare it with `"TRUE"`.
- `Effects` (`effects.dfy`) defines what a run does as a sequence of effects:
  - the collaborator calls, warnings and log lines, run-state writes, matcher directives, and the
    terminal `Exit0` or `Failed(message)`;
  - `Execute`, which cuts a planned sequence right after its first call that throws and then
    appends the failure;
  - the phase order of effects;
  - `StateAfter`, which folds the run-state writes of a run into the run-state store.
- `Setup` (`setup.dfy`) holds the decision core as functions of the inputs and a `Host` record:
  - `ResolveVersion` gives the version precedence;
  - `Plan` gives every effect the inputs call for, in source order, before anything throws;
  - lemmas state the precedence, the conditional dispatch, the ordering, the run-state outcome
    and the termination.
- `Runner` (`runner.dfy`) is the imperative orchestrator. The class `SetupRun` holds the trace of
  effects issued so far and the run-state store. `Run` issues the steps one statement at a time,
  as `run()` does. Its contract says the new trace is the old trace followed by
  `Execute(Plan(inputs), fault)`, and the new store is the old one updated by that run's writes.
  Every property proved of `Plan` and `Execute` therefore holds for what `Run` does.

The `Host` record stands for everything the orchestrator learns from outside:

- the host architecture (`os.arch()`);
- the workspace root (`GITHUB_WORKSPACE`);
- the module directory (`__dirname`);
- the cache-availability check;
- the version-file parser's answer for each path.

A throwing collaborator is a parameter `fault`: the kind of call that throws in this run, and the
message of its error.

The code (`src/main.ts:46-47`) makes `stable` true only for an empty input or a spelling of
"true", so "yes" gives false.

## Model

| member | source | states |
|---|---|---|
| Flags.FlagValue | src/main.ts:46-49 | the input, or the default when the input is empty, is true exactly when it is one of the sixteen letter-case spellings of "true" |
| Flags.UpperIsTrueExactly | src/main.ts:46-49 | upper-casing a string gives "TRUE" exactly when the string spells "true" in some letter case |
| Flags.ParseStable | src/main.ts:46-47 | `stable` is true exactly when the input is empty or spells "true"; any other text, "yes" included, gives false |
| Flags.ParseCheckLatest | src/main.ts:48-49 | `check-latest` is true exactly when the input spells "true"; empty gives false |
| Setup.ResolveVersion | src/main.ts:100-134 | the version to install and the effects of working it out; its contract is carried by ResolveVersionPrecedence and ResolutionEffects |
| Setup.ResolveArch | src/main.ts:38-40 | the architecture input, or the host's when the input is empty; see InstallOnceIffVersion, which states it for the installer request |
| Setup.InstallRequest | src/main.ts:44-56 | the installer request built from the version, the architecture, the token and the two flags; see InstallOnceIffVersion |
| Setup.Plan | src/main.ts:20-90 | every effect the inputs call for, in source order, before anything throws; see PlanInOrder, SaveRightBeforeRestore, PlanEndsWithMatchers, PlanFixedSteps and the dispatch lemmas |
| Setup.ResolveVersionPrecedence | src/main.ts:100-134 | an explicit version wins, with the conflict warning exactly when a version file is also given, and the parser is never called. Otherwise the parser is called on the workspace-joined path, and its non-empty answer becomes the version. An empty or missing answer gives no version and a warning naming the path. With neither input there is no version and no effect |
| Setup.ResolutionEffects | src/main.ts:104-130 | resolution only logs, warns and calls the parser; its only warnings are the conflict warning and the fallback warning |
| Setup.ArchitectureWarningIff | src/main.ts:31-35 | the architecture warning is planned exactly when an architecture is given and no version was resolved |
| Setup.InstallOnceIffVersion | src/main.ts:38-58 | the installer is planned once when a version was resolved and never otherwise. Its request carries: the resolved version; the architecture input, or the host's when the input is empty; `token <token>` exactly when a token is given; and the two parsed flags |
| Setup.AuthIffRegistryUrl | src/main.ts:65-69 | authentication is planned once exactly when a registry URL is given, with that URL and the raw always-auth text |
| Setup.CacheIffRequestedAndAvailable | src/main.ts:72-80 | the run-state write and the cache restore are each planned once exactly when a cache is named and the feature is available |
| Setup.CacheStepsCarryInputs | src/main.ts:72-79 | the run-state write stores the cache input under the package-manager key; the restore gets the cache input and the dependency path |
| Setup.SaveRightBeforeRestore | src/main.ts:72-90 | every run-state write in the plan is immediately followed by the cache restore with the cache input and dependency path, and only the three matchers come after that restore |
| Setup.PlanInOrder | src/main.ts:20-90 | the plan never puts an effect of a later phase before one of an earlier phase: resolution, install, report, auth, save, restore, matchers |
| Setup.PlanEndsWithMatchers | src/main.ts:83-90 | the plan ends with the tsc, eslint-stylish and eslint-compact matchers, in that order, under the `.github` directory two levels above the module |
| Setup.PlanFixedSteps | src/main.ts:62-94 | the plan always reports the environment once, adds three matchers, and holds no terminal effect |
| Setup.RunInOrderAndEndsOnce | src/main.ts:13-98 | whatever throws, a run keeps the phase order and ends with exactly one terminal effect: `Exit0` when nothing threw, otherwise one failure carrying the error's message |
| Setup.ResolutionRun | src/main.ts:14-20 | when the parser throws, the run ends with the parser call and the failure. Otherwise the run goes on with the dispatched steps. Either way, resolution writes no run state |
| Setup.RunStateOnSuccess | src/main.ts:72-73 | after a run in which nothing throws, the store gains the package manager under its key exactly when a cache is named and available, and nothing else changes |
| Setup.RestoreFailureKeepsSavedState | src/main.ts:72-97 | when the cache restore throws, the run ends with the save, the restore and the failure, and the store keeps the saved package manager |
| Setup.ScenarioNoInputs | src/main.ts:13-98 | with no inputs at all, a run only reports the environment, adds the matchers and exits successfully |
| Effects.Execute | src/main.ts:14-97 | with no throwing call, the run is the whole plan then `Exit0`. Otherwise it is the plan up to and including the first throwing call, then one failure carrying the fault's message |
| Effects.ExecuteStopsAtFirstThrow | src/main.ts:95-97 | a throw at step k leaves the plan's first k+1 effects and the failure; nothing later appears |
| Effects.ExecuteAppend | src/main.ts:14-97 | two plans run back to back: the second starts only if the first threw nothing |
| Runner.SetupRun.constructor | src/main.ts:13-14 | a run starts with no effects issued and the given run-state store |
| Runner.SetupRun.Emit | src/main.ts:32-34 | a warning, log line or directive is appended to the trace and leaves the store unchanged |
| Runner.SetupRun.Call | src/main.ts:57-58 | a collaborator call is appended to the trace, and reports a throw exactly when it is the fault's call |
| Runner.SetupRun.Store | src/main.ts:73 | the run-state write is appended to the trace and updates that key of the store |
| Runner.SetupRun.ResolveVersionInput | src/main.ts:100-134 | when nothing throws, it issues exactly the effects of `ResolveVersion` and returns its version. When the parser throws, it issues the resolution effects up to the parser call and returns the error's message |
| Runner.SetupRun.Step | src/main.ts:95-97 | a call that does not throw moves from the plan's remainder into what is done. A call that throws is followed by the failure, and the trace and store are then those of the whole run |
| Runner.SetupRun.Note | src/main.ts:31-35 | a planned warning is issued and the run goes on with the rest of the plan |
| Runner.SetupRun.InstallRuntime | src/main.ts:43-59 | with a version, issues the planned install request and stops the run if the installer throws; with none, issues nothing |
| Runner.SetupRun.ConfigureAuthentication | src/main.ts:65-69 | with a registry URL, issues the planned authentication and stops the run if it throws; otherwise issues nothing |
| Runner.SetupRun.SetupCache | src/main.ts:72-80 | with the cache on, writes the package manager to the store, then issues the restore and stops the run if the restore throws |
| Runner.SetupRun.AddMatchersAndExit | src/main.ts:83-94 | issues the three planned matcher directives and the successful exit; the trace and store are then those of the whole run |
| Runner.SetupRun.Proceed | src/main.ts:22-59 | after resolution, issues the architecture warning when planned, defaults the architecture to the host's, and installs. It hands on to the rest only when the install did not throw, and always ends as the whole run ends |
| Runner.SetupRun.ReportAndFinish | src/main.ts:62-94 | reports, authenticates, handles the cache and adds the matchers, each only if nothing before it threw, and ends as the whole run ends |
| Runner.SetupRun.Run | src/main.ts:13-98 | the new trace is the old one followed by `Execute(Plan(inputs), fault)`, and the new store is the old one updated by that run's writes |

## Left out

- The collaborators are not modelled beyond being called:
  - the installer's `setupNodeJs`, and the installer factory choosing a distribution;
  - `printEnvDetailsAndSetOutput`, `configAuthentication` and `restoreCache`;
  - `getNodeVersionFromFile`.

  Each is one effect that either returns or throws. Their own I/O, outputs and logs are outside this model.
- `isCacheFeatureAvailable` is the boolean `Host.cacheAvailable`. Its own warnings, and any error it could throw, are not modelled.
- The path of the version file and of the matchers:
  - `path.join` is modelled as concatenation with "/" and no normalisation, so `..` segments stay in the matcher directory.
  - `__dirname`, `os.arch()` and `GITHUB_WORKSPACE` are given strings. An unset workspace is not modelled: the runner always sets it, and if it were unset, `path.join` would throw on the undefined argument and the run would fail.
- `core.getInput` is a map lookup in which a missing key reads as empty. The trimming of surrounding whitespace is not modelled.
- `toUpperCase` is modelled on ASCII letters only. No non-ASCII character upper-cases to any substring of "TRUE" (expansions such as ß to "SS" or ﬆ to "ST" do not), so the comparison with "TRUE" comes out the same.
- The numbered progress log lines (`core.info('15')` and the like) and the "process about to exist" line are left out of the trace. They carry no behaviour.
- `process.exit(0)` is the terminal `Exit0` effect, and `core.setFailed` is the terminal `Failed(message)` effect. The process exit code and the async scheduling are not modelled; each awaited call runs to completion before the next statement.
- The `core.*` logging and run-state calls (`core.warning`, `core.info`, `core.saveState`) are assumed not to throw. Only the collaborator calls listed above can end a run early.
- `src/constants.ts` is not part of this model. The run-state key for the cache package manager is taken to be `SETUP_NODE_CACHE_PACKAGE_MANAGER`.
- A `fault` names one kind of call that throws in a run, with its message. Each kind of call appears at most once in a plan, so this covers any first throw.
