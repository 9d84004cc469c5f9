/**
 * The orchestrator as it runs: one object holds the effects issued so far
 * and the run-state store, and `Run` issues the steps one statement at a
 * time, as `run()` does, stopping at the first collaborator call that
 * throws. Its contract ties the trace and the store to the plan of the
 * inputs cut at the first throw (Setup.Plan and Effects.Execute).
 */
module Runner {
  import opened Effects
  import opened Setup
  import Flags

  class SetupRun {
    /** The effects issued so far, in order. */
    var trace: seq<Effect>
    /** The run-state store, handed on to the post-job step. */
    var runState: map<string, string>

    constructor(state: map<string, string>)
      ensures trace == [] && runState == state
    {
      trace := [];
      runState := state;
    }

    /** Issues an effect that cannot throw: a log line, a warning, a directive, the outcome. */
    method Emit(e: Effect)
      modifies this
      ensures trace == old(trace) + [e] && runState == old(runState)
    {
      trace := trace + [e];
    }

    /** Calls a collaborator; `ok` is false when the call throws. */
    method Call(e: Effect, fault: Option<Fault>) returns (ok: bool)
      modifies this
      ensures ok <==> !Throws(e, fault)
      ensures trace == old(trace) + [e] && runState == old(runState)
    {
      trace := trace + [e];
      ok := !Throws(e, fault);
    }

    /** Writes the run-state store. */
    method Store(key: string, value: string)
      modifies this
      ensures trace == old(trace) + [SaveState(key, value)]
      ensures runState == old(runState)[key := value]
    {
      trace := trace + [SaveState(key, value)];
      runState := runState[key := value];
    }

    /**
     * The version to install: the explicit input, else what the version file
     * holds, else none. `thrown` carries the message when the parser throws.
     */
    method ResolveVersionInput(inputs: Inputs, host: Host, fault: Option<Fault>)
      returns (version: string, thrown: Option<string>)
      modifies this
      ensures runState == old(runState)
      ensures var r := ResolveVersion(ReadConfig(inputs), host);
        thrown.None? ==> NoThrow(r.effects, fault) && trace == old(trace) + r.effects && version == r.version
      ensures var r := ResolveVersion(ReadConfig(inputs), host);
        thrown.Some? ==>
          && !NoThrow(r.effects, fault) && trace == old(trace) + Performed(r.effects, fault)
          && fault.Some? && thrown.value == fault.value.message
    {
      ghost var c := ReadConfig(inputs);
      ghost var r := ResolveVersion(c, host);
      version := GetInput(inputs, "node-version");
      var versionFileInput := GetInput(inputs, "node-version-file");
      assert version == c.nodeVersion && versionFileInput == c.nodeVersionFile;
      if version != "" && versionFileInput != "" {
        Emit(Warning(BothVersionInputsWarning));
      }
      if version != "" {
        assert NoThrow(r.effects, fault) by {
          assert forall e <- r.effects :: StepOf(e).None?;
        }
        return version, None;
      }
      if versionFileInput != "" {
        var versionFilePath := JoinPath(host.workspace, versionFileInput);
        var read := ReadVersionFile(versionFilePath);
        assert r.effects[0] == read;
        var ok := Call(read, fault);
        if !ok {
          assert !NoThrow(r.effects, fault);
          assert Performed(r.effects, fault) == [read];
          return version, Some(fault.value.message);
        }
        var parsedVersion := ParsedVersion(host, versionFilePath);
        if parsedVersion != "" {
          version := parsedVersion;
        } else {
          Emit(Warning(NoVersionInFileWarning(versionFilePath)));
        }
        Emit(Info(ResolvedMessage(versionFileInput, version)));
        assert NoThrow(r.effects, fault) by {
          assert forall i | 1 <= i < |r.effects| :: StepOf(r.effects[i]).None?;
        }
        return version, None;
      }
      assert r.effects == [];
      thrown := None;
    }

    /** The run so far follows `plan`: `done` is issued without a throw, and `pending` is what is left of it. */
    ghost predicate Follows(t0: seq<Effect>, s0: map<string, string>, plan: seq<Effect>, fault: Option<Fault>,
                            done: seq<Effect>, pending: seq<Effect>)
      reads this
    {
      && trace == t0 + done
      && runState == StateAfter(s0, done)
      && plan == done + pending
      && NoThrow(done, fault)
    }

    /** The run has ended as `plan` cut at the first throw says. */
    ghost predicate Finished(t0: seq<Effect>, s0: map<string, string>, plan: seq<Effect>, fault: Option<Fault>)
      reads this
    {
      && trace == t0 + Execute(plan, fault)
      && runState == StateAfter(s0, Execute(plan, fault))
    }

    /** One collaborator call of the plan; when it throws, the run fails with its message. */
    method Step(e: Effect, fault: Option<Fault>, ghost t0: seq<Effect>, ghost s0: map<string, string>,
                ghost plan: seq<Effect>, ghost done: seq<Effect>, ghost rest: seq<Effect>)
      returns (ok: bool, ghost done': seq<Effect>)
      requires Follows(t0, s0, plan, fault, done, [e] + rest)
      requires !e.SaveState?
      modifies this
      ensures ok <==> !Throws(e, fault)
      ensures ok ==> done' == done + [e] && Follows(t0, s0, plan, fault, done', rest)
      ensures !ok ==> Finished(t0, s0, plan, fault)
    {
      ok := Call(e, fault);
      if ok {
        Advance(t0, s0, plan, fault, done, e, rest);
        done' := done + [e];
      } else {
        Emit(Failed(fault.value.message));
        Stop(t0, s0, plan, fault, done, e, rest);
        done' := done;
      }
    }

    /** Issues a warning of the plan; warnings cannot throw. */
    method Note(e: Effect, ghost fault: Option<Fault>, ghost t0: seq<Effect>, ghost s0: map<string, string>,
                ghost plan: seq<Effect>, ghost done: seq<Effect>, ghost rest: seq<Effect>)
      returns (ghost done': seq<Effect>)
      requires Follows(t0, s0, plan, fault, done, [e] + rest)
      requires e.Warning?
      modifies this
      ensures done' == done + [e] && Follows(t0, s0, plan, fault, done', rest)
    {
      Emit(e);
      Advance(t0, s0, plan, fault, done, e, rest);
      done' := done + [e];
    }

    /** Installs the runtime, for the given architecture, when there is a version to install. */
    method InstallRuntime(inputs: Inputs, host: Host, version: string, arch: string, fault: Option<Fault>,
                          ghost t0: seq<Effect>, ghost s0: map<string, string>, ghost plan: seq<Effect>,
                          ghost done: seq<Effect>)
      returns (ok: bool, ghost done': seq<Effect>)
      requires Follows(t0, s0, plan, fault, done, AfterArchitecture(ReadConfig(inputs), host, version))
      requires arch == ResolveArch(ReadConfig(inputs), host)
      modifies this
      ensures ok ==> Follows(t0, s0, plan, fault, done', AfterInstall(ReadConfig(inputs), host))
      ensures !ok ==> Finished(t0, s0, plan, fault)
    {
      ok, done' := true, done;
      assert version == "" ==> AfterArchitecture(ReadConfig(inputs), host, version) == AfterInstall(ReadConfig(inputs), host);
      if version != "" {
        var token := GetInput(inputs, "token");
        var auth := if token == "" then None else Some("token " + token);
        var stable := Flags.ParseStable(GetInput(inputs, "stable"));
        var checkLatest := Flags.ParseCheckLatest(GetInput(inputs, "check-latest"));
        var nodejsInfo := NodeInfo(versionSpec := version, checkLatest := checkLatest, auth := auth,
                                   stable := stable, arch := arch);
        ghost var c := ReadConfig(inputs);
        assert nodejsInfo == InstallRequest(c, version, ResolveArch(c, host));
        assert AfterArchitecture(c, host, version) == [Install(nodejsInfo)] + AfterInstall(c, host);
        ok, done' := Step(Install(nodejsInfo), fault, t0, s0, plan, done, AfterInstall(c, host));
      }
    }

    /** Configures registry authentication when a registry URL is given. */
    method ConfigureAuthentication(inputs: Inputs, host: Host, fault: Option<Fault>,
                                   ghost t0: seq<Effect>, ghost s0: map<string, string>, ghost plan: seq<Effect>,
                                   ghost done: seq<Effect>)
      returns (ok: bool, ghost done': seq<Effect>)
      requires Follows(t0, s0, plan, fault, done, AfterReport(ReadConfig(inputs), host))
      modifies this
      ensures ok ==> Follows(t0, s0, plan, fault, done', AfterAuth(ReadConfig(inputs), host))
      ensures !ok ==> Finished(t0, s0, plan, fault)
    {
      ok, done' := true, done;
      var registryUrl := GetInput(inputs, "registry-url");
      var alwaysAuth := GetInput(inputs, "always-auth");
      assert registryUrl == "" ==> AfterReport(ReadConfig(inputs), host) == AfterAuth(ReadConfig(inputs), host);
      if registryUrl != "" {
        ghost var c := ReadConfig(inputs);
        assert AfterReport(c, host) == [ConfigAuth(registryUrl, alwaysAuth)] + AfterAuth(c, host);
        ok, done' := Step(ConfigAuth(registryUrl, alwaysAuth), fault, t0, s0, plan, done, AfterAuth(ReadConfig(inputs), host));
      }
    }

    /**
     * When a package manager is named and the cache service is available:
     * saves the package manager under the run-state key, then restores the cache.
     */
    method SetupCache(inputs: Inputs, host: Host, fault: Option<Fault>,
                      ghost t0: seq<Effect>, ghost s0: map<string, string>, ghost plan: seq<Effect>,
                      ghost done: seq<Effect>)
      returns (ok: bool, ghost done': seq<Effect>)
      requires Follows(t0, s0, plan, fault, done, AfterAuth(ReadConfig(inputs), host))
      modifies this
      ensures ok ==> Follows(t0, s0, plan, fault, done', MatcherSteps(host))
      ensures !ok ==> Finished(t0, s0, plan, fault)
    {
      ok, done' := true, done;
      var cache := GetInput(inputs, "cache");
      assert !(cache != "" && host.cacheAvailable) ==> AfterAuth(ReadConfig(inputs), host) == MatcherSteps(host);
      if cache != "" && host.cacheAvailable {
        var cacheDependencyPath := GetInput(inputs, "cache-dependency-path");
        var save := SaveState(CachePackageManagerKey, cache);
        var restore := RestoreCache(cache, cacheDependencyPath);
        assert AfterAuth(ReadConfig(inputs), host) == [save] + ([restore] + MatcherSteps(host));
        Store(CachePackageManagerKey, cache);
        Advance(t0, s0, plan, fault, done, save, [restore] + MatcherSteps(host));
        ok, done' := Step(restore, fault, t0, s0, plan, done + [save], MatcherSteps(host));
      }
    }

    /** Adds the three problem matchers and ends the run successfully. */
    method AddMatchersAndExit(host: Host, fault: Option<Fault>,
                              ghost t0: seq<Effect>, ghost s0: map<string, string>, ghost plan: seq<Effect>,
                              ghost done: seq<Effect>)
      requires Follows(t0, s0, plan, fault, done, MatcherSteps(host))
      modifies this
      ensures Finished(t0, s0, plan, fault)
    {
      var matchersPath := JoinPath(JoinPath(host.moduleDir, "../.."), ".github");
      var tsc := AddMatcher(JoinPath(matchersPath, "tsc.json"));
      var stylish := AddMatcher(JoinPath(matchersPath, "eslint-stylish.json"));
      var compact := AddMatcher(JoinPath(matchersPath, "eslint-compact.json"));
      assert MatcherSteps(host) == [tsc] + ([stylish] + ([compact] + []));
      Emit(tsc);
      Advance(t0, s0, plan, fault, done, tsc, [stylish] + ([compact] + []));
      Emit(stylish);
      Advance(t0, s0, plan, fault, done + [tsc], stylish, [compact] + []);
      Emit(compact);
      Advance(t0, s0, plan, fault, done + [tsc] + [stylish], compact, []);
      Emit(Exit0);
      Finish(t0, s0, plan, fault, done + [tsc] + [stylish] + [compact]);
    }

    /**
     * Everything after version resolution: the architecture warning and
     * default, the install, then the rest once the install did not throw.
     */
    method Proceed(inputs: Inputs, host: Host, version: string, fault: Option<Fault>,
                   ghost t0: seq<Effect>, ghost s0: map<string, string>, ghost plan: seq<Effect>,
                   ghost done0: seq<Effect>)
      requires Follows(t0, s0, plan, fault, done0, Dispatch(ReadConfig(inputs), host, version))
      modifies this
      ensures Finished(t0, s0, plan, fault)
    {
      ghost var c := ReadConfig(inputs);
      ghost var done := done0;
      var arch := GetInput(inputs, "architecture");
      assert arch == c.architecture;
      if arch != "" && version == "" {
        var w := Warning(ArchitectureWithoutVersionWarning);
        assert Dispatch(c, host, version) == [w] + AfterArchitecture(c, host, version) by {
          assert ArchitectureSteps(c, version) == [w];
        }
        done := Note(w, fault, t0, s0, plan, done, AfterArchitecture(c, host, version));
      } else {
        assert Dispatch(c, host, version) == AfterArchitecture(c, host, version) by {
          assert ArchitectureSteps(c, version) == [];
        }
      }
      if arch == "" {
        arch := host.arch;
      }
      var ok;
      ok, done := InstallRuntime(inputs, host, version, arch, fault, t0, s0, plan, done);
      if ok {
        ReportAndFinish(inputs, host, fault, t0, s0, plan, done);
      }
    }

    /**
     * Everything after the install: the environment report, authentication,
     * cache and matchers in turn, each one reached only when the calls
     * before it did not throw.
     */
    method ReportAndFinish(inputs: Inputs, host: Host, fault: Option<Fault>,
                           ghost t0: seq<Effect>, ghost s0: map<string, string>, ghost plan: seq<Effect>,
                           ghost done0: seq<Effect>)
      requires Follows(t0, s0, plan, fault, done0, AfterInstall(ReadConfig(inputs), host))
      modifies this
      ensures Finished(t0, s0, plan, fault)
    {
      ghost var c := ReadConfig(inputs);
      assert AfterInstall(c, host) == [PrintEnv] + AfterReport(c, host);
      var ok, done := Step(PrintEnv, fault, t0, s0, plan, done0, AfterReport(c, host));
      if ok {
        ok, done := ConfigureAuthentication(inputs, host, fault, t0, s0, plan, done);
      }
      if ok {
        ok, done := SetupCache(inputs, host, fault, t0, s0, plan, done);
      }
      if ok {
        AddMatchersAndExit(host, fault, t0, s0, plan, done);
      }
    }

    /**
     * The orchestrator: resolve the version, warn about an architecture
     * without a version, install, report, configure authentication, save
     * the cache package manager and restore the cache, add the matchers and
     * exit; the first collaborator call that throws ends the run with one
     * failure carrying its message.
     */
    method Run(inputs: Inputs, host: Host, fault: Option<Fault>)
      modifies this
      ensures trace == old(trace) + Execute(Plan(ReadConfig(inputs), host), fault)
      ensures runState == StateAfter(old(runState), Execute(Plan(ReadConfig(inputs), host), fault))
    {
      ghost var c := ReadConfig(inputs);
      ghost var r := ResolveVersion(c, host);
      ghost var plan := Plan(c, host);
      ghost var t0, s0 := trace, runState;
      ResolutionRun(c, host, fault, s0);
      var version, thrown := ResolveVersionInput(inputs, host, fault);
      if thrown.Some? {
        Emit(Failed(thrown.value));
        Assoc(t0, Performed(r.effects, fault), [Failed(thrown.value)]);
        return;
      }
      assert plan == r.effects + Dispatch(c, host, version);
      Proceed(inputs, host, version, fault, t0, s0, plan, r.effects);
    }
  }
}
