/**
 * What the setup orchestrator plans to do for given inputs: version
 * precedence, the architecture default, the installer request, and which of
 * install, authentication and cache restore take place, in which order.
 * The collaborators and host queries are given as a Host value.
 */
module Setup {
  import opened Effects
  import Flags

  /** The action's named inputs; a missing key reads as the empty string. */
  type Inputs = map<string, string>

  /** The host queries and collaborator answers one run depends on. */
  datatype Host = Host(
    arch: string,                               // the host's native architecture
    workspace: string,                          // the workspace root of the job
    moduleDir: string,                          // the directory of the running module
    cacheAvailable: bool,                       // the cache capability check
    versionFiles: map<string, string>)          // the version-file parser's answers by path; no key for no answer

  function GetInput(inputs: Inputs, name: string): string {
    if name in inputs then inputs[name] else ""
  }

  /** The inputs the orchestrator reads, as the raw strings the input source gives. */
  datatype Config = Config(
    nodeVersion: string,
    nodeVersionFile: string,
    architecture: string,
    cache: string,
    token: string,
    stable: string,
    checkLatest: string,
    registryUrl: string,
    alwaysAuth: string,
    cacheDependencyPath: string)

  function ReadConfig(inputs: Inputs): Config {
    Config(
      nodeVersion := GetInput(inputs, "node-version"),
      nodeVersionFile := GetInput(inputs, "node-version-file"),
      architecture := GetInput(inputs, "architecture"),
      cache := GetInput(inputs, "cache"),
      token := GetInput(inputs, "token"),
      stable := GetInput(inputs, "stable"),
      checkLatest := GetInput(inputs, "check-latest"),
      registryUrl := GetInput(inputs, "registry-url"),
      alwaysAuth := GetInput(inputs, "always-auth"),
      cacheDependencyPath := GetInput(inputs, "cache-dependency-path"))
  }

  // Each warning is split after its first word so that the solver can read its first character.
  const BothVersionInputsWarning: string :=
    "Both " + "node-version and node-version-file inputs are specified, only node-version will be used"

  const ArchitectureWithoutVersionWarning: string :=
    "`architecture`" + " is provided but `node-version` is missing. In this configuration, the version/architecture"
    + " of Node will not be changed. To fix this, provide `architecture` in combination with `node-version`"

  function NoVersionInFileWarning(path: string): string {
    "Could not determine node version from " + path + ". Falling back"
  }

  function ResolvedMessage(file: string, version: string): string {
    "Resolved " + file + " as " + version
  }

  /** The run-state key under which the cache package manager is handed to the post-job step. */
  const CachePackageManagerKey: string := "SETUP_NODE_CACHE_PACKAGE_MANAGER"

  /** Joins a directory and a relative path with a separator. */
  function JoinPath(dir: string, name: string): string {
    dir + "/" + name
  }

  /** The version file's absolute path: the workspace root joined with the input. */
  function VersionFilePath(c: Config, host: Host): string {
    JoinPath(host.workspace, c.nodeVersionFile)
  }

  /** The parser's answer; no answer and an empty answer both read as "no version". */
  function ParsedVersion(host: Host, path: string): string {
    if path in host.versionFiles then host.versionFiles[path] else ""
  }


  /** The effective version and the effects of working it out. */
  datatype Resolution = Resolution(version: string, effects: seq<Effect>)

  /**
   * The effective version: an explicit version wins; otherwise a version
   * file is parsed; otherwise there is none. The effects are the warning for
   * conflicting inputs, the parser call, the warning for a file that yields
   * nothing, and the log line naming what the file resolved to.
   */
  function ResolveVersion(c: Config, host: Host): Resolution {
    var warnings := if c.nodeVersion != "" && c.nodeVersionFile != "" then [Warning(BothVersionInputsWarning)] else [];
    if c.nodeVersion != "" then
      Resolution(c.nodeVersion, warnings)
    else if c.nodeVersionFile != "" then
      var path := VersionFilePath(c, host);
      var parsed := ParsedVersion(host, path);
      var resolved := if parsed != "" then parsed else c.nodeVersion;
      var fallback := if parsed != "" then [] else [Warning(NoVersionInFileWarning(path))];
      Resolution(resolved, [ReadVersionFile(path)] + fallback + [Info(ResolvedMessage(c.nodeVersionFile, resolved))])
    else
      Resolution(c.nodeVersion, [])
  }

  /**
   * Version precedence: an explicit version wins (with a warning exactly
   * when a version file is given too, and without consulting the parser);
   * otherwise the version file is parsed at its workspace path, and a parser
   * answer that is empty or missing gives no version and a warning naming
   * that path; with neither input there is no version and nothing is logged.
   */
  lemma ResolveVersionPrecedence(c: Config, host: Host)
    ensures var r := ResolveVersion(c, host);
      c.nodeVersion != "" ==>
        && r.version == c.nodeVersion
        && (Warning(BothVersionInputsWarning) in r.effects <==> c.nodeVersionFile != "")
        && forall e <- r.effects :: !e.ReadVersionFile?
    ensures var r := ResolveVersion(c, host);
      c.nodeVersion == "" && c.nodeVersionFile != "" ==>
        var path := VersionFilePath(c, host);
        && ReadVersionFile(path) in r.effects
        && (ParsedVersion(host, path) != "" ==> r.version == ParsedVersion(host, path))
        && (ParsedVersion(host, path) == "" ==> r.version == "")
        && (Warning(NoVersionInFileWarning(path)) in r.effects <==> r.version == "")
    ensures var r := ResolveVersion(c, host);
      c.nodeVersion == "" && c.nodeVersionFile == "" ==> r.version == "" && r.effects == []
  {
    var path := VersionFilePath(c, host);
    if c.nodeVersion == "" && c.nodeVersionFile != "" && ParsedVersion(host, path) != "" {
      assert Warning(NoVersionInFileWarning(path)) != Info(ResolvedMessage(c.nodeVersionFile, ParsedVersion(host, path)));
    }
  }

  /**
   * Resolution only logs and consults the parser: its effects all belong to
   * the preparing phase, the parser is the only collaborator it calls, and
   * its warnings are the two resolution warnings.
   */
  lemma ResolutionEffects(c: Config, host: Host)
    ensures var r := ResolveVersion(c, host);
      forall e <- r.effects :: Phase(e) == Preparing && (e.ReadVersionFile? || StepOf(e) == None)
    ensures var r := ResolveVersion(c, host);
      forall e <- r.effects | e.Warning? ::
        e.message == BothVersionInputsWarning || e.message == NoVersionInFileWarning(VersionFilePath(c, host))
  {
  }

  /** The architecture handed to the installer: the input, or the host's when the input is empty. */
  function ResolveArch(c: Config, host: Host): string {
    if c.architecture != "" then c.architecture else host.arch
  }

  /** The installer request for a resolved version and architecture. */
  function InstallRequest(c: Config, version: string, arch: string): NodeInfo
  {
    NodeInfo(
      versionSpec := version,
      checkLatest := Flags.ParseCheckLatest(c.checkLatest),
      auth := if c.token == "" then None else Some("token " + c.token),
      stable := Flags.ParseStable(c.stable),
      arch := arch)
  }

  function ArchitectureSteps(c: Config, version: string): seq<Effect> {
    if c.architecture != "" && version == "" then [Warning(ArchitectureWithoutVersionWarning)] else []
  }

  function InstallSteps(c: Config, host: Host, version: string): seq<Effect> {
    if version != "" then [Install(InstallRequest(c, version, ResolveArch(c, host)))] else []
  }

  function AuthSteps(c: Config): seq<Effect> {
    if c.registryUrl != "" then [ConfigAuth(c.registryUrl, c.alwaysAuth)] else []
  }

  function CacheSteps(c: Config, host: Host): seq<Effect> {
    if c.cache != "" && host.cacheAvailable then
      [SaveState(CachePackageManagerKey, c.cache), RestoreCache(c.cache, c.cacheDependencyPath)]
    else []
  }

  /** The matcher directory: two levels above the module's directory, then `.github`. */
  function MatchersDir(host: Host): string {
    JoinPath(JoinPath(host.moduleDir, "../.."), ".github")
  }

  function MatcherSteps(host: Host): seq<Effect> {
    var dir := MatchersDir(host);
    [AddMatcher(JoinPath(dir, "tsc.json")),
     AddMatcher(JoinPath(dir, "eslint-stylish.json")),
     AddMatcher(JoinPath(dir, "eslint-compact.json"))]
  }

  /** Everything after version resolution, for the resolved version. */
  function Dispatch(c: Config, host: Host, version: string): seq<Effect> {
    ArchitectureSteps(c, version) + AfterArchitecture(c, host, version)
  }

  /** What is left once the architecture has been checked. */
  function AfterArchitecture(c: Config, host: Host, version: string): seq<Effect> {
    InstallSteps(c, host, version) + AfterInstall(c, host)
  }

  /** What is left once the runtime is installed: the report, then the rest. */
  function AfterInstall(c: Config, host: Host): seq<Effect> {
    [PrintEnv] + AfterReport(c, host)
  }

  /** What is left once the environment is reported. */
  function AfterReport(c: Config, host: Host): seq<Effect> {
    AuthSteps(c) + AfterAuth(c, host)
  }

  /** What is left once authentication is configured: the cache, then the matchers. */
  function AfterAuth(c: Config, host: Host): seq<Effect> {
    CacheSteps(c, host) + MatcherSteps(host)
  }

  /** The effects a run plans for its inputs, before any collaborator throws. */
  function Plan(c: Config, host: Host): seq<Effect> {
    var r := ResolveVersion(c, host);
    r.effects + Dispatch(c, host, r.version)
  }

  /** Flattening the right-nested form the steps after resolution are built in. */
  lemma RegroupSix(s1: seq<Effect>, s2: seq<Effect>, s3: seq<Effect>, s4: seq<Effect>, s5: seq<Effect>, s6: seq<Effect>)
    ensures s1 + (s2 + (s3 + (s4 + (s5 + s6)))) == s1 + s2 + s3 + s4 + s5 + s6
  {
  }

  /** Regrouping seven concatenated segments, flat and split around the cache segment. */
  lemma Regroup(s0: seq<Effect>, s1: seq<Effect>, s2: seq<Effect>, s3: seq<Effect>,
                s4: seq<Effect>, s5: seq<Effect>, s6: seq<Effect>)
    ensures s0 + (s1 + s2 + s3 + s4 + s5 + s6) == s0 + s1 + s2 + s3 + s4 + s5 + s6
    ensures s0 + s1 + s2 + s3 + s4 + s5 + s6 == (s0 + s1 + s2 + s3 + s4) + s5 + s6
  {
  }

  /** The steps after resolution, segment by segment. */
  lemma DispatchSegments(c: Config, host: Host, version: string)
    ensures Dispatch(c, host, version) == ArchitectureSteps(c, version) + InstallSteps(c, host, version)
      + [PrintEnv] + AuthSteps(c) + CacheSteps(c, host) + MatcherSteps(host)
  {
    RegroupSix(ArchitectureSteps(c, version), InstallSteps(c, host, version), [PrintEnv],
      AuthSteps(c), CacheSteps(c, host), MatcherSteps(host));
  }

  // Counting effects by phase, segment by segment.

  lemma CountSix(s1: seq<Effect>, s2: seq<Effect>, s3: seq<Effect>, s4: seq<Effect>, s5: seq<Effect>, s6: seq<Effect>, p: nat)
    ensures CountPhase(s1 + s2 + s3 + s4 + s5 + s6, p) ==
      CountPhase(s1, p) + CountPhase(s2, p) + CountPhase(s3, p) + CountPhase(s4, p) + CountPhase(s5, p) + CountPhase(s6, p)
  {
    CountPhaseAppend(s1 + s2 + s3 + s4 + s5, s6, p);
    CountPhaseAppend(s1 + s2 + s3 + s4, s5, p);
    CountPhaseAppend(s1 + s2 + s3, s4, p);
    CountPhaseAppend(s1 + s2, s3, p);
    CountPhaseAppend(s1, s2, p);
  }

  lemma CountTwo(a: Effect, b: Effect, p: nat)
    ensures CountPhase([a, b], p) == CountPhase([a], p) + CountPhase([b], p)
  {
    CountPhaseAppend([a], [b], p);
    assert [a, b] == [a] + [b];
  }

  lemma CountThree(a: Effect, b: Effect, c: Effect, p: nat)
    ensures CountPhase([a, b, c], p) == CountPhase([a], p) + CountPhase([b], p) + CountPhase([c], p)
  {
    CountTwo(a, b, p);
    CountPhaseAppend([a, b], [c], p);
    assert [a, b, c] == [a, b] + [c];
  }

  lemma ArchitectureStepsCount(c: Config, version: string, p: nat)
    ensures CountPhase(ArchitectureSteps(c, version), p) ==
      if p == Preparing && c.architecture != "" && version == "" then 1 else 0
  {
  }

  lemma InstallStepsCount(c: Config, host: Host, version: string, p: nat)
    ensures CountPhase(InstallSteps(c, host, version), p) == if p == Installing && version != "" then 1 else 0
  {
  }

  lemma AuthStepsCount(c: Config, p: nat)
    ensures CountPhase(AuthSteps(c), p) == if p == Authenticating && c.registryUrl != "" then 1 else 0
  {
  }

  lemma CacheStepsCount(c: Config, host: Host, p: nat)
    ensures CountPhase(CacheSteps(c, host), p) ==
      if (p == SavingState || p == Restoring) && c.cache != "" && host.cacheAvailable then 1 else 0
  {
    var s := CacheSteps(c, host);
    if s != [] {
      CountTwo(s[0], s[1], p);
    }
  }

  lemma MatcherStepsCount(host: Host, p: nat)
    ensures CountPhase(MatcherSteps(host), p) == if p == Matching then 3 else 0
  {
    var s := MatcherSteps(host);
    CountThree(s[0], s[1], s[2], p);
  }

  /**
   * How many effects of each phase the steps after resolution hold: the
   * architecture warning, the install, the report, authentication, the cache
   * save and restore, and the three matchers.
   */
  lemma DispatchCount(c: Config, host: Host, version: string, p: nat)
    ensures CountPhase(Dispatch(c, host, version), p) ==
      (if p == Preparing && c.architecture != "" && version == "" then 1 else 0)
      + (if p == Installing && version != "" then 1 else 0)
      + (if p == Reporting then 1 else 0)
      + (if p == Authenticating && c.registryUrl != "" then 1 else 0)
      + (if (p == SavingState || p == Restoring) && c.cache != "" && host.cacheAvailable then 1 else 0)
      + (if p == Matching then 3 else 0)
  {
    var s1, s2, s3 := ArchitectureSteps(c, version), InstallSteps(c, host, version), [PrintEnv];
    var s4, s5, s6 := AuthSteps(c), CacheSteps(c, host), MatcherSteps(host);
    CountSix(s1, s2, s3, s4, s5, s6, p);
    ArchitectureStepsCount(c, version, p);
    InstallStepsCount(c, host, version, p);
    AuthStepsCount(c, p);
    CacheStepsCount(c, host, p);
    MatcherStepsCount(host, p);
    DispatchSegments(c, host, version);
  }

  /** Resolution effects belong to the preparing phase, so a later phase is counted in the dispatched steps only. */
  lemma PlanCount(c: Config, host: Host, p: nat)
    requires p != Preparing
    ensures CountPhase(Plan(c, host), p) == CountPhase(Dispatch(c, host, ResolveVersion(c, host).version), p)
  {
    var r := ResolveVersion(c, host);
    ResolutionEffects(c, host);
    CountPhaseAppend(r.effects, Dispatch(c, host, r.version), p);
    CountPhaseZero(r.effects, p);
  }

  /** An install, auth or cache effect of the plan comes from the segment that issues it. */
  lemma PlanMember(c: Config, host: Host, e: Effect)
    requires e in Plan(c, host)
    ensures var version := ResolveVersion(c, host).version;
      && (e.Install? ==> e in InstallSteps(c, host, version))
      && (e.ConfigAuth? ==> e in AuthSteps(c))
      && (e.SaveState? || e.RestoreCache? ==> e in CacheSteps(c, host))
  {
    var r := ResolveVersion(c, host);
    DispatchSegments(c, host, r.version);
    var s1, s2, s3 := ArchitectureSteps(c, r.version), InstallSteps(c, host, r.version), [PrintEnv];
    var s4, s5, s6 := AuthSteps(c), CacheSteps(c, host), MatcherSteps(host);
    assert e in r.effects || e in s1 || e in s2 || e in s3 || e in s4 || e in s5 || e in s6;
    if e in r.effects {
      ResolutionEffects(c, host);
    }
  }

  /**
   * The installer is invoked exactly once when a version was resolved and
   * never otherwise, with the resolved version, the resolved architecture,
   * a `token` header when a token is given, and the parsed flags.
   */
  lemma InstallOnceIffVersion(c: Config, host: Host)
    ensures var version := ResolveVersion(c, host).version;
      CountPhase(Plan(c, host), Installing) == if version != "" then 1 else 0
    ensures var version := ResolveVersion(c, host).version;
      forall e <- Plan(c, host) | e.Install? ::
        && e.info.versionSpec == version && version != ""
        && e.info.arch == (if c.architecture != "" then c.architecture else host.arch)
        && e.info.auth == (if c.token != "" then Some("token " + c.token) else None)
        && (e.info.stable <==> c.stable == "" || Flags.IsTrueSpelling(c.stable))
        && (e.info.checkLatest <==> Flags.IsTrueSpelling(c.checkLatest))
  {
    var version := ResolveVersion(c, host).version;
    PlanCount(c, host, Installing);
    DispatchCount(c, host, version, Installing);
    forall e <- Plan(c, host) | e.Install? ensures e in InstallSteps(c, host, version) {
      PlanMember(c, host, e);
    }
  }

  /** Authentication is configured exactly when a registry URL is given, with the raw always-auth text. */
  lemma AuthIffRegistryUrl(c: Config, host: Host)
    ensures CountPhase(Plan(c, host), Authenticating) == if c.registryUrl != "" then 1 else 0
    ensures forall e <- Plan(c, host) | e.ConfigAuth? :: e == ConfigAuth(c.registryUrl, c.alwaysAuth)
  {
    var version := ResolveVersion(c, host).version;
    PlanCount(c, host, Authenticating);
    DispatchCount(c, host, version, Authenticating);
    forall e <- Plan(c, host) | e.ConfigAuth? ensures e in AuthSteps(c) {
      PlanMember(c, host, e);
    }
  }

  /**
   * The cache package manager is saved to run state, and the cache restored,
   * exactly when a cache is named and the feature is available.
   */
  lemma CacheIffRequestedAndAvailable(c: Config, host: Host)
    ensures CountPhase(Plan(c, host), SavingState) == if c.cache != "" && host.cacheAvailable then 1 else 0
    ensures CountPhase(Plan(c, host), Restoring) == if c.cache != "" && host.cacheAvailable then 1 else 0
  {
    var version := ResolveVersion(c, host).version;
    PlanCount(c, host, SavingState);
    DispatchCount(c, host, version, SavingState);
    PlanCount(c, host, Restoring);
    DispatchCount(c, host, version, Restoring);
  }

  /** The run state saves the cache input under the package-manager key; the restore gets the cache and the dependency path. */
  lemma CacheStepsCarryInputs(c: Config, host: Host)
    ensures forall e <- Plan(c, host) | e.SaveState? :: e == SaveState(CachePackageManagerKey, c.cache)
    ensures forall e <- Plan(c, host) | e.RestoreCache? :: e == RestoreCache(c.cache, c.cacheDependencyPath)
  {
    var version := ResolveVersion(c, host).version;
    forall e <- Plan(c, host) | e.SaveState? || e.RestoreCache? ensures e in CacheSteps(c, host) {
      PlanMember(c, host, e);
    }
  }

  /** The architecture warning appears exactly when an architecture is given but no version resolved. */
  lemma ArchitectureWarningIff(c: Config, host: Host)
    ensures Warning(ArchitectureWithoutVersionWarning) in Plan(c, host) <==>
      c.architecture != "" && ResolveVersion(c, host).version == ""
  {
    var r := ResolveVersion(c, host);
    var w := Warning(ArchitectureWithoutVersionWarning);
    var arch := ArchitectureSteps(c, r.version);
    assert w !in r.effects by {
      ResolutionEffects(c, host);
      assert ArchitectureWithoutVersionWarning[0] == '`';
      assert BothVersionInputsWarning[0] == 'B';
      assert NoVersionInFileWarning(VersionFilePath(c, host))[0] == 'C';
    }
    var after := AfterArchitecture(c, host, r.version);
    assert w !in after by {
      assert w !in InstallSteps(c, host, r.version) && w !in AuthSteps(c);
      assert w !in CacheSteps(c, host) && w !in MatcherSteps(host);
      assert after == InstallSteps(c, host, r.version) + ([PrintEnv] + (AuthSteps(c) + (CacheSteps(c, host) + MatcherSteps(host))));
    }
    assert Plan(c, host) == r.effects + (arch + after);
  }

  /** The plan, segment by segment. */
  lemma PlanSegments(c: Config, host: Host)
    ensures var r := ResolveVersion(c, host);
      Plan(c, host) == r.effects + ArchitectureSteps(c, r.version) + InstallSteps(c, host, r.version)
        + [PrintEnv] + AuthSteps(c) + CacheSteps(c, host) + MatcherSteps(host)
  {
    var r := ResolveVersion(c, host);
    DispatchSegments(c, host, r.version);
    Regroup(r.effects, ArchitectureSteps(c, r.version), InstallSteps(c, host, r.version),
      [PrintEnv], AuthSteps(c), CacheSteps(c, host), MatcherSteps(host));
  }

  /** Each segment after resolution belongs to its own phase; the cache save comes before the restore. */
  lemma SegmentPhases(c: Config, host: Host, version: string)
    ensures Within(ArchitectureSteps(c, version), Preparing, Preparing)
    ensures Within(InstallSteps(c, host, version), Installing, Installing)
    ensures Within([PrintEnv], Reporting, Reporting)
    ensures Within(AuthSteps(c), Authenticating, Authenticating)
    ensures Within(CacheSteps(c, host), SavingState, Restoring) && InOrder(CacheSteps(c, host))
    ensures Within(MatcherSteps(host), Matching, Matching)
  {
  }

  lemma ResolutionPhase(c: Config, host: Host)
    ensures Within(ResolveVersion(c, host).effects, Preparing, Preparing)
  {
    var r := ResolveVersion(c, host);
    ResolutionEffects(c, host);
    forall i | 0 <= i < |r.effects| ensures Phase(r.effects[i]) == Preparing {
      assert r.effects[i] in r.effects;
    }
  }

  /** The steps before the cache coordinator: resolution, the architecture warning, install, report and auth. */
  function BeforeCache(c: Config, host: Host): seq<Effect> {
    var r := ResolveVersion(c, host);
    r.effects + ArchitectureSteps(c, r.version) + InstallSteps(c, host, r.version) + [PrintEnv] + AuthSteps(c)
  }

  lemma BeforeCacheInOrder(c: Config, host: Host)
    ensures InOrder(BeforeCache(c, host)) && Within(BeforeCache(c, host), Preparing, Authenticating)
  {
    var r := ResolveVersion(c, host);
    var s0, s1, s2 := r.effects, ArchitectureSteps(c, r.version), InstallSteps(c, host, r.version);
    var s3, s4 := [PrintEnv], AuthSteps(c);
    ResolutionPhase(c, host);
    SegmentPhases(c, host, r.version);
    OnePhaseInOrder(s0, Preparing);
    OnePhaseInOrder(s1, Preparing);
    OnePhaseInOrder(s2, Installing);
    OnePhaseInOrder(s3, Reporting);
    OnePhaseInOrder(s4, Authenticating);
    InOrderAppend(s0, s1, Preparing, Preparing, Preparing);
    InOrderAppend(s0 + s1, s2, Preparing, Preparing, Installing);
    InOrderAppend(s0 + s1 + s2, s3, Preparing, Installing, Reporting);
    InOrderAppend(s0 + s1 + s2 + s3, s4, Preparing, Reporting, Authenticating);
  }

  /** The plan is the steps before the cache, the cache save and restore, and the matchers. */
  lemma PlanAroundCache(c: Config, host: Host)
    ensures Plan(c, host) == BeforeCache(c, host) + CacheSteps(c, host) + MatcherSteps(host)
    ensures c.cache != "" && host.cacheAvailable ==>
      Plan(c, host) == BeforeCache(c, host) + [SaveState(CachePackageManagerKey, c.cache),
                                               RestoreCache(c.cache, c.cacheDependencyPath)] + MatcherSteps(host)
  {
    var r := ResolveVersion(c, host);
    PlanSegments(c, host);
    Regroup(r.effects, ArchitectureSteps(c, r.version), InstallSteps(c, host, r.version),
      [PrintEnv], AuthSteps(c), CacheSteps(c, host), MatcherSteps(host));
  }

  /**
   * The plan runs through the phases in order: resolution output and the
   * architecture warning, install, the report, authentication, cache save
   * then restore, the matchers.
   */
  lemma PlanInOrder(c: Config, host: Host)
    ensures InOrder(Plan(c, host))
  {
    var b, s5, s6 := BeforeCache(c, host), CacheSteps(c, host), MatcherSteps(host);
    PlanAroundCache(c, host);
    BeforeCacheInOrder(c, host);
    SegmentPhases(c, host, "");
    OnePhaseInOrder(s6, Matching);
    InOrderAppend(b, s5, Preparing, Authenticating, Restoring);
    InOrderAppend(b + s5, s6, Preparing, Restoring, Matching);
  }

  /** The plan ends with the three matcher directives: tsc, eslint-stylish, eslint-compact. */
  lemma PlanEndsWithMatchers(c: Config, host: Host)
    ensures var p := Plan(c, host); var dir := MatchersDir(host);
      && |p| >= 3
      && p[|p| - 3..] == [AddMatcher(JoinPath(dir, "tsc.json")),
                          AddMatcher(JoinPath(dir, "eslint-stylish.json")),
                          AddMatcher(JoinPath(dir, "eslint-compact.json"))]
  {
    PlanAroundCache(c, host);
    var front := BeforeCache(c, host) + CacheSteps(c, host);
    assert Plan(c, host)[|front|..] == MatcherSteps(host);
  }

  /** The report runs once, the three matchers are added, and the plan holds no terminal effect. */
  lemma PlanFixedSteps(c: Config, host: Host)
    ensures CountPhase(Plan(c, host), Reporting) == 1
    ensures CountPhase(Plan(c, host), Matching) == 3
    ensures CountPhase(Plan(c, host), Terminating) == 0
  {
    var version := ResolveVersion(c, host).version;
    PlanCount(c, host, Reporting);
    DispatchCount(c, host, version, Reporting);
    PlanCount(c, host, Matching);
    DispatchCount(c, host, version, Matching);
    PlanCount(c, host, Terminating);
    DispatchCount(c, host, version, Terminating);
  }

  /**
   * Any run of the plan, whatever throws, keeps the phase order and ends
   * with exactly one terminal effect: the successful exit when nothing
   * threw, otherwise one failure carrying the error's message.
   */
  lemma RunInOrderAndEndsOnce(c: Config, host: Host, fault: Option<Fault>)
    ensures var t := Execute(Plan(c, host), fault);
      && InOrder(t)
      && CountPhase(t, Terminating) == 1
      && t[|t| - 1] == (if NoThrow(Plan(c, host), fault) then Exit0 else Failed(fault.value.message))
  {
    PlanInOrder(c, host);
    PlanFixedSteps(c, host);
    ExecuteInOrderAndEndsOnce(Plan(c, host), fault);
  }

  /** The steps before the cache write no run state. */
  lemma BeforeCacheNoSaves(c: Config, host: Host)
    ensures NoSaves(BeforeCache(c, host))
  {
    BeforeCacheInOrder(c, host);
    EarlyPhasesNoSaves(BeforeCache(c, host));
  }

  /** The steps before the cache write no run state and do not restore the cache. */
  lemma BeforeCacheQuiet(c: Config, host: Host, fault: Option<Fault>)
    requires fault.Some? && fault.value.step == RestoreDependencyCache
    ensures NoSaves(BeforeCache(c, host))
    ensures NoThrow(BeforeCache(c, host), fault)
  {
    BeforeCacheInOrder(c, host);
    EarlyPhasesQuiet(BeforeCache(c, host), fault);
  }

  /**
   * The run-state write is the only one in the plan, comes right before the
   * cache restore, and only the matchers follow the restore.
   */
  lemma SaveRightBeforeRestore(c: Config, host: Host)
    ensures var p := Plan(c, host);
      forall i | 0 <= i < |p| && p[i].SaveState? ::
        && i + 2 < |p|
        && p[i + 1] == RestoreCache(c.cache, c.cacheDependencyPath)
        && p[i + 2..] == MatcherSteps(host)
  {
    var p, b, m := Plan(c, host), BeforeCache(c, host), MatcherSteps(host);
    var save, restore := SaveState(CachePackageManagerKey, c.cache), RestoreCache(c.cache, c.cacheDependencyPath);
    PlanAroundCache(c, host);
    BeforeCacheNoSaves(c, host);
    if c.cache != "" && host.cacheAvailable {
      assert p == b + [save, restore] + m;
      forall i | 0 <= i < |p| ensures p[i].SaveState? ==> i == |b| {
        if i < |b| {
          assert p[i] == b[i];
        } else if i > |b| + 1 {
          assert p[i] == m[i - |b| - 2];
        }
      }
      assert p[|b| + 2..] == m;
    } else {
      assert p == b + m;
      forall i | 0 <= i < |p| ensures !p[i].SaveState? {
        if i < |b| {
          assert p[i] == b[i];
        } else {
          assert p[i] == m[i - |b|];
        }
      }
    }
  }

  /** The cache segment writes the package manager to run state when it is there at all. */
  lemma CacheStepsState(c: Config, host: Host, state: map<string, string>)
    ensures StateAfter(state, CacheSteps(c, host)) ==
      if c.cache != "" && host.cacheAvailable then state[CachePackageManagerKey := c.cache] else state
  {
    var s := CacheSteps(c, host);
    if s != [] {
      assert s[..1] == [s[0]] && s[..1][..0] == [];
      assert StateAfter(state, s) == StateAfter(state, s[..1]);
      assert StateAfter(state, s[..1]) == ApplyState(state, s[0]);
    }
  }

  /**
   * When nothing throws, the run state gains the cache package manager
   * exactly when a cache is named and available, and nothing else.
   */
  lemma RunStateOnSuccess(c: Config, host: Host, fault: Option<Fault>, state: map<string, string>)
    requires NoThrow(Plan(c, host), fault)
    ensures StateAfter(state, Execute(Plan(c, host), fault)) ==
      if c.cache != "" && host.cacheAvailable then state[CachePackageManagerKey := c.cache] else state
  {
    PlanAroundCache(c, host);
    BeforeCacheNoSaves(c, host);
    StateAfterRunOf(state, BeforeCache(c, host), CacheSteps(c, host), MatcherSteps(host), fault);
    CacheStepsState(c, host, state);
  }

  /**
   * A failing cache restore comes after the package manager was saved: the
   * run state keeps it, and the run ends with the save, the restore and the
   * failure.
   */
  lemma RestoreFailureKeepsSavedState(c: Config, host: Host, message: string, state: map<string, string>)
    requires c.cache != "" && host.cacheAvailable
    ensures var t := Execute(Plan(c, host), Some(Fault(RestoreDependencyCache, message)));
      && StateAfter(state, t) == state[CachePackageManagerKey := c.cache]
      && t == BeforeCache(c, host) + [SaveState(CachePackageManagerKey, c.cache),
                                      RestoreCache(c.cache, c.cacheDependencyPath),
                                      Failed(message)]
  {
    var fault := Some(Fault(RestoreDependencyCache, message));
    PlanAroundCache(c, host);
    BeforeCacheQuiet(c, host, fault);
    StateAfterThrowAfterSave(state, Plan(c, host), BeforeCache(c, host), CachePackageManagerKey, c.cache,
      RestoreCache(c.cache, c.cacheDependencyPath), MatcherSteps(host), fault);
  }

  /**
   * How a run starts: when resolution throws nothing, the run carries out the
   * resolution effects and goes on with the dispatched steps; when the
   * version-file parser throws, the run ends with the parser call and the
   * failure. Either way resolution writes no run state.
   */
  lemma ResolutionRun(c: Config, host: Host, fault: Option<Fault>, state: map<string, string>)
    ensures var r := ResolveVersion(c, host);
      NoThrow(r.effects, fault) ==>
        && Execute(Plan(c, host), fault) == r.effects + Execute(Dispatch(c, host, r.version), fault)
        && StateAfter(state, r.effects) == state
    ensures var r := ResolveVersion(c, host);
      !NoThrow(r.effects, fault) ==>
        && fault.Some?
        && Execute(Plan(c, host), fault) == Performed(r.effects, fault) + [Failed(fault.value.message)]
        && StateAfter(state, Execute(Plan(c, host), fault)) == state
  {
    var r := ResolveVersion(c, host);
    assert NoSaves(r.effects) by {
      ResolutionEffects(c, host);
      forall i | 0 <= i < |r.effects| ensures !r.effects[i].SaveState? {
        assert r.effects[i] in r.effects;
      }
    }
    QuietStart(state, r.effects, Dispatch(c, host, r.version), fault);
  }

  // A worked scenario.

  /** No inputs at all: no install, but the report and the matchers still run and the run succeeds. */
  lemma ScenarioNoInputs(host: Host)
    ensures Execute(Plan(ReadConfig(map[]), host), None) == [PrintEnv] + MatcherSteps(host) + [Exit0]
  {
    assert ReadConfig(map[]) == Config("", "", "", "", "", "", "", "", "", "");
  }
}
