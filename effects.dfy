/**
 * What one setup run does, as a sequence of effects: calls to the external
 * collaborators, log lines, writes to the run-state store, and the terminal
 * outcome. A run first plans the effects its inputs call for; a collaborator
 * call that throws cuts the plan short right after that call, and the run ends
 * with a single failure instead of the successful exit.
 */
module Effects {

  datatype Option<+T> = None | Some(value: T)

  /** The request handed to the installer factory. */
  datatype NodeInfo = NodeInfo(
    versionSpec: string,
    checkLatest: bool,
    auth: Option<string>,
    stable: bool,
    arch: string)

  datatype Effect =
    | Warning(message: string)                                      // a non-fatal warning
    | Info(message: string)                                         // an informational log line
    | ReadVersionFile(path: string)                                 // the version-file parser
    | Install(info: NodeInfo)                                       // the installer's setup
    | PrintEnv                                                      // the environment reporter
    | ConfigAuth(registryUrl: string, alwaysAuth: string)           // the registry-auth writer
    | SaveState(key: string, value: string)                         // a run-state store write
    | RestoreCache(packageManager: string, dependencyPath: string)  // the cache restore
    | AddMatcher(file: string)                                      // an add-matcher directive
    | Exit0                                                         // successful termination
    | Failed(message: string)                                       // the recorded failure

  /** The collaborator calls that may throw. */
  datatype Step = ParseVersionFile | SetupNode | PrintEnvDetails | ConfigureAuth | RestoreDependencyCache

  /** The collaborator call that throws in this run, and the message of its error. */
  datatype Fault = Fault(step: Step, message: string)

  /** The collaborator call an effect stands for, if it is one that may throw. */
  function StepOf(e: Effect): Option<Step> {
    match e
    case ReadVersionFile(_) => Some(ParseVersionFile)
    case Install(_) => Some(SetupNode)
    case PrintEnv => Some(PrintEnvDetails)
    case ConfigAuth(_, _) => Some(ConfigureAuth)
    case RestoreCache(_, _) => Some(RestoreDependencyCache)
    case _ => None
  }

  predicate Throws(e: Effect, fault: Option<Fault>) {
    fault.Some? && StepOf(e) == Some(fault.value.step)
  }

  predicate NoThrow(plan: seq<Effect>, fault: Option<Fault>) {
    forall i :: 0 <= i < |plan| ==> !Throws(plan[i], fault)
  }

  /**
   * The part of a plan that is carried out: all of it when nothing throws,
   * otherwise everything up to and including the first call that throws.
   */
  function Performed(plan: seq<Effect>, fault: Option<Fault>): (done: seq<Effect>)
    ensures |done| <= |plan| && done == plan[..|done|]
    ensures NoThrow(plan, fault) ==> done == plan
    ensures !NoThrow(plan, fault) ==>
      |done| > 0 && Throws(done[|done| - 1], fault) && NoThrow(done[..|done| - 1], fault)
  {
    if plan == [] then []
    else if Throws(plan[0], fault) then [plan[0]]
    else
      var rest := Performed(plan[1..], fault);
      NoThrowTail(plan, fault);
      assert [plan[0]] + rest == plan[..|rest| + 1];
      assert rest != [] ==> ([plan[0]] + rest)[..|rest|] == [plan[0]] + rest[..|rest| - 1];
      [plan[0]] + rest
  }

  /**
   * The trace of a run that follows `plan`: the performed part, then the
   * successful exit when nothing threw, or one failure carrying the error's
   * message.
   */
  function Execute(plan: seq<Effect>, fault: Option<Fault>): (trace: seq<Effect>)
    ensures NoThrow(plan, fault) ==> trace == plan + [Exit0]
    ensures !NoThrow(plan, fault) ==>
      && fault.Some?
      && 2 <= |trace| <= |plan| + 1
      && trace == plan[..|trace| - 1] + [Failed(fault.value.message)]
      && Throws(plan[|trace| - 2], fault)
      && NoThrow(plan[..|trace| - 2], fault)
  {
    var done := Performed(plan, fault);
    if NoThrow(plan, fault) then done + [Exit0]
    else
      assert done[..|done| - 1] == plan[..|done| - 1];
      done + [Failed(fault.value.message)]
  }

  /** A throw at step k: the trace is the plan up to step k and one failure; nothing later appears. */
  lemma ExecuteStopsAtFirstThrow(plan: seq<Effect>, fault: Option<Fault>, k: nat)
    requires k < |plan| && Throws(plan[k], fault) && NoThrow(plan[..k], fault)
    ensures Execute(plan, fault) == plan[..k + 1] + [Failed(fault.value.message)]
  {
    assert !NoThrow(plan, fault);
  }

  /** Whether a plan throws, past a first call that does not. */
  lemma NoThrowTail(plan: seq<Effect>, fault: Option<Fault>)
    requires plan != [] && !Throws(plan[0], fault)
    ensures NoThrow(plan, fault) <==> NoThrow(plan[1..], fault)
  {
    if NoThrow(plan[1..], fault) {
      forall i | 1 <= i < |plan| ensures !Throws(plan[i], fault) {
        assert plan[1..][i - 1] == plan[i];
      }
    }
  }

  lemma {:induction false} PerformedAppend(a: seq<Effect>, b: seq<Effect>, fault: Option<Fault>)
    ensures Performed(a + b, fault) == if NoThrow(a, fault) then a + Performed(b, fault) else Performed(a, fault)
  {
    if a == [] {
      assert a + b == b;
    } else if Throws(a[0], fault) {
      assert (a + b)[0] == a[0];
      assert !NoThrow(a, fault);
    } else {
      var ab := a + b;
      assert ab[0] == a[0] && ab[1..] == a[1..] + b;
      assert Performed(ab, fault) == [a[0]] + Performed(a[1..] + b, fault);
      assert Performed(a, fault) == [a[0]] + Performed(a[1..], fault);
      PerformedAppend(a[1..], b, fault);
      NoThrowTail(a, fault);
      if NoThrow(a, fault) {
        assert [a[0]] + (a[1..] + Performed(b, fault)) == a + Performed(b, fault);
      }
    }
  }

  lemma NoThrowAppend(a: seq<Effect>, b: seq<Effect>, fault: Option<Fault>)
    ensures NoThrow(a + b, fault) <==> NoThrow(a, fault) && NoThrow(b, fault)
  {
    if NoThrow(a, fault) && NoThrow(b, fault) {
      forall i | 0 <= i < |a + b| ensures !Throws((a + b)[i], fault) {
        if i >= |a| { assert (a + b)[i] == b[i - |a|]; }
      }
    }
    if NoThrow(a + b, fault) {
      forall i | 0 <= i < |a| ensures !Throws(a[i], fault) {
        assert (a + b)[i] == a[i];
      }
      forall i | 0 <= i < |b| ensures !Throws(b[i], fault) {
        assert (a + b)[|a| + i] == b[i];
      }
    }
  }

  /**
   * One more step of a run: an effect that does not throw is carried out and
   * the run goes on with the rest; one that throws is carried out and
   * followed by the failure, and the rest never starts.
   */
  lemma ExecuteCons(e: Effect, rest: seq<Effect>, fault: Option<Fault>)
    ensures !Throws(e, fault) ==> Execute([e] + rest, fault) == [e] + Execute(rest, fault)
    ensures Throws(e, fault) ==> Execute([e] + rest, fault) == [e, Failed(fault.value.message)]
  {
    ExecuteAppend([e], rest, fault);
    if Throws(e, fault) {
      assert !NoThrow([e], fault);
    }
  }

  /** Running two plans back to back: the second starts only if the first threw nothing. */
  lemma ExecuteAppend(a: seq<Effect>, b: seq<Effect>, fault: Option<Fault>)
    ensures Execute(a + b, fault) == if NoThrow(a, fault) then a + Execute(b, fault) else Execute(a, fault)
  {
    PerformedAppend(a, b, fault);
    NoThrowAppend(a, b, fault);
    if NoThrow(a, fault) {
      assert Performed(a + b, fault) == a + Performed(b, fault);
      assert a + Performed(b, fault) + [Execute(b, fault)[|Execute(b, fault)| - 1]] == a + Execute(b, fault);
    }
  }

  // Phases, in the order a run goes through them.
  const Preparing := 0      // warnings, log lines and the version-file parser
  const Installing := 1
  const Reporting := 2
  const Authenticating := 3
  const SavingState := 4
  const Restoring := 5
  const Matching := 6
  const Terminating := 7

  function Phase(e: Effect): (p: nat)
    ensures p <= Terminating
  {
    match e
    case Warning(_) => Preparing
    case Info(_) => Preparing
    case ReadVersionFile(_) => Preparing
    case Install(_) => Installing
    case PrintEnv => Reporting
    case ConfigAuth(_, _) => Authenticating
    case SaveState(_, _) => SavingState
    case RestoreCache(_, _) => Restoring
    case AddMatcher(_) => Matching
    case Exit0 => Terminating
    case Failed(_) => Terminating
  }

  /** No effect comes after an effect of a later phase. */
  predicate InOrder(t: seq<Effect>) {
    forall i, j :: 0 <= i < j < |t| ==> Phase(t[i]) <= Phase(t[j])
  }

  /** Every effect of `t` belongs to a phase in lo..hi. */
  predicate Within(t: seq<Effect>, lo: nat, hi: nat) {
    forall i :: 0 <= i < |t| ==> lo <= Phase(t[i]) <= hi
  }

  /** Two ordered runs, the second starting at the phase where the first ends, make an ordered run. */
  lemma InOrderAppend(a: seq<Effect>, b: seq<Effect>, lo: nat, m: nat, hi: nat)
    requires lo <= m <= hi
    requires InOrder(a) && InOrder(b) && Within(a, lo, m) && Within(b, m, hi)
    ensures InOrder(a + b) && Within(a + b, lo, hi)
  {
    forall i, j | 0 <= i < j < |a + b| ensures Phase((a + b)[i]) <= Phase((a + b)[j]) {
      if j < |a| {
        assert (a + b)[i] == a[i] && (a + b)[j] == a[j];
      } else if i >= |a| {
        assert (a + b)[i] == b[i - |a|] && (a + b)[j] == b[j - |a|];
      } else {
        assert (a + b)[i] == a[i] && (a + b)[j] == b[j - |a|];
      }
    }
    forall i | 0 <= i < |a + b| ensures lo <= Phase((a + b)[i]) <= hi {
      if i < |a| {
        assert (a + b)[i] == a[i];
      } else {
        assert (a + b)[i] == b[i - |a|];
      }
    }
  }

  /** A run whose effects all belong to one phase is ordered. */
  lemma OnePhaseInOrder(t: seq<Effect>, p: nat)
    requires Within(t, p, p)
    ensures InOrder(t)
  {
    forall i, j | 0 <= i < j < |t| ensures Phase(t[i]) <= Phase(t[j]) {
      assert Phase(t[i]) == p && Phase(t[j]) == p;
    }
  }

  /** The number of effects of phase p in t. */
  function CountPhase(t: seq<Effect>, p: nat): (n: nat)
    ensures n <= |t|
  {
    if t == [] then 0 else (if Phase(t[0]) == p then 1 else 0) + CountPhase(t[1..], p)
  }

  /** No effect of phase p is there exactly when none is counted. */
  lemma {:induction false} CountPhaseZero(t: seq<Effect>, p: nat)
    ensures CountPhase(t, p) == 0 <==> forall i :: 0 <= i < |t| ==> Phase(t[i]) != p
  {
    if t != [] {
      CountPhaseZero(t[1..], p);
      if Phase(t[0]) != p && CountPhase(t[1..], p) == 0 {
        forall i | 1 <= i < |t| ensures Phase(t[i]) != p {
          assert t[1..][i - 1] == t[i];
        }
      }
    }
  }

  lemma {:induction false} CountPhaseAppend(a: seq<Effect>, b: seq<Effect>, p: nat)
    ensures CountPhase(a + b, p) == CountPhase(a, p) + CountPhase(b, p)
  {
    if a == [] {
      assert a + b == b;
    } else {
      assert (a + b)[0] == a[0];
      assert (a + b)[1..] == a[1..] + b;
      CountPhaseAppend(a[1..], b, p);
    }
  }

  /** A run is a prefix of its plan followed by one terminal effect. */
  lemma ExecuteShape(plan: seq<Effect>, fault: Option<Fault>)
    ensures var t := Execute(plan, fault);
      && 1 <= |t| <= |plan| + 1
      && t == plan[..|t| - 1] + [t[|t| - 1]]
      && Phase(t[|t| - 1]) == Terminating
  {
    var t := Execute(plan, fault);
    if NoThrow(plan, fault) {
      assert plan[..|t| - 1] == plan;
    }
  }

  /** A prefix of an ordered plan without terminal effects is one as well. */
  lemma PrefixInOrder(plan: seq<Effect>, k: nat)
    requires k <= |plan| && InOrder(plan) && CountPhase(plan, Terminating) == 0
    ensures InOrder(plan[..k]) && Within(plan[..k], Preparing, Terminating)
    ensures CountPhase(plan[..k], Terminating) == 0
  {
    var p := plan[..k];
    forall i, j | 0 <= i < j < k ensures Phase(p[i]) <= Phase(p[j]) {
      assert p[i] == plan[i] && p[j] == plan[j];
    }
    CountPhaseZero(plan, Terminating);
    forall i | 0 <= i < k ensures Phase(p[i]) != Terminating {
      assert p[i] == plan[i];
    }
    CountPhaseZero(p, Terminating);
  }

  /**
   * A run that follows an ordered plan without terminal effects keeps the
   * order, and ends with exactly one terminal effect.
   */
  lemma ExecuteInOrderAndEndsOnce(plan: seq<Effect>, fault: Option<Fault>)
    requires InOrder(plan) && CountPhase(plan, Terminating) == 0
    ensures var t := Execute(plan, fault);
      && InOrder(t)
      && Phase(t[|t| - 1]) == Terminating
      && CountPhase(t, Terminating) == 1
  {
    var t := Execute(plan, fault);
    ExecuteShape(plan, fault);
    var k := |t| - 1;
    var last := [t[k]];
    PrefixInOrder(plan, k);
    InOrderAppend(plan[..k], last, Preparing, Terminating, Terminating);
    CountPhaseAppend(plan[..k], last, Terminating);
  }

  /** Applies one effect to the run-state store: only SaveState writes it. */
  function ApplyState(state: map<string, string>, e: Effect): map<string, string> {
    if e.SaveState? then state[e.key := e.value] else state
  }

  /** The run-state store after the effects of `t`, applied in order. */
  function StateAfter(state: map<string, string>, t: seq<Effect>): map<string, string> {
    if t == [] then state else ApplyState(StateAfter(state, t[..|t| - 1]), t[|t| - 1])
  }

  lemma {:induction false} StateAfterAppend(state: map<string, string>, a: seq<Effect>, b: seq<Effect>)
    ensures StateAfter(state, a + b) == StateAfter(StateAfter(state, a), b)
  {
    if b == [] {
      assert a + b == a;
    } else {
      assert (a + b)[..|a + b| - 1] == a + b[..|b| - 1];
      StateAfterAppend(state, a, b[..|b| - 1]);
    }
  }

  /** Effects that write no run state leave the store as it was. */
  lemma {:induction false} StateAfterWithoutSaves(state: map<string, string>, t: seq<Effect>)
    requires forall i :: 0 <= i < |t| ==> !t[i].SaveState?
    ensures StateAfter(state, t) == state
  {
    if t != [] {
      StateAfterWithoutSaves(state, t[..|t| - 1]);
    }
  }

  predicate NoSaves(t: seq<Effect>) {
    forall i :: 0 <= i < |t| ==> !t[i].SaveState?
  }

  /** Effects of the phases before the run-state write do not write run state. */
  lemma EarlyPhasesNoSaves(t: seq<Effect>)
    requires Within(t, Preparing, Authenticating)
    ensures NoSaves(t)
  {
    forall i | 0 <= i < |t| ensures !t[i].SaveState? {
      assert Phase(t[i]) <= Authenticating;
    }
  }

  /** Effects of the phases before the run-state write neither write run state nor restore the cache. */
  lemma EarlyPhasesQuiet(t: seq<Effect>, fault: Option<Fault>)
    requires Within(t, Preparing, Authenticating)
    requires fault.Some? && fault.value.step == RestoreDependencyCache
    ensures NoSaves(t) && NoThrow(t, fault)
  {
    forall i | 0 <= i < |t| ensures !t[i].SaveState? && !Throws(t[i], fault) {
      assert Phase(t[i]) <= Authenticating;
    }
  }

  /** A run that throws nowhere writes the run state only through the middle part of its plan. */
  lemma StateAfterRunOf(state: map<string, string>, a: seq<Effect>, m: seq<Effect>, b: seq<Effect>, fault: Option<Fault>)
    requires NoThrow(a + m + b, fault) && NoSaves(a) && NoSaves(b)
    ensures StateAfter(state, Execute(a + m + b, fault)) == StateAfter(state, m)
  {
    assert Execute(a + m + b, fault) == (a + m) + (b + [Exit0]);
    StateAfterAppend(state, a + m, b + [Exit0]);
    StateAfterAppend(state, a, m);
    StateAfterWithoutSaves(state, a);
    StateAfterWithoutSaves(StateAfter(state, a + m), b + [Exit0]);
  }

  /**
   * A throw at the call right after a run-state write: the run ends with the
   * write, the call and the failure, and the store keeps the write.
   */
  lemma StateAfterThrowAfterSave(state: map<string, string>, plan: seq<Effect>, a: seq<Effect>, key: string, value: string,
                                 call: Effect, b: seq<Effect>, fault: Option<Fault>)
    requires plan == a + [SaveState(key, value), call] + b
    requires NoThrow(a, fault) && NoSaves(a) && Throws(call, fault) && !call.SaveState?
    ensures var t := Execute(plan, fault);
      && t == a + [SaveState(key, value), call, Failed(fault.value.message)]
      && StateAfter(state, t) == state[key := value]
  {
    var save := SaveState(key, value);
    var k := |a| + 1;
    assert plan[..k] == a + [save];
    assert plan[k] == call;
    NoThrowAppend(a, [save], fault);
    ExecuteStopsAtFirstThrow(plan, fault, k);
    var t := Execute(plan, fault);
    assert t == (a + [save]) + [call, Failed(fault.value.message)];
    StateAfterAppend(state, a + [save], [call, Failed(fault.value.message)]);
    StateAfterAppend(state, a, [save]);
    StateAfterWithoutSaves(state, a);
    StateAfterWithoutSaves(StateAfter(state, a + [save]), [call, Failed(fault.value.message)]);
  }

  /** The store after one more effect. */
  lemma StateAfterSnoc(state: map<string, string>, t: seq<Effect>, e: Effect)
    ensures StateAfter(state, t + [e]) == ApplyState(StateAfter(state, t), e)
  {
    assert (t + [e])[..|t + [e]| - 1] == t;
  }

  /**
   * A plan that starts with effects writing no run state: if they throw
   * nothing the run goes on with the rest, otherwise it ends inside them; in
   * both cases that start leaves the store as it was.
   */
  lemma QuietStart(state: map<string, string>, a: seq<Effect>, b: seq<Effect>, fault: Option<Fault>)
    requires NoSaves(a)
    ensures NoThrow(a, fault) ==> Execute(a + b, fault) == a + Execute(b, fault) && StateAfter(state, a) == state
    ensures !NoThrow(a, fault) ==>
      && fault.Some?
      && Execute(a + b, fault) == Performed(a, fault) + [Failed(fault.value.message)]
      && StateAfter(state, Execute(a + b, fault)) == state
  {
    ExecuteAppend(a, b, fault);
    StateAfterWithoutSaves(state, a);
    if !NoThrow(a, fault) {
      var t := Execute(a, fault);
      var done := Performed(a, fault);
      assert t == done + [Failed(fault.value.message)];
      forall i | 0 <= i < |t| ensures !t[i].SaveState? {
        if i < |done| {
          assert t[i] == a[i];
        }
      }
      StateAfterWithoutSaves(state, t);
    }
  }

  // Bookkeeping for a run that issues its plan one effect at a time: `done`
  // is what has been issued, and the run still has to do what remains.

  /** An issued effect that does not throw moves from what remains to what is done. */
  lemma Advance(t0: seq<Effect>, state: map<string, string>, plan: seq<Effect>, fault: Option<Fault>,
                done: seq<Effect>, e: Effect, rest: seq<Effect>)
    requires plan == done + ([e] + rest) && NoThrow(done, fault) && !Throws(e, fault)
    ensures plan == (done + [e]) + rest && NoThrow(done + [e], fault)
    ensures (t0 + done) + [e] == t0 + (done + [e])
    ensures StateAfter(state, done + [e]) == ApplyState(StateAfter(state, done), e)
  {
    assert done + ([e] + rest) == (done + [e]) + rest;
    assert t0 + (done + [e]) == (t0 + done) + [e];
    NoThrowAppend(done, [e], fault);
    StateAfterSnoc(state, done, e);
  }

  lemma Assoc(a: seq<Effect>, b: seq<Effect>, c: seq<Effect>)
    ensures a + (b + c) == (a + b) + c
  {
  }

  /** An issued call that throws is followed by the failure, and the run is over. */
  lemma Stop(t0: seq<Effect>, state: map<string, string>, plan: seq<Effect>, fault: Option<Fault>,
             done: seq<Effect>, e: Effect, rest: seq<Effect>)
    requires plan == done + ([e] + rest) && NoThrow(done, fault) && Throws(e, fault)
    ensures (t0 + done) + [e] + [Failed(fault.value.message)] == t0 + Execute(plan, fault)
    ensures StateAfter(state, Execute(plan, fault)) == StateAfter(state, done)
  {
    ExecuteAppend(done, [e] + rest, fault);
    ExecuteCons(e, rest, fault);
    var failed := Failed(fault.value.message);
    assert [e, failed] == [e] + [failed];
    assert done + ([e] + [failed]) == (done + [e]) + [failed];
    assert t0 + (done + [e]) == (t0 + done) + [e];
    assert t0 + (done + [e] + [failed]) == (t0 + done + [e]) + [failed];
    StateAfterSnoc(state, done + [e], failed);
    StateAfterSnoc(state, done, e);
  }

  /** With nothing left to do, the run exits successfully. */
  lemma Finish(t0: seq<Effect>, state: map<string, string>, plan: seq<Effect>, fault: Option<Fault>,
               done: seq<Effect>)
    requires plan == done + [] && NoThrow(done, fault)
    ensures (t0 + done) + [Exit0] == t0 + Execute(plan, fault)
    ensures StateAfter(state, Execute(plan, fault)) == StateAfter(state, done)
  {
    assert plan == done;
    assert t0 + (done + [Exit0]) == (t0 + done) + [Exit0];
    StateAfterSnoc(state, done, Exit0);
  }
}
