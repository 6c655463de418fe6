/** What the participants of a star agree on in every run, and that every run ends. */
module StarResults {
  import opened Scheme
  import opened Choreography
  import opened Lockstep
  import opened Turns
  import opened Star
  import opened StarSteps
  import opened StarLiveness
  import opened StarTheorems
  import opened StarWork
  import opened StarProgress

  // ----- lockstep -----

  /** Any two participants that have completed the same number of exchanges at a window end agree on
      window, iteration, window start, verdict and on whether the coupling goes on. */
  lemma LockstepOverRuns(cfg: Config, env: Env, choices: seq<Choice>, a: Who, b: Who)
    requires ValidConfig(cfg) && Run(cfg, env, choices).Reached?
    requires Exists(Run(cfg, env, choices).s, a) && Exists(Run(cfg, env, choices).s, b)
    requires var s := Run(cfg, env, choices).s;
             var p, q := Get(s, a), Get(s, b);
             p.phase == Rest && q.phase == Rest && p.rounds == q.rounds && p.status.Running? && q.status.Running?
    ensures var s := Run(cfg, env, choices).s;
            var p, q := Get(s, a), Get(s, b);
            && p.windows == q.windows && p.iterations == q.iterations && p.clock.start == q.clock.start
            && (cfg.implicitMode ==> p.converged == q.converged)
            && IsCouplingOngoing(cfg, p) == IsCouplingOngoing(cfg, q)
  {
    var s := Run(cfg, env, choices).s;
    RunKeeps(cfg, env, choices);
    assert Inv(cfg, env, Get(s, a)) && Inv(cfg, env, Get(s, b));
    FinishedRound(cfg, env, Get(s, a));
    FinishedRound(cfg, env, Get(s, b));
    RestAgrees(cfg, HereAt(cfg, env, Get(s, a).rounds), Get(s, a), Get(s, b));
  }

  lemma RestAgrees(cfg: Config, h: Here, p: Participant, q: Participant)
    requires |p.links| >= 1 && |q.links| >= 1 && StateInv(cfg, h, p) && StateInv(cfg, h, q) && p.phase == Rest
    requires q.phase == Rest
    ensures p.windows == q.windows && p.iterations == q.iterations && p.clock.start == q.clock.start
    ensures cfg.implicitMode ==> p.converged == q.converged
  {
  }

  /** At the end of a window any two participants in the same round have computed the same window: same start
      and same length, also when the first participant dictates the length. */
  lemma WindowsAgreeOverRuns(cfg: Config, env: Env, choices: seq<Choice>, a: Who, b: Who)
    requires ValidConfig(cfg) && Run(cfg, env, choices).Reached?
    requires Exists(Run(cfg, env, choices).s, a) && Exists(Run(cfg, env, choices).s, b)
    requires var s := Run(cfg, env, choices).s;
             var p, q := Get(s, a), Get(s, b);
             AtWindowEnd(p) && AtWindowEnd(q) && p.rounds == q.rounds && p.status.Running? && q.status.Running?
    ensures var s := Run(cfg, env, choices).s;
            var p, q := Get(s, a), Get(s, b);
            p.clock == q.clock && p.windows == q.windows
  {
    var s := Run(cfg, env, choices).s;
    RunKeeps(cfg, env, choices);
    InvOf(cfg, env, s, a);
    InvOf(cfg, env, s, b);
    EndAgrees(cfg, env, Get(s, a), Get(s, b));
  }

  predicate AtWindowEnd(p: Participant) { p.phase == First || p.phase == Second || p.phase == Look }

  lemma EndAgrees(cfg: Config, env: Env, p: Participant, q: Participant)
    requires Inv(cfg, env, p) && Inv(cfg, env, q) && p.status.Running? && q.status.Running? && p.rounds == q.rounds
    requires AtWindowEnd(p) && AtWindowEnd(q)
    ensures p.clock == q.clock && p.windows == q.windows
  {
    var h := HereAt(cfg, env, p.rounds);
    assert ClockInv(cfg, h, p) && ClockInv(cfg, h, q);
  }

  /** The serial second participant decides whether to wait for data before it has completed its window.  It
      waits exactly if the first participant, once it has completed that window, goes on. */
  lemma WaitsExactlyForNextRound(cfg: Config, env: Env, choices: seq<Choice>)
    requires ValidConfig(cfg) && cfg.kind == Serial && Run(cfg, env, choices).Reached?
    requires Exists(Run(cfg, env, choices).s, Spoke(0))
    requires var s := Run(cfg, env, choices).s;
             var p, q := s.hub, s.spokes[0];
             && p.phase == Second && p.status.Running?
             && q.phase == Rest && q.status.Running? && q.rounds == p.rounds + 1
    ensures var s := Run(cfg, env, choices).s;
            IsCouplingOngoing(cfg, s.hub) || (cfg.implicitMode && !s.hub.converged)
            <==> IsCouplingOngoing(cfg, s.spokes[0])
  {
    var s := Run(cfg, env, choices).s;
    RunKeeps(cfg, env, choices);
    var p, q := s.hub, s.spokes[0];
    assert Inv(cfg, env, p) && p.hub;
    assert Inv(cfg, env, Get(s, Spoke(0)));
    FinishedRound(cfg, env, q);
    HereHolds(cfg, env, p.rounds);
    LookAheadDecision(cfg, HereAt(cfg, env, p.rounds), p);
    assert After(cfg, env, p.rounds + 1) == NextShared(After(cfg, env, p.rounds), RoundAt(cfg, env, p.rounds));
  }

  // ----- checkpoints -----

  /** The required actions form write, read*, write, ...; an iteration is repeated by one read each.  A checkpoint is
      to be written or read exactly before the first time step of a window or iteration that is still to be computed:
      written in its first iteration and read in each later one, at the time of the latest required write. */
  predicate CheckpointsSound(cfg: Config, p: Participant) {
    && SoundCheckpoints(p.actions)
    && (if BeforeFirstStep(p) && cfg.implicitMode && IsCouplingOngoing(cfg, p)
        then && p.actions != [] && p.required == {p.actions[|p.actions| - 1].action}
             && p.required == {if p.iterations == 1 then WriteCheckpoint else ReadCheckpoint}
             && p.clock.Time() == LastWrite(p.actions)
        else p.required == {})
    && (cfg.implicitMode && p.phase == Rest && IsCouplingOngoing(cfg, p) ==>
          ReadsSinceWrite(p.actions) == p.iterations - 1)
  }

  /** The participant has not computed anything of its window or iteration. */
  predicate BeforeFirstStep(p: Participant) { p.phase == Init || (p.phase == Rest && p.clock.progress == 0) }

  lemma CheckpointsHere(cfg: Config, h: Here, p: Participant)
    requires ValidConfig(cfg) && Facts(cfg, h) && ActionsInv(cfg, h, p) && ClockInv(cfg, h, p)
    requires p.phase == Init ==> h.s == Shared(1, 1, 0)
    ensures CheckpointsSound(cfg, p)
  {
    if p.phase == Rest { OngoingAtRest(cfg, h, p); }
  }

  lemma CheckpointsAreSound(cfg: Config, env: Env, choices: seq<Choice>, who: Who)
    requires ValidConfig(cfg) && Run(cfg, env, choices).Reached? && Exists(Run(cfg, env, choices).s, who)
    requires Get(Run(cfg, env, choices).s, who).status.Running?
    ensures CheckpointsSound(cfg, Get(Run(cfg, env, choices).s, who))
  {
    var s := Run(cfg, env, choices).s;
    RunKeeps(cfg, env, choices);
    var p := Get(s, who);
    assert Inv(cfg, env, p);
    HereHolds(cfg, env, p.rounds);
    CheckpointsHere(cfg, HereAt(cfg, env, p.rounds), p);
  }

  // ----- iterations -----

  /** A window completes in an iteration between the limits, and iterations never exceed the limit. */
  lemma {:induction false} IterationsAreBounded(cfg: Config, env: Env, k: nat)
    requires ValidConfig(cfg) && cfg.implicitMode
    ensures var n := After(cfg, env, k).iterations;
            && 1 <= n
            && (cfg.maxIterations != INFINITE_MAX_ITERATIONS ==> n <= cfg.maxIterations)
            && (Done(cfg, env, k) ==> cfg.minIterations <= n)
  {
    if k > 0 { IterationsAreBounded(cfg, env, k - 1); }
  }

  /** The same of the participants: each works in an iteration that is allowed, and each window it has completed
      took at least as many iterations as required. */
  lemma ParticipantsIterate(cfg: Config, env: Env, choices: seq<Choice>, who: Who)
    requires ValidConfig(cfg) && cfg.implicitMode && Run(cfg, env, choices).Reached?
    requires Exists(Run(cfg, env, choices).s, who) && Get(Run(cfg, env, choices).s, who).status.Running?
    ensures var p := Get(Run(cfg, env, choices).s, who);
            && 1 <= p.iterations && (cfg.maxIterations != INFINITE_MAX_ITERATIONS ==> p.iterations <= cfg.maxIterations)
            && forall k: nat :: k < p.rounds && Done(cfg, env, k) ==> cfg.minIterations <= After(cfg, env, k).iterations
  {
    var s := Run(cfg, env, choices).s;
    RunKeeps(cfg, env, choices);
    InvOf(cfg, env, s, who);
    var p := Get(s, who);
    IterationsAreBounded(cfg, env, p.rounds);
    forall k: nat | k < p.rounds && Done(cfg, env, k) ensures cfg.minIterations <= After(cfg, env, k).iterations {
      IterationsAreBounded(cfg, env, k);
    }
  }

  lemma GoodVerdict(cfg: Config, iterations: int, results: seq<bool>, m: nat)
    requires |results| == |cfg.measures| && m < |results| && cfg.measures[m].strict
    requires Verdict(cfg, iterations, results) && !StrictFailure(cfg, iterations, results)
    ensures results[m]
  {
  }

  /** When the hub has completed a window, every strict measure held in the last iteration. */
  lemma StrictMeasuresHeld(cfg: Config, env: Env, choices: seq<Choice>, k: nat, m: nat)
    requires ValidConfig(cfg) && cfg.implicitMode && Run(cfg, env, choices).Reached?
    requires k < Run(cfg, env, choices).s.hub.rounds && Done(cfg, env, k)
    requires m < |cfg.measures| && cfg.measures[m].strict
    ensures env.holds(k, m)
  {
    FailsExactlyInBadRounds(cfg, env, choices);
    assert !BadRound(cfg, env, k);
    GoodVerdict(cfg, After(cfg, env, k).iterations, Results(cfg, env, k), m);
  }

  /** The only participant that ever stops with an error is the hub, and it does so in the first bad round. */
  lemma FailsExactlyInBadRounds(cfg: Config, env: Env, choices: seq<Choice>)
    requires ValidConfig(cfg) && Run(cfg, env, choices).Reached?
    ensures var s := Run(cfg, env, choices).s;
            && SpokesRun(s)
            && (s.hub.status.Failed? ==> BadRound(cfg, env, s.hub.rounds) && s.hub.status != Failed(Assertion))
            && forall k: nat :: k < s.hub.rounds ==> !BadRound(cfg, env, k)
  {
    RunKeeps(cfg, env, choices);
  }

  /** A strict measure that fails ends the round with an error exactly in the last allowed iteration, or if there is
      no limit. */
  lemma StrictEndsRoundIff(cfg: Config, env: Env, k: nat, m: nat)
    requires ValidConfig(cfg) && cfg.implicitMode
    requires m < |cfg.measures| && cfg.measures[m].strict && !env.holds(k, m)
    ensures var atLimit := cfg.maxIterations == INFINITE_MAX_ITERATIONS || After(cfg, env, k).iterations == cfg.maxIterations;
            && (StrictFailure(cfg, After(cfg, env, k).iterations, Results(cfg, env, k)) <==> atLimit)
            && (atLimit ==> BadRound(cfg, env, k))
            && (!cfg.firstSetsSize ==> (BadRound(cfg, env, k) <==> atLimit))
  {
    IterationsAreBounded(cfg, env, k);
    assert !Results(cfg, env, k)[m];
  }

  /** The first bad round stops the hub: some run ends there, and none goes beyond it. */
  lemma StopsInFirstBadRound(cfg: Config, env: Env, k: nat) returns (choices: seq<Choice>)
    requires ValidConfig(cfg) && OngoingUpTo(cfg, env, k + 1)
    requires BadRound(cfg, env, k) && forall j: nat :: j < k ==> !BadRound(cfg, env, j)
    ensures Run(cfg, env, choices).Reached?
    ensures var hub := Run(cfg, env, choices).s.hub; hub.status.Failed? && hub.rounds == k
    ensures forall other: seq<Choice> :: Run(cfg, env, other).Reached? ==> Run(cfg, env, other).s.hub.rounds <= k
  {
    InitialInv(cfg, env);
    choices := RunsGoOn(cfg, env, [], k + 1);
    RunKeeps(cfg, env, choices);
    forall other: seq<Choice> | Run(cfg, env, other).Reached?
      ensures Run(cfg, env, other).s.hub.rounds <= k
    {
      RunKeeps(cfg, env, other);
    }
  }

  // ----- termination -----

  /** The configuration limits the iterations of a window and the length of the simulation. */
  predicate Limited(cfg: Config) {
    && (cfg.maxWindows != UNDEFINED || cfg.maxTime != UNDEFINED)
    && (cfg.implicitMode ==> cfg.maxIterations != INFINITE_MAX_ITERATIONS)
  }

  /** Windows left, or ticks left if only those are limited. */
  function Budget(cfg: Config, s: Shared): int {
    if cfg.maxWindows != UNDEFINED then cfg.maxWindows + 1 - s.windows else cfg.maxTime - s.start
  }

  function PerWindow(cfg: Config): int { if cfg.implicitMode then cfg.maxIterations else 1 }

  /** An upper bound on the rounds left. */
  function RoundsLeft(cfg: Config, env: Env, k: nat): nat {
    var s := After(cfg, env, k);
    var n := Budget(cfg, s) * PerWindow(cfg) - (s.iterations - 1);
    if n < 0 then 0 else n
  }

  lemma MulLess(a: int, b: int, m: int)
    requires a < b && m > 0
    ensures a * m <= b * m - m
  {
    var d := b - a - 1;
    assert d * m >= 0;
    assert b * m == a * m + m + d * m;
  }

  /** The next round either has a smaller budget of windows or is a later iteration of the same one. */
  lemma SharedDecreases(cfg: Config, env: Env, k: nat)
    requires ValidConfig(cfg) && Limited(cfg) && Ongoing(cfg, env, k)
    ensures var s, t := After(cfg, env, k), After(cfg, env, k + 1);
            && Budget(cfg, s) >= 1 && 1 <= s.iterations <= PerWindow(cfg)
            && if Done(cfg, env, k) then Budget(cfg, t) < Budget(cfg, s) && t.iterations == 1
               else Budget(cfg, t) == Budget(cfg, s) && t.iterations == s.iterations + 1
  {
    HereHolds(cfg, env, k);
    StartIsBounded(cfg, env, k);
    StartIsBounded(cfg, env, k + 1);
    if cfg.implicitMode { IterationsAreBounded(cfg, env, k); } else { ExplicitHasOneIteration(cfg, env, k); }
  }

  lemma {:induction false} ExplicitHasOneIteration(cfg: Config, env: Env, k: nat)
    requires !cfg.implicitMode
    ensures After(cfg, env, k).iterations == 1
  {
    if k > 0 { ExplicitHasOneIteration(cfg, env, k - 1); }
  }

  lemma RoundsDecrease(cfg: Config, env: Env, k: nat)
    requires ValidConfig(cfg) && Limited(cfg) && Ongoing(cfg, env, k)
    ensures RoundsLeft(cfg, env, k + 1) < RoundsLeft(cfg, env, k)
  {
    SharedDecreases(cfg, env, k);
    var b, c := Budget(cfg, After(cfg, env, k)), Budget(cfg, After(cfg, env, k + 1));
    MulLess(0, b, PerWindow(cfg));
    if c < b { MulLess(c, b, PerWindow(cfg)); }
  }

  // ----- every schedule ends -----

  /** The first round after `k` that is not ongoing any more. */
  function RoundsUntilEnd(cfg: Config, env: Env, k: nat): (n: nat)
    requires ValidConfig(cfg) && Limited(cfg)
    ensures k <= n && !Ongoing(cfg, env, n)
    decreases RoundsLeft(cfg, env, k)
  {
    if !Ongoing(cfg, env, k) then k
    else
      RoundsDecrease(cfg, env, k);
      RoundsUntilEnd(cfg, env, k + 1)
  }

  function EndOf(cfg: Config, env: Env): Goal
    requires ValidConfig(cfg) && Limited(cfg)
  {
    var n := RoundsUntilEnd(cfg, env, 0);
    Goal(n, n)
  }

  /** Who can step has not completed all rounds. */
  lemma MoverIsBehind(cfg: Config, env: Env, s: System, who: Who, dt: int, n: nat)
    requires Moving(cfg, env, s, who, dt) && !Ongoing(cfg, env, n)
    ensures Get(s, who).rounds < n
  {
    var p := Get(s, who);
    MoverReady(cfg, env, s, who, dt);
    if p.phase == Rest { FinishedRound(cfg, env, p); }
    if p.rounds >= n { OngoingBefore(cfg, env, n, p.rounds); }
  }

  /** A scheduler chooses a possible step whenever there is one, depending on the state and on the history. */
  ghost predicate Schedules(cfg: Config, env: Env, pick: (nat, System) -> Choice) {
    forall n: nat, s: System ::
      SystemInv(cfg, env, s) && (exists c: Choice :: Enabled(cfg, env, s, c.who, c.dt)) ==>
        Enabled(cfg, env, s, pick(n, s).who, pick(n, s).dt)
  }

  lemma SomeChoice(cfg: Config, env: Env, s: System)
    requires ValidConfig(cfg) && SystemInv(cfg, env, s) && s.hub.status.Running? && !AllFinished(cfg, s)
    ensures exists c: Choice :: Enabled(cfg, env, s, c.who, c.dt)
  {
    var who := NoDeadlock(cfg, env, s);
    var c := Choice(who, SomeStep(cfg, env, Get(s, who)));
    assert Enabled(cfg, env, s, c.who, c.dt);
  }

  /** The state in which a scheduler ends. */
  ghost function Final(cfg: Config, env: Env, pick: (nat, System) -> Choice, n: nat, s: System): (t: System)
    requires ValidConfig(cfg) && Limited(cfg) && SystemInv(cfg, env, s) && Schedules(cfg, env, pick)
    ensures SystemInv(cfg, env, t)
    ensures t.hub.status.Failed? || AllFinished(cfg, t)
    decreases SystemWork(cfg, env, EndOf(cfg, env), s).rounds, SystemWork(cfg, env, EndOf(cfg, env), s).stage,
              SystemWork(cfg, env, EndOf(cfg, env), s).ticks, SystemWork(cfg, env, EndOf(cfg, env), s).ops
  {
    if s.hub.status.Failed? || AllFinished(cfg, s) then s
    else
      SomeChoice(cfg, env, s);
      var c := pick(n, s);
      MoverIsBehind(cfg, env, s, c.who, c.dt, RoundsUntilEnd(cfg, env, 0));
      EveryStepWorks(cfg, env, EndOf(cfg, env), s, c.who, c.dt);
      Final(cfg, env, pick, n + 1, Step(cfg, env, s, c.who, c.dt))
  }

  /** Every run of a limited configuration ends under every scheduler: with an error of the hub, or with
      all participants finished after the same round and nothing left in the channels. */
  lemma EveryScheduleEnds(cfg: Config, env: Env, pick: (nat, System) -> Choice)
    requires ValidConfig(cfg) && Limited(cfg) && Schedules(cfg, env, pick)
    ensures SystemInv(cfg, env, Initial(cfg))
    ensures var t := Final(cfg, env, pick, 0, Initial(cfg));
            if t.hub.status.Failed? then BadRound(cfg, env, t.hub.rounds)
            else AllFinished(cfg, t)
                 && forall i: nat :: i < |t.spokes| ==>
                      t.up[i] == [] && t.down[i] == [] && t.spokes[i].rounds == t.hub.rounds
  {
    InitialInv(cfg, env);
    var t := Final(cfg, env, pick, 0, Initial(cfg));
    if t.hub.status.Running? { QuietEnd(cfg, env, t); }
  }

  // ----- looking ahead past the maximum time -----

  lemma RunOneMore(cfg: Config, env: Env, choices: seq<Choice>, s: System, c: Choice)
    requires Run(cfg, env, choices) == Reached(s) && Sized(cfg, s) && Enabled(cfg, env, s, c.who, c.dt)
    ensures Run(cfg, env, choices + [c]) == Reached(Step(cfg, env, s, c.who, c.dt))
  {
    assert (choices + [c])[..|choices|] == choices;
  }

  /** A window of two ticks in a simulation of one tick, coupled serially and explicitly. */
  const OVERSHOOT := Config(Serial, false, false, 2, 1, UNDEFINED, UNDEFINED, UNDEFINED, [],
                            [Link(true, false, false, false)])

  const FIRST := Start(OVERSHOOT, false, OVERSHOOT.links)

  const SECOND := Start(OVERSHOOT, true, OVERSHOOT.links)

  /** The two participants, with these messages under way to the second one. */
  predicate Stands(s: System, first: Participant, second: Participant, up: seq<Message>) {
    && s.spokes == [first] && s.hub == second && s.up == [up] && |s.down| == 1 && Sized(OVERSHOOT, s)
  }

  lemma FirstInitializes(env: Env)
    ensures var s := Initial(OVERSHOOT);
            && Sized(OVERSHOOT, s) && Enabled(OVERSHOOT, env, s, Spoke(0), 0)
            && Stands(Step(OVERSHOOT, env, s, Spoke(0), 0), FIRST.(phase := Rest), SECOND, [])
  {
    assert Plan(OVERSHOOT, FIRST) == [];
    assert Initial(OVERSHOOT).spokes[0] == FIRST;
  }

  lemma FirstComputes(env: Env, s: System)
    requires Stands(s, FIRST.(phase := Rest), SECOND, [])
    ensures Enabled(OVERSHOOT, env, s, Spoke(0), 1)
    ensures Stands(Step(OVERSHOOT, env, s, Spoke(0), 1), FIRST.(phase := First, clock := Clock(0, 1), windows := 2), SECOND, [])
  {
  }

  lemma FirstSendsData(env: Env, s: System)
    requires Stands(s, FIRST.(phase := First, clock := Clock(0, 1), windows := 2), SECOND, [])
    ensures Enabled(OVERSHOOT, env, s, Spoke(0), 0)
    ensures var t := Step(OVERSHOOT, env, s, Spoke(0), 0); Sized(OVERSHOOT, t) && t.hub == SECOND && t.up == [[Data(1)]]
  {
    assert Plan(OVERSHOOT, s.spokes[0]) == [SendData(0)];
    assert s.up[0] + [Data(1)] == [Data(1)];
    assert Step(OVERSHOOT, env, s, Spoke(0), 0).up[0] == [Data(1)];
  }

  lemma SecondTakesSize(env: Env, s: System)
    requires Sized(OVERSHOOT, s) && s.hub == SECOND
    ensures Enabled(OVERSHOOT, env, s, Hub, 0)
    ensures Step(OVERSHOOT, env, s, Hub, 0) == s.(hub := SECOND.(pc := 1))
  {
    assert Plan(OVERSHOOT, SECOND) == [TakeSize, ReceiveAhead, Notify];
  }

  lemma SecondLooksAhead(env: Env, s: System)
    requires Sized(OVERSHOOT, s) && s.hub == SECOND.(pc := 1) && s.up == [[Data(1)]]
    ensures Enabled(OVERSHOOT, env, s, Hub, 0)
    ensures Step(OVERSHOOT, env, s, Hub, 0).hub.stamps == [Stamp(1, 2, 2, 0)]
  {
    assert Plan(OVERSHOOT, SECOND) == [TakeSize, ReceiveAhead, Notify];
    assert Plan(OVERSHOOT, s.hub) == Plan(OVERSHOOT, SECOND);
  }

  lemma FirstSends(env: Env) returns (choices: seq<Choice>, s: System)
    ensures Run(OVERSHOOT, env, choices) == Reached(s) && Sized(OVERSHOOT, s)
    ensures s.hub == SECOND && s.up == [[Data(1)]]
  {
    choices, s := [], Initial(OVERSHOOT);
    FirstInitializes(env);
    RunOneMore(OVERSHOOT, env, choices, s, Choice(Spoke(0), 0));
    choices, s := choices + [Choice(Spoke(0), 0)], Step(OVERSHOOT, env, s, Spoke(0), 0);
    FirstComputes(env, s);
    RunOneMore(OVERSHOOT, env, choices, s, Choice(Spoke(0), 1));
    choices, s := choices + [Choice(Spoke(0), 1)], Step(OVERSHOOT, env, s, Spoke(0), 1);
    FirstSendsData(env, s);
    RunOneMore(OVERSHOOT, env, choices, s, Choice(Spoke(0), 0));
    choices, s := choices + [Choice(Spoke(0), 0)], Step(OVERSHOOT, env, s, Spoke(0), 0);
  }

  /** The second participant stores data of time 1 under time 2, beyond the end of the simulation. */
  lemma LookAheadOvershoots(env: Env) returns (choices: seq<Choice>)
    ensures ValidConfig(OVERSHOOT)
    ensures Run(OVERSHOOT, env, choices).Reached? && Run(OVERSHOOT, env, choices).s.hub.stamps == [Stamp(1, 2, 2, 0)]
  {
    var s;
    choices, s := FirstSends(env);
    SecondTakesSize(env, s);
    RunOneMore(OVERSHOOT, env, choices, s, Choice(Hub, 0));
    choices, s := choices + [Choice(Hub, 0)], s.(hub := SECOND.(pc := 1));
    SecondLooksAhead(env, s);
    RunOneMore(OVERSHOOT, env, choices, s, Choice(Hub, 0));
    choices := choices + [Choice(Hub, 0)];
  }
}
