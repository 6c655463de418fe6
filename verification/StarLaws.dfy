/** What a run does, said with the configuration, the solvers' decisions and the clock alone: when a window is
    completed, which time steps are allowed and when the simulation ends. */
module StarLaws {
  import opened Scheme
  import opened Choreography
  import opened Places
  import opened Lockstep
  import opened Turns
  import opened Star
  import opened StarTheorems

  /** The measures of round `k` ask for no further iteration. */
  predicate Agreed(cfg: Config, env: Env, k: nat) {
    && cfg.measures != []
    && ((forall m: nat :: m < |cfg.measures| ==> env.holds(k, m))
        || ((exists m: nat :: m < |cfg.measures| && env.holds(k, m) && cfg.measures[m].suffices)
            && (forall m: nat :: m < |cfg.measures| && cfg.measures[m].strict ==> env.holds(k, m))))
  }

  lemma MeasuredMeans(cfg: Config, env: Env, k: nat, iterations: int)
    ensures Measured(cfg, iterations, Results(cfg, env, k)) <==> iterations >= cfg.minIterations && Agreed(cfg, env, k)
  {
    var results := Results(cfg, env, k);
    assert forall m: nat :: m < |cfg.measures| ==> results[m] == env.holds(k, m);
    if forall m: nat :: m < |cfg.measures| ==> env.holds(k, m) {
      assert forall m :: 0 <= m < |results| ==> results[m];
    }
    if m: nat :| m < |cfg.measures| && env.holds(k, m) && cfg.measures[m].suffices {
      assert results[m] && cfg.measures[m].suffices;
    }
  }

  /** An explicit scheme completes a window in every round.  An implicit one does so in the last allowed iteration, and
      from the first allowed iteration on if there are measures and either all hold, or one that suffices holds and no
      strict one fails.  In every other round it repeats the window. */
  lemma WindowGrowsIff(cfg: Config, env: Env, k: nat)
    requires ValidConfig(cfg)
    ensures After(cfg, env, 0) == Shared(1, 1, 0)
    ensures var s := After(cfg, env, k);
            var grows := !cfg.implicitMode || s.iterations == cfg.maxIterations
                         || (s.iterations >= cfg.minIterations && Agreed(cfg, env, k));
            After(cfg, env, k + 1) == if grows then Shared(s.windows + 1, 1, s.start + Len(cfg, env, k))
                                      else Shared(s.windows, s.iterations + 1, s.start)
  {
    MeasuredMeans(cfg, env, k, After(cfg, env, k).iterations);
  }

  /** A round ends in an error of a strict measure exactly if one fails and no further iteration is allowed; without a
      limit none ever is. */
  lemma StrictFailureIff(cfg: Config, env: Env, k: nat, iterations: int)
    ensures StrictFailure(cfg, iterations, Results(cfg, env, k))
            <==> iterations >= cfg.maxIterations
                 && exists m: nat :: m < |cfg.measures| && cfg.measures[m].strict && !env.holds(k, m)
  {
    var results := Results(cfg, env, k);
    if m: nat :| m < |cfg.measures| && cfg.measures[m].strict && !env.holds(k, m) {
      assert cfg.measures[m].strict && !results[m];
    }
  }

  /** A configured window size is used up to the maximum time; a dictated one never goes beyond it. */
  lemma WindowLength(cfg: Config, env: Env, k: nat)
    requires ValidConfig(cfg) && Ongoing(cfg, env, k)
    ensures var start, len := After(cfg, env, k).start, Len(cfg, env, k);
            && len > 0 && (cfg.maxTime != UNDEFINED ==> start + len <= cfg.maxTime)
            && (!cfg.firstSetsSize ==>
                  len <= cfg.windowSize && (len == cfg.windowSize || start + len == cfg.maxTime))
  {
    StartIsBounded(cfg, env, k);
  }

  lemma {:induction false} SameDecisionsBefore(cfg: Config, env: Env, other: Env, k: nat)
    requires env.holds == other.holds && forall j: nat :: j < k ==> env.size(j) == other.size(j)
    ensures After(cfg, env, k) == After(cfg, other, k)
  {
    if k > 0 {
      SameDecisionsBefore(cfg, env, other, k - 1);
      assert Results(cfg, env, k - 1) == Results(cfg, other, k - 1);
    }
  }

  /** A participant that dictates the size may compute any positive number of ticks up to the maximum time: it is the
      length of the window under some decisions, which agree with the ones before. */
  lemma EverySizeIsPossible(cfg: Config, env: Env, k: nat, dt: int) returns (other: Env)
    requires ValidConfig(cfg) && cfg.firstSetsSize && dt > 0
    requires cfg.maxTime != UNDEFINED ==> After(cfg, env, k).start + dt <= cfg.maxTime
    ensures other.holds == env.holds && forall j: nat :: j != k ==> other.size(j) == env.size(j)
    ensures After(cfg, other, k) == After(cfg, env, k) && Len(cfg, other, k) == dt
  {
    other := Env(env.holds, (j: nat) => if j == k then dt else env.size(j));
    SameDecisionsBefore(cfg, env, other, k);
  }

  /** The rounds that end in an error. */
  lemma BadRoundIff(cfg: Config, env: Env, k: nat)
    ensures BadRound(cfg, env, k)
            <==> cfg.implicitMode
                 && ((After(cfg, env, k).iterations >= cfg.maxIterations
                      && exists m: nat :: m < |cfg.measures| && cfg.measures[m].strict && !env.holds(k, m))
                     || (cfg.firstSetsSize && After(cfg, env, k + 1).windows == After(cfg, env, k).windows
                         && Len(cfg, env, k + 1) != Len(cfg, env, k)))
  {
    StrictFailureIff(cfg, env, k, After(cfg, env, k).iterations);
  }

  // ----- the participants of a reachable state -----

  /** A participant between two exchanges that is running in a reachable state. */
  predicate Rests(cfg: Config, env: Env, choices: seq<Choice>, who: Who)
    requires ValidConfig(cfg)
  {
    && Run(cfg, env, choices).Reached? && Exists(Run(cfg, env, choices).s, who)
    && Get(Run(cfg, env, choices).s, who).status.Running? && Get(Run(cfg, env, choices).s, who).phase == Rest
  }

  function Resting(cfg: Config, env: Env, choices: seq<Choice>, who: Who): Participant
    requires ValidConfig(cfg) && Rests(cfg, env, choices, who)
  {
    Get(Run(cfg, env, choices).s, who)
  }

  lemma RestingInv(cfg: Config, env: Env, choices: seq<Choice>, who: Who)
    requires ValidConfig(cfg) && Rests(cfg, env, choices, who)
    ensures Inv(cfg, env, Resting(cfg, env, choices, who))
  {
    RunKeeps(cfg, env, choices);
    InvOf(cfg, env, Run(cfg, env, choices).s, who);
  }

  /** Every participant is where the rounds it has completed have led. */
  lemma StandsAt(cfg: Config, env: Env, choices: seq<Choice>, who: Who)
    requires ValidConfig(cfg) && Rests(cfg, env, choices, who)
    ensures var p := Resting(cfg, env, choices, who);
            && After(cfg, env, p.rounds) == Shared(p.windows, p.iterations, p.clock.start)
            && 0 <= p.clock.progress && (Ongoing(cfg, env, p.rounds) ==> p.clock.progress < Len(cfg, env, p.rounds))
            && (!Ongoing(cfg, env, p.rounds) ==> p.clock.progress == 0)
  {
    RestingInv(cfg, env, choices, who);
    StandsHere(cfg, HereAt(cfg, env, Resting(cfg, env, choices, who).rounds), Resting(cfg, env, choices, who));
  }

  lemma StandsHere(cfg: Config, h: Here, p: Participant)
    requires |p.links| >= 1 && StateInv(cfg, h, p) && p.phase == Rest
    ensures h.s == Shared(p.windows, p.iterations, p.clock.start) && 0 <= p.clock.progress
    ensures if h.ongoing then p.clock.progress < h.r.len else p.clock.progress == 0
  {
  }

  /** What a participant between two exchanges tells its solver: before the first step of a window or iteration, whether
      the last one completed a window and whether data has arrived; after a step neither. */
  lemma FlagsAtRest(cfg: Config, env: Env, choices: seq<Choice>, who: Who)
    requires ValidConfig(cfg) && Rests(cfg, env, choices, who)
    ensures var p := Resting(cfg, env, choices, who);
            var before := if p.rounds > 0 then After(cfg, env, p.rounds - 1).windows else p.windows;
            && |p.links| >= 1
            && (p.complete <==> p.clock.progress == 0 && p.windows == before + 1)
            && (cfg.implicitMode ==> (p.converged <==> p.windows == before + 1))
            && (p.received <==>
                  && p.clock.progress == 0
                  && if p.rounds == 0 then InitialDataArrives(cfg, p.hub, p.links)
                     else cfg.kind == Serial && p.hub ==> IsCouplingOngoing(cfg, p))
  {
    RestingInv(cfg, env, choices, who);
    var p := Resting(cfg, env, choices, who);
    StandsAt(cfg, env, choices, who);
    FlagsHere(cfg, HereAt(cfg, env, p.rounds), p);
  }

  lemma FlagsHere(cfg: Config, h: Here, p: Participant)
    requires |p.links| >= 1 && p.pc <= |Plan(cfg, p)| && StateInv(cfg, h, p) && ReceivedInv(cfg, p) && p.phase == Rest
    ensures p.complete <==> p.clock.progress == 0 && h.last
    ensures cfg.implicitMode ==> p.converged == h.last
    ensures p.received <==>
              && p.clock.progress == 0
              && if p.rounds == 0 then InitialDataArrives(cfg, p.hub, p.links)
                 else cfg.kind == Serial && p.hub ==> IsCouplingOngoing(cfg, p)
  {
    NotifiedOnce(cfg, p.hub, p.links, Init);
  }

  /** Windows are left, and time is left. */
  predicate GoesOn(cfg: Config, p: Participant) {
    && (cfg.maxWindows != UNDEFINED ==> p.windows <= cfg.maxWindows)
    && (cfg.maxTime != UNDEFINED ==> p.clock.Time() < cfg.maxTime)
  }

  lemma GoesOnHere(cfg: Config, h: Here, p: Participant)
    requires ValidConfig(cfg) && Facts(cfg, h) && |p.links| >= 1 && StateInv(cfg, h, p) && p.phase == Rest
    ensures IsCouplingOngoing(cfg, p) <==> GoesOn(cfg, p)
  {
    OngoingAtRest(cfg, h, p);
  }

  /** The time steps that are allowed: up to the end of the window and to the maximum time.  A participant that
      dictates the size has only the maximum time; the one that is told the size has that of the current window. */
  lemma StepIsLegalIff(cfg: Config, env: Env, choices: seq<Choice>, who: Who, dt: int)
    requires ValidConfig(cfg) && Rests(cfg, env, choices, who)
    ensures var p := Resting(cfg, env, choices, who);
            LegalStep(cfg, p, dt)
            <==> && dt > 0 && GoesOn(cfg, p)
                 && (cfg.maxTime != UNDEFINED ==> p.clock.Time() + dt <= cfg.maxTime)
                 && (!cfg.firstSetsSize ==> p.clock.progress + dt <= cfg.windowSize)
                 && (cfg.firstSetsSize && p.hub ==> p.clock.progress + dt <= Len(cfg, env, p.rounds))
  {
    RestingInv(cfg, env, choices, who);
    var p := Resting(cfg, env, choices, who);
    HereHolds(cfg, env, p.rounds);
    LegalHere(cfg, HereAt(cfg, env, p.rounds), p, dt);
  }

  lemma LegalHere(cfg: Config, h: Here, p: Participant, dt: int)
    requires ValidConfig(cfg) && Facts(cfg, h) && LinksOf(cfg, p.hub, p.links) && StateInv(cfg, h, p) && p.phase == Rest
    ensures LegalStep(cfg, p, dt)
            <==> && dt > 0 && GoesOn(cfg, p)
                 && (cfg.maxTime != UNDEFINED ==> p.clock.Time() + dt <= cfg.maxTime)
                 && (!cfg.firstSetsSize ==> p.clock.progress + dt <= cfg.windowSize)
                 && (cfg.firstSetsSize && p.hub ==> p.clock.progress + dt <= h.r.len)
  {
    GoesOnHere(cfg, h, p);
    OngoingAtRest(cfg, h, p);
    if h.ongoing && (cfg.firstSetsSize ==> p.hub) { LimitAtRest(cfg, h, p); }
  }

  /** The simulation ends exactly after the last window, or at the maximum time. */
  lemma SimulationEnds(cfg: Config, env: Env, choices: seq<Choice>, who: Who)
    requires ValidConfig(cfg) && Rests(cfg, env, choices, who)
    ensures EndsInTime(cfg, Resting(cfg, env, choices, who))
  {
    RestingInv(cfg, env, choices, who);
    var p := Resting(cfg, env, choices, who);
    RestEndsInTime(cfg, env, p);
  }

  /** No window follows the last one, time stays below its maximum, and the coupling is over only at one of both. */
  predicate EndsInTime(cfg: Config, p: Participant) {
    && (cfg.maxWindows != UNDEFINED ==> p.windows <= cfg.maxWindows + 1)
    && (cfg.maxTime != UNDEFINED ==> p.clock.Time() <= cfg.maxTime)
    && (!IsCouplingOngoing(cfg, p)
        <==> || (cfg.maxWindows != UNDEFINED && p.windows == cfg.maxWindows + 1)
             || (cfg.maxTime != UNDEFINED && p.clock.Time() == cfg.maxTime))
  }

  lemma RestEndsInTime(cfg: Config, env: Env, p: Participant)
    requires ValidConfig(cfg) && Inv(cfg, env, p) && p.status.Running? && p.phase == Rest
    ensures EndsInTime(cfg, p)
  {
    if cfg.maxWindows != UNDEFINED { WindowsAreBounded(cfg, env, p.rounds); }
    HereHolds(cfg, env, p.rounds);
    EndHere(cfg, HereAt(cfg, env, p.rounds), p);
  }

  lemma WindowsAreBounded(cfg: Config, env: Env, k: nat)
    requires ValidConfig(cfg) && (k > 0 ==> Ongoing(cfg, env, k - 1)) && cfg.maxWindows != UNDEFINED
    ensures After(cfg, env, k).windows <= cfg.maxWindows + 1
  {
  }

  lemma EndHere(cfg: Config, h: Here, p: Participant)
    requires ValidConfig(cfg) && Facts(cfg, h) && |p.links| >= 1 && StateInv(cfg, h, p) && p.phase == Rest
    requires cfg.maxWindows != UNDEFINED ==> h.s.windows <= cfg.maxWindows + 1
    ensures EndsInTime(cfg, p)
  {
    GoesOnHere(cfg, h, p);
  }
}
