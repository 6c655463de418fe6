/** Which serial configurations ever store data beyond the maximum time. */
module StarLookAhead {
  import opened Scheme
  import opened Choreography
  import opened Places
  import opened Lockstep
  import opened Turns
  import opened Star
  import opened StarSafety
  import opened StarSteps
  import opened StarTheorems
  import opened StarWork
  import opened StarProgress
  import opened StarStamps
  import opened StarResults

  // ----- the hub looks ahead once for every window -----

  /** A serial configuration with windows of a fixed size and data from the first to the second participant. */
  predicate LooksAhead(cfg: Config) {
    ValidConfig(cfg) && cfg.kind == Serial && !cfg.firstSetsSize && cfg.links[0].upData
  }

  predicate Stamped(p: Participant, k: nat) {
    exists i :: 0 <= i < |p.stamps| && p.stamps[i].round == k && p.stamps[i].ahead != 0
  }

  predicate NewWindow(cfg: Config, env: Env, k: nat) { After(cfg, env, k).iterations == 1 }

  /** The number of rounds a participant has begun. */
  function Begun(p: Participant): nat { if p.phase == Init then p.rounds else p.rounds + 1 }

  predicate Looks(p: Participant) { p.phase == Init || p.phase == Look }

  /** The first round of every window that has been begun has a stamp of look-ahead, and so has the one for which
      the data has just been received. */
  predicate Covers(cfg: Config, env: Env, p: Participant)
    requires |p.links| >= 1 && p.pc <= |Plan(cfg, p)|
  {
    && (forall k: nat :: k < Begun(p) && Ongoing(cfg, env, k) && NewWindow(cfg, env, k) ==> Stamped(p, k))
    && (Looks(p) && Executed(cfg, p, ReceiveAhead) && NewWindow(cfg, env, RoundOf(p.phase, p.rounds)) ==>
          Stamped(p, RoundOf(p.phase, p.rounds)))
  }

  lemma AheadPlanned(cfg: Config, links: seq<Link>)
    requires |links| >= 1 && cfg.kind == Serial && links[0].upData
    ensures ReceiveAhead in PlanFor(cfg, Init, true, links) && ReceiveAhead in PlanFor(cfg, Look, true, links)
  {
    var ahead := When(links[0].upData, ReceiveAhead);
    assert ReceiveAhead in Ops(Three(One(TakeSize), ahead, One(Notify)));
    assert ReceiveAhead in Ops(Three(When(cfg.firstSetsSize, ReceiveSize), ahead, One(Notify)));
  }

  lemma AheadAtEnd(cfg: Config, p: Participant)
    requires |p.links| >= 1 && cfg.kind == Serial && p.links[0].upData && p.hub && Looks(p) && p.pc == |Plan(cfg, p)|
    ensures Executed(cfg, p, ReceiveAhead)
  {
    AheadPlanned(cfg, p.links);
    assert Plan(cfg, p)[..p.pc] == Plan(cfg, p);
  }

  lemma NothingYet(cfg: Config, p: Participant, op: Op)
    requires |p.links| >= 1 && p.pc == 0
    ensures !Executed(cfg, p, op)
  {
    assert Plan(cfg, p)[..0] == [];
  }

  /** Stamps are never lost. */
  lemma StillStamped(p: Participant, q: Participant, k: nat)
    requires p.stamps <= q.stamps && Stamped(p, k)
    ensures Stamped(q, k)
  {
    var i :| 0 <= i < |p.stamps| && p.stamps[i].round == k && p.stamps[i].ahead != 0;
    assert q.stamps[i] == p.stamps[i];
  }

  lemma SameRoundCovers(cfg: Config, env: Env, p: Participant, q: Participant)
    requires |p.links| >= 1 && |q.links| >= 1 && p.pc <= |Plan(cfg, p)| && q.pc <= |Plan(cfg, q)|
    requires Covers(cfg, env, p) && p.stamps <= q.stamps && q.rounds == p.rounds
    requires (p.phase == Init && q.phase != Init) ==> Executed(cfg, p, ReceiveAhead)
    requires Looks(q) && Executed(cfg, q, ReceiveAhead) && NewWindow(cfg, env, RoundOf(q.phase, q.rounds)) ==>
               Stamped(q, RoundOf(q.phase, q.rounds)) || (p.phase == q.phase && Executed(cfg, p, ReceiveAhead))
    ensures Covers(cfg, env, q)
  {
    forall k: nat | k < p.rounds + 1 && Stamped(p, k) ensures Stamped(q, k) { StillStamped(p, q, k); }
    if Looks(q) && p.phase == q.phase && Stamped(p, RoundOf(q.phase, q.rounds)) {
      StillStamped(p, q, RoundOf(q.phase, q.rounds));
    }
  }

  lemma NextRoundCovers(cfg: Config, env: Env, p: Participant, q: Participant)
    requires |p.links| >= 1 && |q.links| >= 1 && p.pc <= |Plan(cfg, p)| && q.pc <= |Plan(cfg, q)|
    requires Covers(cfg, env, p) && p.stamps == q.stamps && q.rounds == p.rounds + 1 && q.phase == Rest
    requires p.phase != Init
    requires Ongoing(cfg, env, q.rounds) ==> p.phase == Look && Executed(cfg, p, ReceiveAhead)
    ensures Covers(cfg, env, q)
  {
    forall k: nat | k < p.rounds + 2 && Stamped(p, k) ensures Stamped(q, k) { StillStamped(p, q, k); }
  }

  lemma AdvanceCovers(cfg: Config, env: Env, p: Participant, dt: int)
    requires |p.links| >= 1 && p.phase == Rest && p.pc == 0 && Covers(cfg, env, p)
    ensures var q := Advance(cfg, p, dt); |q.links| >= 1 && q.pc == 0 && Covers(cfg, env, q)
  {
    SameRoundCovers(cfg, env, p, Advance(cfg, p, dt));
  }

  lemma StayCovers(cfg: Config, env: Env, h: Here, p: Participant)
    requires LooksAhead(cfg) && Facts(cfg, h) && LinksOf(cfg, p.hub, p.links) && StateInv(cfg, h, p)
    requires p.hub && p.links == cfg.links && p.phase != Rest && p.pc == |Plan(cfg, p)| && Covers(cfg, env, p)
    requires !Finishes(cfg, h, p) && Turn(cfg, p).status.Running?
    ensures var q := Turn(cfg, p); |q.links| >= 1 && q.pc == 0 && Covers(cfg, env, q)
  {
    var q := Turn(cfg, p);
    TurnAdds(cfg, p);
    TurnFrame(cfg, p);
    StayTurnRounds(cfg, h, p);
    if p.phase == Init { AheadAtEnd(cfg, p); }
    if p.phase == Second { LookAheadDecision(cfg, h, p); }
    NothingYet(cfg, q, ReceiveAhead);
    SameRoundCovers(cfg, env, p, q);
  }

  lemma FinishCovers(cfg: Config, env: Env, p: Participant)
    requires LooksAhead(cfg) && Inv(cfg, env, p) && p.status.Running? && p.hub && p.links == cfg.links
    requires p.pc == |Plan(cfg, p)| && Covers(cfg, env, p) && Finishes(cfg, HereAt(cfg, env, p.rounds), p)
    ensures var q := Turn(cfg, p); |q.links| >= 1 && q.pc == 0 && Covers(cfg, env, q)
  {
    var q := Turn(cfg, p);
    FinishInv(cfg, env, p);
    TurnAdds(cfg, p);
    TurnFrame(cfg, p);
    FinishEndsAtRest(cfg, p);
    NextShares(cfg, env, p.rounds);
    if p.phase == Look { AheadAtEnd(cfg, p); }
    NextRoundCovers(cfg, env, p, q);
  }

  lemma FinishEndsAtRest(cfg: Config, p: Participant)
    requires Finish(cfg, p).rounds == p.rounds + 1
    ensures Finish(cfg, p).phase == Rest && Finish(cfg, p).pc == 0
  {
  }

  lemma NextShares(cfg: Config, env: Env, k: nat)
    requires ValidConfig(cfg)
    ensures Ongoing(cfg, env, k + 1) <==> SharedOngoing(cfg, NextShared(HereAt(cfg, env, k).s, HereAt(cfg, env, k).r))
  {
    HereHolds(cfg, env, k);
  }

  // ----- operations -----

  /** When the round ahead begins a window, the size of a whole window is looked ahead. */
  lemma LooksWholeWindow(cfg: Config, env: Env, p: Participant)
    requires LooksAhead(cfg) && Ready(cfg, HereAt(cfg, env, p.rounds), p, ReceiveAhead)
    requires NewWindow(cfg, env, RoundOf(p.phase, p.rounds))
    ensures LookAheadBy(cfg, p, ReceiveAhead) == cfg.windowSize
  {
    HereHolds(cfg, env, p.rounds);
    AheadPlace(cfg, p);
    NewWindowIsDone(cfg, env, p.rounds);
    WholeWindowHere(cfg, HereAt(cfg, env, p.rounds), p);
  }

  lemma NewWindowIsDone(cfg: Config, env: Env, k: nat)
    requires ValidConfig(cfg)
    ensures NewWindow(cfg, env, k + 1) <==> Done(cfg, env, k)
  {
    StartIsBounded(cfg, env, k);
  }

  lemma WholeWindowHere(cfg: Config, h: Here, p: Participant)
    requires LooksAhead(cfg) && |p.links| >= 1 && SizeInv(cfg, h, p) && VerdictInv(cfg, h, p)
    requires p.hub && (p.phase == Init || (p.phase == Look && h.r.done))
    ensures LookAheadBy(cfg, p, ReceiveAhead) == cfg.windowSize
  {
  }

  lemma AheadIsStamped(cfg: Config, env: Env, p: Participant)
    requires LooksAhead(cfg) && Acting(cfg, env, p, ReceiveAhead) && NewWindow(cfg, env, RoundOf(p.phase, p.rounds))
    ensures LinkOf(ReceiveAhead) < |p.logs|
    ensures Stamped(Receive(cfg, p, ReceiveAhead, Expected(HereAt(cfg, env, p.rounds), p, ReceiveAhead)),
                    RoundOf(p.phase, p.rounds))
  {
    ActingReady(cfg, env, p, ReceiveAhead);
    LooksWholeWindow(cfg, env, p);
    AheadExpected(HereAt(cfg, env, p.rounds), p);
    var m := Expected(HereAt(cfg, env, p.rounds), p, ReceiveAhead);
    ReceiveAdds(cfg, p, ReceiveAhead, m);
    assert Receive(cfg, p, ReceiveAhead, m).stamps[|p.stamps|].round == RoundOf(p.phase, p.rounds);
  }

  lemma OperationCovers(cfg: Config, env: Env, p: Participant, q: Participant, op: Op)
    requires |p.links| >= 1 && p.pc < |Plan(cfg, p)| && op == Plan(cfg, p)[p.pc] && Covers(cfg, env, p)
    requires MovesOn(p, q) && p.stamps <= q.stamps
    requires op == ReceiveAhead && NewWindow(cfg, env, RoundOf(p.phase, p.rounds)) ==>
               Stamped(q, RoundOf(p.phase, p.rounds))
    ensures |q.links| >= 1 && q.pc <= |Plan(cfg, q)| && Covers(cfg, env, q)
  {
    var ops := Plan(cfg, p);
    assert Plan(cfg, q) == ops && ops[..p.pc + 1] == ops[..p.pc] + [op];
    SameRoundCovers(cfg, env, p, q);
  }

  // ----- over runs -----

  predicate HubCovers(cfg: Config, env: Env, s: System) {
    && |s.hub.links| >= 1 && s.hub.pc <= |Plan(cfg, s.hub)| && s.hub.links == cfg.links && s.hub.hub
    && Covers(cfg, env, s.hub)
  }

  lemma PrefixAppended<T>(a: seq<T>, b: seq<T>)
    ensures a <= a + b
  {
  }

  lemma HubOperationCovers(cfg: Config, env: Env, s: System, dt: int)
    requires Moving(cfg, env, s, Hub, dt) && LooksAhead(cfg) && HubCovers(cfg, env, s)
    requires s.hub.phase != Rest && s.hub.pc < |Plan(cfg, s.hub)|
    ensures var q := Moved(cfg, env, s, Hub, dt); |q.links| >= 1 && q.pc <= |Plan(cfg, q)| && Covers(cfg, env, q)
  {
    var p, q := s.hub, Moved(cfg, env, s, Hub, dt);
    var op := Plan(cfg, p)[p.pc];
    OperationStepMoves(cfg, env, s, Hub, dt);
    if IsReceive(op) {
      ReceiveMoves(cfg, env, s, Hub, dt, op);
      var m := Expected(HereAt(cfg, env, p.rounds), p, op);
      ReceiveAdds(cfg, p, op, m);
      PrefixAppended(p.stamps, StampsOf(cfg, p, op, m));
      if op == ReceiveAhead && NewWindow(cfg, env, RoundOf(p.phase, p.rounds)) { AheadIsStamped(cfg, env, p); }
    } else {
      OtherStepsAdd(cfg, env, s, Hub, dt);
    }
    OperationCovers(cfg, env, p, q, op);
  }

  lemma HubTurnCovers(cfg: Config, env: Env, p: Participant)
    requires LooksAhead(cfg) && Inv(cfg, env, p) && p.status.Running? && p.hub && p.links == cfg.links
    requires p.phase != Rest
    requires p.pc == |Plan(cfg, p)| && Covers(cfg, env, p)
    ensures var q := Turn(cfg, p); |q.links| >= 1 && q.pc == 0 && Covers(cfg, env, q)
  {
    if Finishes(cfg, HereAt(cfg, env, p.rounds), p) {
      FinishCovers(cfg, env, p);
    } else {
      StayInv(cfg, env, p);
      TurnFrame(cfg, p);
      HereHolds(cfg, env, p.rounds);
      StayCovers(cfg, env, HereAt(cfg, env, p.rounds), p);
    }
  }

  lemma HubStepCovers(cfg: Config, env: Env, s: System, dt: int)
    requires Moving(cfg, env, s, Hub, dt) && LooksAhead(cfg) && HubCovers(cfg, env, s)
    ensures var q := Moved(cfg, env, s, Hub, dt); |q.links| >= 1 && q.pc <= |Plan(cfg, q)| && Covers(cfg, env, q)
  {
    MoverReady(cfg, env, s, Hub, dt);
    if s.hub.phase == Rest {
      assert s.hub.pc == 0;
      AdvanceCovers(cfg, env, s.hub, dt);
    } else if s.hub.pc == |Plan(cfg, s.hub)| {
      HubTurnCovers(cfg, env, s.hub);
    } else {
      HubOperationCovers(cfg, env, s, dt);
    }
  }

  lemma StepCovers(cfg: Config, env: Env, s: System, c: Choice)
    requires Moving(cfg, env, s, c.who, c.dt) && LooksAhead(cfg) && HubCovers(cfg, env, s)
    ensures HubCovers(cfg, env, Step(cfg, env, s, c.who, c.dt))
  {
    MovedOnly(cfg, env, s, c.who, c.dt);
    if c.who == Hub {
      HubStepCovers(cfg, env, s, c.dt);
      StepRounds(cfg, env, s, Hub, c.dt);
    }
  }

  lemma StartCovers(cfg: Config, env: Env)
    requires LooksAhead(cfg)
    ensures HubCovers(cfg, env, Initial(cfg))
  {
    NothingYet(cfg, Initial(cfg).hub, ReceiveAhead);
  }

  lemma {:induction false} RunCovers(cfg: Config, env: Env, choices: seq<Choice>)
    requires LooksAhead(cfg) && Run(cfg, env, choices).Reached?
    ensures HubCovers(cfg, env, Run(cfg, env, choices).s)
  {
    if choices == [] {
      StartCovers(cfg, env);
    } else {
      var front, c := choices[..|choices|-1], choices[|choices|-1];
      RunKeeps(cfg, env, front);
      RunCovers(cfg, env, front);
      StepCovers(cfg, env, Run(cfg, env, front).s, c);
    }
  }

  // ----- where windows of a fixed size begin -----

  /** The start of the `w`-th window. */
  function StartOf(cfg: Config, w: int): int { Truncated(cfg, (w - 1) * cfg.windowSize) }

  lemma NextStart(cfg: Config, w: int)
    requires cfg.windowSize > 0 && w >= 1
    ensures StartOf(cfg, 1) == Truncated(cfg, 0)
    ensures StartOf(cfg, w + 1) == Truncated(cfg, StartOf(cfg, w) + cfg.windowSize)
  {
    assert w * cfg.windowSize == (w - 1) * cfg.windowSize + cfg.windowSize;
  }

  lemma {:induction false} WindowStarts(cfg: Config, env: Env, k: nat)
    requires ValidConfig(cfg) && !cfg.firstSetsSize
    ensures After(cfg, env, k).start == StartOf(cfg, After(cfg, env, k).windows)
  {
    NextStart(cfg, 1);
    if k > 0 {
      WindowStarts(cfg, env, k - 1);
      StartIsBounded(cfg, env, k - 1);
      NextStart(cfg, After(cfg, env, k - 1).windows);
    }
  }

  /** The look-ahead never passes the maximum time: it is a multiple of the window size, or the window cut short
      by it is not among those simulated. */
  predicate NeverPasses(cfg: Config)
    requires ValidConfig(cfg) && !cfg.firstSetsSize
  {
    || cfg.maxTime == UNDEFINED
    || cfg.maxTime % cfg.windowSize == 0
    || (cfg.maxWindows != UNDEFINED && cfg.maxWindows <= cfg.maxTime / cfg.windowSize)
    || (cfg.maxTime / cfg.windowSize > 0 && NeverConverges(cfg))
  }

  /** No window is ever completed. */
  predicate NeverConverges(cfg: Config) {
    cfg.implicitMode && cfg.measures == [] && cfg.maxIterations == INFINITE_MAX_ITERATIONS
  }

  lemma WholeWindows(t: int, size: int, w: int)
    requires size > 0 && t >= 0 && w >= 1 && (w - 1) * size < t
    requires t % size == 0 || w <= t / size
    ensures (w - 1) * size + size <= t
  {
    var n := t / size;
    assert t == n * size + t % size;
    if w > n { Scaled(n, w - 1, size); } else { Scaled(w, n, size); }
    assert (w - 1) * size + size == w * size;
  }

  lemma Scaled(a: int, b: int, m: int)
    requires a <= b && m > 0
    ensures a * m <= b * m
  {
    assert (b - a) * m >= 0;
    assert b * m == a * m + (b - a) * m;
  }

  lemma {:induction false} StaysInFirstWindow(cfg: Config, env: Env, k: nat)
    requires ValidConfig(cfg) && NeverConverges(cfg)
    ensures After(cfg, env, k).windows == 1 && After(cfg, env, k).start == 0
  {
    StartIsBounded(cfg, env, k);
    if k > 0 {
      StaysInFirstWindow(cfg, env, k - 1);
      StartIsBounded(cfg, env, k - 1);
    }
  }

  lemma NotPassed(cfg: Config, env: Env, k: nat)
    requires ValidConfig(cfg) && !cfg.firstSetsSize && NeverPasses(cfg) && Ongoing(cfg, env, k)
    requires cfg.maxTime != UNDEFINED
    ensures After(cfg, env, k).start + cfg.windowSize <= cfg.maxTime
  {
    var s := After(cfg, env, k);
    StartIsBounded(cfg, env, k);
    WindowStarts(cfg, env, k);
    if cfg.maxTime / cfg.windowSize > 0 && NeverConverges(cfg) { StaysInFirstWindow(cfg, env, k); }
    WholeWindows(cfg.maxTime, cfg.windowSize, s.windows);
  }

  // ----- a run that reaches every window -----

  /** All measures always hold. */
  function Agreeable(): Env { Env((k: nat, m: nat) => true, (k: nat) => 1) }

  function IterationsLeft(cfg: Config, iterations: int): int {
    (if cfg.measures != [] then cfg.minIterations else cfg.maxIterations) - iterations
  }

  lemma AgreeableVerdict(cfg: Config, k: nat)
    requires ValidConfig(cfg) && cfg.implicitMode && !NeverConverges(cfg) && !Done(cfg, Agreeable(), k)
    ensures IterationsLeft(cfg, After(cfg, Agreeable(), k).iterations) > 0
  {
    IterationsAreBounded(cfg, Agreeable(), k);
  }

  /** Every window is completed. */
  lemma {:induction false} CompletesWindow(cfg: Config, k: nat) returns (j: nat)
    requires ValidConfig(cfg) && !NeverConverges(cfg)
    ensures Done(cfg, Agreeable(), j) && After(cfg, Agreeable(), j).windows == After(cfg, Agreeable(), k).windows
    decreases if Done(cfg, Agreeable(), k) then 0 else IterationsLeft(cfg, After(cfg, Agreeable(), k).iterations)
  {
    j := k;
    if !Done(cfg, Agreeable(), k) {
      AgreeableVerdict(cfg, k);
      j := CompletesWindow(cfg, k + 1);
    }
  }

  lemma {:induction false} ReachesWindow(cfg: Config, w: nat) returns (k: nat)
    requires ValidConfig(cfg) && w >= 1 && (w > 1 ==> !NeverConverges(cfg))
    ensures After(cfg, Agreeable(), k).windows == w && NewWindow(cfg, Agreeable(), k)
  {
    k := 0;
    if w > 1 {
      var first := ReachesWindow(cfg, w - 1);
      var last := CompletesWindow(cfg, first);
      k := last + 1;
    }
  }

  /** An implicit scheme can complete a window exactly if it has a measure or a limit of the iterations. */
  lemma WindowsCompleteIff(cfg: Config)
    requires ValidConfig(cfg) && cfg.implicitMode
    ensures (exists env: Env, k: nat :: After(cfg, env, k).windows > 1) <==> !NeverConverges(cfg)
  {
    if NeverConverges(cfg) {
      forall env: Env, k: nat ensures After(cfg, env, k).windows == 1 { StaysInFirstWindow(cfg, env, k); }
    } else {
      var k := ReachesWindow(cfg, 2);
    }
  }

  const UNDEFINED_MAX_ITERATIONS := -1

  /** A limit that was not configured is replaced, ... */
  function LimitUsed(configured: int): int {
    if configured == UNDEFINED_MAX_ITERATIONS then INFINITE_MAX_ITERATIONS else configured
  }

  /** ... before the check that there is one looks for the value it had. */
  predicate LimitAccepted(measures: seq<Measure>, limit: int) { measures == [] ==> limit != UNDEFINED_MAX_ITERATIONS }

  /** Without measures and without a limit the check passes, and the first window is repeated for ever. */
  lemma AcceptedButEndless(cfg: Config, env: Env, k: nat)
    requires ValidConfig(cfg) && cfg.implicitMode
    requires cfg.measures == [] && cfg.maxIterations == LimitUsed(UNDEFINED_MAX_ITERATIONS)
    ensures LimitAccepted(cfg.measures, cfg.maxIterations) && Ongoing(cfg, env, k) && !Done(cfg, env, k)
  {
    StaysInFirstWindow(cfg, env, k);
    StaysInFirstWindow(cfg, env, k + 1);
  }

  lemma {:induction false} WindowsGrow(cfg: Config, env: Env, j: nat, k: nat)
    requires j <= k
    ensures After(cfg, env, j).windows <= After(cfg, env, k).windows
  {
    if j < k { WindowsGrow(cfg, env, j, k - 1); }
  }

  lemma LastWindowBegins(t: int, size: int, w: int)
    requires size > 0 && t > 0 && t % size != 0 && 1 <= w <= t / size + 1
    ensures (w - 1) * size < t
    ensures w == t / size + 1 ==> (w - 1) * size + size > t
  {
    Scaled(w - 1, t / size, size);
    assert t == t / size * size + t % size;
  }

  lemma OngoingInWindow(cfg: Config, env: Env, k: nat)
    requires ValidConfig(cfg) && !cfg.firstSetsSize && !NeverPasses(cfg)
    requires After(cfg, env, k).windows <= cfg.maxTime / cfg.windowSize + 1
    ensures Ongoing(cfg, env, k)
  {
    var w := After(cfg, env, k).windows;
    StartIsBounded(cfg, env, k);
    WindowStarts(cfg, env, k);
    LastWindowBegins(cfg.maxTime, cfg.windowSize, w);
  }

  lemma AgreeableIsGood(cfg: Config, k: nat)
    requires !cfg.firstSetsSize
    ensures !BadRound(cfg, Agreeable(), k)
  {
  }

  /** A run in which the hub has completed the round `k`. */
  lemma RunThrough(cfg: Config, k: nat) returns (choices: seq<Choice>)
    requires LooksAhead(cfg) && OngoingUpTo(cfg, Agreeable(), k + 1)
    ensures Run(cfg, Agreeable(), choices).Reached? && Run(cfg, Agreeable(), choices).s.hub.rounds > k
  {
    InitialInv(cfg, Agreeable());
    choices := RunsGoOn(cfg, Agreeable(), [], k + 1);
    RunKeeps(cfg, Agreeable(), choices);
    AgreeableIsGood(cfg, Run(cfg, Agreeable(), choices).s.hub.rounds);
  }

  lemma HubIsStamped(cfg: Config, env: Env, choices: seq<Choice>, k: nat) returns (i: nat)
    requires LooksAhead(cfg) && Run(cfg, env, choices).Reached? && Run(cfg, env, choices).s.hub.rounds > k
    requires Ongoing(cfg, env, k) && NewWindow(cfg, env, k)
    ensures var stamps := Run(cfg, env, choices).s.hub.stamps;
            i < |stamps| && stamps[i].round == k && stamps[i].ahead != 0
  {
    RunCovers(cfg, env, choices);
    var p := Run(cfg, env, choices).s.hub;
    assert Stamped(p, k);
    i :| 0 <= i < |p.stamps| && p.stamps[i].round == k && p.stamps[i].ahead != 0;
  }

  // ----- the condition -----

  predicate AgreesAt(s: System, who: Who, i: nat) {
    Exists(s, who) && i < |Get(s, who).stamps| ==> Get(s, who).stamps[i].storedAt == Get(s, who).stamps[i].sentAt
  }

  /** In every run, with all decisions of the solvers, all data is stored under the time at which it was sent. */
  ghost predicate AllStampsAgree(cfg: Config) {
    forall env: Env, choices: seq<Choice>, who: Who, i: nat ::
      Run(cfg, env, choices).Reached? ==> AgreesAt(Run(cfg, env, choices).s, who, i)
  }

  lemma AgreesWhenNeverPassing(cfg: Config, env: Env, choices: seq<Choice>, who: Who, i: nat)
    requires LooksAhead(cfg) && NeverPasses(cfg) && Run(cfg, env, choices).Reached?
    ensures AgreesAt(Run(cfg, env, choices).s, who, i)
  {
    var s := Run(cfg, env, choices).s;
    if Exists(s, who) && i < |Get(s, who).stamps| {
      StampsAgree(cfg, env, choices, who, i);
      RunFits(cfg, env, choices, who);
      var st := Get(s, who).stamps[i];
      assert StampFits(cfg, env, st);
      if st.ahead != 0 && cfg.maxTime != UNDEFINED { NotPassed(cfg, env, st.round); }
    }
  }

  /** Otherwise a run stores data beyond the maximum time. */
  lemma SomeRunPasses(cfg: Config) returns (choices: seq<Choice>, i: nat)
    requires LooksAhead(cfg) && !NeverPasses(cfg)
    ensures Run(cfg, Agreeable(), choices).Reached? && !AgreesAt(Run(cfg, Agreeable(), choices).s, Hub, i)
  {
    var env, w := Agreeable(), cfg.maxTime / cfg.windowSize + 1;
    var k := ReachesWindow(cfg, w);
    forall j: nat | j < k + 1 ensures Ongoing(cfg, env, j) {
      WindowsGrow(cfg, env, j, k);
      OngoingInWindow(cfg, env, j);
    }
    choices := RunThrough(cfg, k);
    i := HubIsStamped(cfg, env, choices, k);
    StampsAgree(cfg, env, choices, Hub, i);
    WindowStarts(cfg, env, k);
    LastWindowBegins(cfg.maxTime, cfg.windowSize, w);
  }

  /** A serial configuration with a fixed window size stores all data under the time at which it was sent exactly
      if its look-ahead never passes the maximum time. */
  lemma AllStampsAgreeIff(cfg: Config)
    requires LooksAhead(cfg)
    ensures AllStampsAgree(cfg) <==> NeverPasses(cfg)
  {
    if NeverPasses(cfg) {
      forall env: Env, choices: seq<Choice>, who: Who, i: nat | Run(cfg, env, choices).Reached?
        ensures AgreesAt(Run(cfg, env, choices).s, who, i)
      {
        AgreesWhenNeverPassing(cfg, env, choices, who, i);
      }
    } else {
      var choices, i := SomeRunPasses(cfg);
    }
  }
}
