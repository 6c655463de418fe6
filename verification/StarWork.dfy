/** What is left to do until given rounds are completed: every step of a participant that is behind lowers it. */
module StarWork {
  import opened Scheme
  import opened Lockstep
  import opened Turns
  import opened Choreography
  import opened Star
  import opened StarSafety
  import opened StarSteps
  import opened StarLiveness

  function Max0(n: int): nat { if n < 0 then 0 else n }

  function Stage(phase: Phase): nat {
    match phase case Init => 4 case Rest => 3 case First => 2 case Second => 1 case Look => 0
  }

  /** Rounds to complete, plans of the round, ticks of the window, operations of the plan. */
  datatype Work = Work(rounds: nat, stage: nat, ticks: nat, ops: nat)

  predicate Less(a: Work, b: Work) {
    a.rounds < b.rounds || (a.rounds == b.rounds &&
      (a.stage < b.stage || (a.stage == b.stage &&
        (a.ticks < b.ticks || (a.ticks == b.ticks && a.ops < b.ops)))))
  }

  function Sum(a: Work, b: Work): Work {
    Work(a.rounds + b.rounds, a.stage + b.stage, a.ticks + b.ticks, a.ops + b.ops)
  }

  /** The rounds to be completed by the hub and by the spokes. */
  datatype Goal = Goal(ofHub: nat, ofSpokes: nat)

  function RoundsTo(g: Goal, p: Participant): int { (if p.hub then g.ofHub else g.ofSpokes) - p.rounds }

  predicate Behind(g: Goal, p: Participant) { RoundsTo(g, p) > 0 }

  /** What a participant has left to do to reach the goal. */
  function WorkOf(cfg: Config, env: Env, g: Goal, p: Participant): Work
    requires |p.links| >= 1
  {
    if !Behind(g, p) then Work(0, 0, 0, 0)
    else Work(RoundsTo(g, p), Stage(p.phase), Max0(Len(cfg, env, p.rounds) - p.clock.progress),
              Max0(|Plan(cfg, p)| - p.pc) + if p.status.Running? then 1 else 0)
  }

  lemma WorkFalls(cfg: Config, env: Env, g: Goal, p: Participant, q: Participant)
    requires |p.links| >= 1 && |q.links| >= 1 && q.rounds == p.rounds && q.hub == p.hub && Behind(g, p)
    requires || Stage(q.phase) < Stage(p.phase)
             || (q.phase == p.phase && p.clock.progress < q.clock.progress <= Len(cfg, env, p.rounds))
    ensures Less(WorkOf(cfg, env, g, q), WorkOf(cfg, env, g, p))
  {
  }

  lemma AdvanceMoves(cfg: Config, h: Here, p: Participant, dt: int)
    requires ValidConfig(cfg) && Facts(cfg, h) && p.phase == Rest && LinksOf(cfg, p.hub, p.links)
    requires ClockInv(cfg, h, p) && SizeInv(cfg, h, p) && h.ongoing
    requires LegalStep(cfg, p, dt) && FollowsEnv(cfg, h, p, dt)
    ensures var q := Advance(cfg, p, dt);
            && q.rounds == p.rounds && q.links == p.links && q.hub == p.hub
            && (q.phase == First || (q.phase == Rest && p.clock.progress < q.clock.progress <= h.r.len))
  {
    LegalStepStays(cfg, h, p, dt);
  }

  lemma AdvanceWorks(cfg: Config, env: Env, g: Goal, p: Participant, dt: int)
    requires ValidConfig(cfg) && Inv(cfg, env, p) && p.status.Running? && p.phase == Rest && Behind(g, p)
    requires IsCouplingOngoing(cfg, p) && LegalStep(cfg, p, dt) && FollowsEnv(cfg, HereAt(cfg, env, p.rounds), p, dt)
    ensures Less(WorkOf(cfg, env, g, Advance(cfg, p, dt)), WorkOf(cfg, env, g, p))
  {
    FinishedRound(cfg, env, p);
    HereHolds(cfg, env, p.rounds);
    AdvanceMoves(cfg, HereAt(cfg, env, p.rounds), p, dt);
    WorkFalls(cfg, env, g, p, Advance(cfg, p, dt));
  }

  lemma OneRoundLess(cfg: Config, env: Env, g: Goal, p: Participant, q: Participant)
    requires |p.links| >= 1 && |q.links| >= 1 && q.hub == p.hub && q.rounds == p.rounds + 1 && Behind(g, p)
    ensures Less(WorkOf(cfg, env, g, q), WorkOf(cfg, env, g, p))
  {
  }

  lemma FinishWorks(cfg: Config, env: Env, g: Goal, p: Participant)
    requires ValidConfig(cfg) && Inv(cfg, env, p) && p.status.Running? && p.phase != Rest && p.pc == |Plan(cfg, p)|
    requires Finishes(cfg, HereAt(cfg, env, p.rounds), p) && Behind(g, p)
    ensures |Turn(cfg, p).links| >= 1 && Less(WorkOf(cfg, env, g, Turn(cfg, p)), WorkOf(cfg, env, g, p))
  {
    TurnFrame(cfg, p);
    FinishInv(cfg, env, p);
    OneRoundLess(cfg, env, g, p, Turn(cfg, p));
  }

  lemma StayWorks(cfg: Config, env: Env, g: Goal, p: Participant)
    requires ValidConfig(cfg) && Inv(cfg, env, p) && p.status.Running? && p.phase != Rest && p.pc == |Plan(cfg, p)|
    requires !Finishes(cfg, HereAt(cfg, env, p.rounds), p) && Behind(g, p)
    ensures |Turn(cfg, p).links| >= 1 && Less(WorkOf(cfg, env, g, Turn(cfg, p)), WorkOf(cfg, env, g, p))
  {
    TurnFrame(cfg, p);
    HereHolds(cfg, env, p.rounds);
    StayInv(cfg, env, p);
    StayStage(cfg, HereAt(cfg, env, p.rounds), p);
    WorkFalls(cfg, env, g, p, Turn(cfg, p));
  }

  lemma StayStage(cfg: Config, h: Here, p: Participant)
    requires ValidConfig(cfg) && Facts(cfg, h) && LinksOf(cfg, p.hub, p.links) && StateInv(cfg, h, p)
    requires p.phase != Rest && p.status.Running?
    requires !Finishes(cfg, h, p) && Turn(cfg, p).status != Failed(Assertion)
    ensures Stage(Turn(cfg, p).phase) < Stage(p.phase)
  {
    if p.phase == Second { LookAheadDecision(cfg, h, p); }
  }

  /** An operation moves on in the plan, or stops the participant. */
  predicate MovesOn(p: Participant, q: Participant) {
    SamePlan(p, q) && q.clock == p.clock && (q.pc == p.pc + 1 || (q.pc == p.pc && q.status.Failed?))
  }

  lemma OperationWorks(cfg: Config, env: Env, g: Goal, p: Participant, q: Participant)
    requires |p.links| >= 1 && p.pc < |Plan(cfg, p)| && p.status.Running? && Behind(g, p) && MovesOn(p, q)
    ensures Less(WorkOf(cfg, env, g, q), WorkOf(cfg, env, g, p))
  {
  }

  lemma OperationMoves(cfg: Config, env: Env, p: Participant, op: Op, m: Message)
    requires LinkOf(op) < |p.logs|
    ensures MovesOn(p, if IsSend(op) then Send(p, op) else if IsReceive(op) then Receive(cfg, p, op, m)
                       else Local(cfg, env, p, op))
  {
  }

  /** The participant after its step. */
  function Moved(cfg: Config, env: Env, s: System, who: Who, dt: int): (q: Participant)
    requires Sized(cfg, s) && Enabled(cfg, env, s, who, dt)
    ensures Get(s, who).phase == Rest ==> q == Advance(cfg, Get(s, who), dt)
    ensures Get(s, who).phase != Rest && Get(s, who).pc >= |Plan(cfg, Get(s, who))| ==> q == Turn(cfg, Get(s, who))
  {
    Get(Step(cfg, env, s, who, dt), who)
  }

  lemma OperationStepMoves(cfg: Config, env: Env, s: System, who: Who, dt: int)
    requires Sized(cfg, s) && Enabled(cfg, env, s, who, dt)
    requires Get(s, who).phase != Rest && Get(s, who).pc < |Plan(cfg, Get(s, who))|
    ensures MovesOn(Get(s, who), Moved(cfg, env, s, who, dt))
  {
    var p := Get(s, who);
    var op := Plan(cfg, p)[p.pc];
    OperationMoves(cfg, env, p, op, if IsReceive(op) then Inbox(s, who, LinkOf(op))[0] else Data(0));
  }

  // ----- one step -----

  /** What is known about a participant that steps. */
  lemma MoverReady(cfg: Config, env: Env, s: System, who: Who, dt: int)
    requires Moving(cfg, env, s, who, dt)
    ensures var p := Get(s, who);
            && Inv(cfg, env, p) && p.status.Running? && |p.links| >= 1 && p.pc <= |Plan(cfg, p)|
            && (p.phase == Rest ==> IsCouplingOngoing(cfg, p) && LegalStep(cfg, p, dt)
                                    && FollowsEnv(cfg, HereAt(cfg, env, p.rounds), p, dt))
  {
  }

  lemma TurnWorks(cfg: Config, env: Env, g: Goal, p: Participant)
    requires ValidConfig(cfg) && Inv(cfg, env, p) && p.status.Running? && p.phase != Rest && p.pc == |Plan(cfg, p)|
    requires Behind(g, p)
    ensures |Turn(cfg, p).links| >= 1 && Less(WorkOf(cfg, env, g, Turn(cfg, p)), WorkOf(cfg, env, g, p))
  {
    if Finishes(cfg, HereAt(cfg, env, p.rounds), p) {
      FinishWorks(cfg, env, g, p);
    } else {
      StayWorks(cfg, env, g, p);
    }
  }

  lemma StepWorks(cfg: Config, env: Env, g: Goal, s: System, who: Who, dt: int)
    requires Moving(cfg, env, s, who, dt) && Behind(g, Get(s, who))
    ensures var q := Moved(cfg, env, s, who, dt);
            |q.links| >= 1 && Less(WorkOf(cfg, env, g, q), WorkOf(cfg, env, g, Get(s, who)))
  {
    var p := Get(s, who);
    MoverReady(cfg, env, s, who, dt);
    if p.phase == Rest {
      AdvanceWorks(cfg, env, g, p, dt);
    } else if p.pc == |Plan(cfg, p)| {
      TurnWorks(cfg, env, g, p);
    } else {
      OperationStepMoves(cfg, env, s, who, dt);
      OperationWorks(cfg, env, g, p, Moved(cfg, env, s, who, dt));
    }
  }

  lemma TurnRounds(cfg: Config, p: Participant)
    requires p.phase != Rest
    ensures Turn(cfg, p).rounds >= p.rounds
  {
  }

  /** Rounds are never undone. */
  lemma StepRounds(cfg: Config, env: Env, s: System, who: Who, dt: int)
    requires Moving(cfg, env, s, who, dt)
    ensures var q := Moved(cfg, env, s, who, dt);
            q.rounds >= Get(s, who).rounds && q.hub == Get(s, who).hub && q.links == Get(s, who).links
  {
    var p := Get(s, who);
    if p.phase != Rest && p.pc >= |Plan(cfg, p)| {
      TurnRounds(cfg, p);
      TurnFrame(cfg, p);
    } else if p.phase != Rest {
      OperationStepMoves(cfg, env, s, who, dt);
    }
  }

  // ----- all participants together -----

  function Total(ws: seq<Work>): Work {
    if ws == [] then Work(0, 0, 0, 0) else Sum(Total(ws[..|ws|-1]), ws[|ws|-1])
  }

  lemma {:induction false} OneWorks(ws: seq<Work>, i: nat, w: Work)
    requires i < |ws| && Less(w, ws[i])
    ensures Less(Total(ws[i := w]), Total(ws))
  {
    var n := |ws| - 1;
    if i == n {
      assert ws[i := w][..n] == ws[..n];
    } else {
      OneWorks(ws[..n], i, w);
      assert ws[i := w][..n] == ws[..n][i := w];
    }
  }

  /** The work of the whole system, the hub first. */
  function WorkLeft(cfg: Config, env: Env, g: Goal, s: System): seq<Work>
    requires Wired(cfg, s) && ValidConfig(cfg)
  {
    [WorkOf(cfg, env, g, s.hub)]
    + seq(|s.spokes|, i requires 0 <= i < |s.spokes| => WorkOf(cfg, env, g, s.spokes[i]))
  }

  function SystemWork(cfg: Config, env: Env, g: Goal, s: System): Work
    requires Wired(cfg, s) && ValidConfig(cfg)
  {
    Total(WorkLeft(cfg, env, g, s))
  }

  /** A step changes one participant and leaves the others alone. */
  predicate Replaces(s: System, t: System, who: Who, q: Participant)
    requires Exists(s, who)
  {
    t.hub == Put(s, who, q).hub && t.spokes == Put(s, who, q).spokes
  }

  lemma OneChanged(cfg: Config, env: Env, g: Goal, s: System, t: System, who: Who, q: Participant)
    requires ValidConfig(cfg) && Wired(cfg, s) && Wired(cfg, t) && Exists(s, who) && |q.links| >= 1
    requires Replaces(s, t, who, q)
    ensures WorkLeft(cfg, env, g, t)
            == WorkLeft(cfg, env, g, s)[if who.Hub? then 0 else who.index + 1 := WorkOf(cfg, env, g, q)]
  {
  }

  lemma ReplacedWorks(cfg: Config, env: Env, g: Goal, s: System, t: System, who: Who, q: Participant)
    requires ValidConfig(cfg) && Wired(cfg, s) && Wired(cfg, t) && Exists(s, who) && Replaces(s, t, who, q)
    requires |q.links| >= 1 && |Get(s, who).links| >= 1
    ensures var w, v := WorkOf(cfg, env, g, q), WorkOf(cfg, env, g, Get(s, who));
            && (Less(w, v) ==> Less(SystemWork(cfg, env, g, t), SystemWork(cfg, env, g, s)))
            && (w == v ==> SystemWork(cfg, env, g, t) == SystemWork(cfg, env, g, s))
  {
    var i := if who.Hub? then 0 else who.index + 1;
    var ws, w := WorkLeft(cfg, env, g, s), WorkOf(cfg, env, g, q);
    assert ws[i] == WorkOf(cfg, env, g, Get(s, who));
    OneChanged(cfg, env, g, s, t, who, q);
    if Less(w, ws[i]) { OneWorks(ws, i, w); }
    if w == ws[i] { assert ws[i := w] == ws; }
  }

  lemma MovedOnly(cfg: Config, env: Env, s: System, who: Who, dt: int)
    requires Sized(cfg, s) && Enabled(cfg, env, s, who, dt)
    ensures var t := Step(cfg, env, s, who, dt); Exists(t, who) && Replaces(s, t, who, Moved(cfg, env, s, who, dt))
  {
  }

  /** A step of a participant that is behind leaves less to do, and one of another participant no more. */
  lemma EveryStepWorks(cfg: Config, env: Env, g: Goal, s: System, who: Who, dt: int)
    requires Moving(cfg, env, s, who, dt)
    ensures SystemInv(cfg, env, Step(cfg, env, s, who, dt))
    ensures var w, v := SystemWork(cfg, env, g, Step(cfg, env, s, who, dt)), SystemWork(cfg, env, g, s);
            if Behind(g, Get(s, who)) then Less(w, v) else w == v
  {
    var t := Step(cfg, env, s, who, dt);
    StepKeeps(cfg, env, s, who, dt);
    MovedOnly(cfg, env, s, who, dt);
    StepRounds(cfg, env, s, who, dt);
    if Behind(g, Get(s, who)) { StepWorks(cfg, env, g, s, who, dt); }
    ReplacedWorks(cfg, env, g, s, t, who, Moved(cfg, env, s, who, dt));
  }
}
