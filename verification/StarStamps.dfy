/** Under which times the serial second participant stores the data it looks ahead for. */
module StarStamps {
  import opened Scheme
  import opened Choreography
  import opened Places
  import opened Lockstep
  import opened Star
  import opened StarSafety
  import opened StarSteps
  import opened StarTheorems
  import opened StarWork

  // ----- what a stamp says -----

  /** By how much a receiver looks ahead to the end of a new window. */
  function AheadSize(cfg: Config, env: Env, k: nat): int {
    if cfg.firstSetsSize then Len(cfg, env, k) else cfg.windowSize
  }

  /** Data of look-ahead is sent at the end of its round and stored at the end of an untruncated window. */
  predicate StampFits(cfg: Config, env: Env, st: Stamp) {
    st.ahead != 0 ==>
      && Ongoing(cfg, env, st.round)
      && st.sentAt == EndTime(cfg, env, st.round)
      && st.storedAt == After(cfg, env, st.round).start + AheadSize(cfg, env, st.round)
  }

  predicate StampsFit(cfg: Config, env: Env, p: Participant) {
    forall i :: 0 <= i < |p.stamps| ==> StampFits(cfg, env, p.stamps[i])
  }

  /** The state shared in the round that received data is for. */
  function SharedOf(phase: Phase, h: Here): Shared { if phase == Look then NextShared(h.s, h.r) else h.s }

  /** Where the clock stands when a receiver looks ahead. */
  lemma AheadClock(cfg: Config, h: Here, p: Participant)
    requires ValidConfig(cfg) && Facts(cfg, h) && LinksOf(cfg, p.hub, p.links)
    requires ClockInv(cfg, h, p) && VerdictInv(cfg, h, p) && (p.phase == Init || p.phase == Look)
    requires p.phase == Look ==> p.hub && cfg.kind == Serial
    requires LookAheadBy(cfg, p, ReceiveAhead) != 0
    ensures p.clock.Time() == SharedOf(p.phase, h).start && SharedOngoing(cfg, SharedOf(p.phase, h))
  {
  }

  lemma AheadBy(cfg: Config, h: Here, p: Participant)
    requires ValidConfig(cfg) && |p.links| >= 1 && SizeInv(cfg, h, p)
    requires Place(cfg, p.hub, p.links, p.phase, p.pc, Op.ReceiveAhead) && LookAheadBy(cfg, p, Op.ReceiveAhead) != 0
    ensures LookAheadBy(cfg, p, Op.ReceiveAhead)
            == if cfg.firstSetsSize then Current(p.phase, h).len else cfg.windowSize
  {
  }

  lemma AheadPlace(cfg: Config, p: Participant)
    requires |p.links| >= 1 && Place(cfg, p.hub, p.links, p.phase, p.pc, Op.ReceiveAhead)
    ensures (p.phase == Init || p.phase == Look) && p.hub && cfg.kind == Serial
  {
  }

  lemma AheadExpected(h: Here, p: Participant)
    ensures Expected(h, p, ReceiveAhead) == Data(Current(p.phase, h).end)
  {
  }

  lemma AheadHere(cfg: Config, h: Here, p: Participant)
    requires Ready(cfg, h, p, ReceiveAhead) && LookAheadBy(cfg, p, ReceiveAhead) != 0
    ensures p.clock.Time() == SharedOf(p.phase, h).start && SharedOngoing(cfg, SharedOf(p.phase, h))
    ensures LookAheadBy(cfg, p, ReceiveAhead) == if cfg.firstSetsSize then Current(p.phase, h).len else cfg.windowSize
    ensures Expected(h, p, ReceiveAhead) == Data(Current(p.phase, h).end)
  {
    AheadPlace(cfg, p);
    AheadClock(cfg, h, p);
    AheadBy(cfg, h, p);
    AheadExpected(h, p);
  }

  lemma AheadInRound(cfg: Config, env: Env, k: nat, clock: Clock, ahead: int)
    requires clock.Time() == After(cfg, env, k).start && ahead == AheadSize(cfg, env, k) && Ongoing(cfg, env, k)
    ensures StampFits(cfg, env, Stamp(EndTime(cfg, env, k), clock.ProgressBy(ahead).Time(), ahead, k))
  {
  }

  lemma SharedOfRound(cfg: Config, env: Env, phase: Phase, k: nat)
    requires ValidConfig(cfg)
    ensures SharedOf(phase, HereAt(cfg, env, k)) == After(cfg, env, RoundOf(phase, k))
    ensures Current(phase, HereAt(cfg, env, k)) == RoundAt(cfg, env, RoundOf(phase, k))
  {
    HereHolds(cfg, env, k);
  }

  lemma AheadStampFits(cfg: Config, env: Env, h: Here, p: Participant)
    requires Ready(cfg, h, p, ReceiveAhead) && LookAheadBy(cfg, p, ReceiveAhead) != 0
    requires SharedOf(p.phase, h) == After(cfg, env, RoundOf(p.phase, p.rounds))
    requires Current(p.phase, h) == RoundAt(cfg, env, RoundOf(p.phase, p.rounds))
    ensures Expected(h, p, ReceiveAhead).Data?
    ensures var ahead := LookAheadBy(cfg, p, ReceiveAhead);
            && ahead == AheadSize(cfg, env, RoundOf(p.phase, p.rounds))
            && StampFits(cfg, env, Stamp(Expected(h, p, ReceiveAhead).sentAt,
                                         p.clock.ProgressBy(ahead).Time(), ahead, RoundOf(p.phase, p.rounds)))
  {
    AheadHere(cfg, h, p);
    AheadInRound(cfg, env, RoundOf(p.phase, p.rounds), p.clock, LookAheadBy(cfg, p, ReceiveAhead));
  }

  lemma NewStampFits(cfg: Config, env: Env, p: Participant, op: Op)
    requires Acting(cfg, env, p, op) && (op.ReceiveData? || op.ReceiveAhead?)
    ensures Expected(HereAt(cfg, env, p.rounds), p, op).Data?
    ensures var ahead := LookAheadBy(cfg, p, op);
            StampFits(cfg, env, Stamp(Expected(HereAt(cfg, env, p.rounds), p, op).sentAt,
                                      p.clock.ProgressBy(ahead).Time(), ahead, RoundOf(p.phase, p.rounds)))
  {
    var h := HereAt(cfg, env, p.rounds);
    ActingReady(cfg, env, p, op);
    if LookAheadBy(cfg, p, op) != 0 {
      SharedOfRound(cfg, env, p.phase, p.rounds);
      AheadStampFits(cfg, env, h, p);
    } else {
      ReceiveStamp(cfg, h, p, op);
    }
  }

  /** The stamp that a receive adds, if it adds one. */
  function StampsOf(cfg: Config, p: Participant, op: Op, m: Message): seq<Stamp> {
    if (op.ReceiveData? || op.ReceiveAhead?) && m.Data? then
      var ahead := LookAheadBy(cfg, p, op);
      [Stamp(m.sentAt, p.clock.ProgressBy(ahead).Time(), ahead, RoundOf(p.phase, p.rounds))]
    else []
  }

  lemma ReceiveAdds(cfg: Config, p: Participant, op: Op, m: Message)
    requires IsReceive(op) && LinkOf(op) < |p.logs|
    ensures Receive(cfg, p, op, m).stamps == p.stamps + StampsOf(cfg, p, op, m)
  {
    assert p.stamps + [] == p.stamps;
  }

  lemma TurnAdds(cfg: Config, p: Participant)
    requires p.phase != Rest
    ensures Turn(cfg, p).stamps == p.stamps
  {
  }

  lemma SilentAdds(cfg: Config, env: Env, p: Participant, op: Op, dt: int)
    requires LinkOf(op) < |p.logs|
    ensures Advance(cfg, p, dt).stamps == p.stamps
    ensures IsSend(op) ==> Send(p, op).stamps == p.stamps
    ensures !IsSend(op) && !IsReceive(op) ==> Local(cfg, env, p, op).stamps == p.stamps
  {
  }

  lemma OtherStepsAdd(cfg: Config, env: Env, s: System, who: Who, dt: int)
    requires Moving(cfg, env, s, who, dt)
    requires var p := Get(s, who); p.phase == Rest || p.pc >= |Plan(cfg, p)| || !IsReceive(Plan(cfg, p)[p.pc])
    ensures Moved(cfg, env, s, who, dt).stamps == Get(s, who).stamps
  {
    var p := Get(s, who);
    if p.phase != Rest {
      if p.pc >= |Plan(cfg, p)| { TurnAdds(cfg, p); } else { SilentAdds(cfg, env, p, Plan(cfg, p)[p.pc], dt); }
    }
  }

  lemma ReceiveMoves(cfg: Config, env: Env, s: System, who: Who, dt: int, op: Op)
    requires Moving(cfg, env, s, who, dt) && Get(s, who).phase != Rest
    requires Get(s, who).pc < |Plan(cfg, Get(s, who))| && op == Plan(cfg, Get(s, who))[Get(s, who).pc] && IsReceive(op)
    ensures LinkOf(op) < |Get(s, who).logs| && Acting(cfg, env, Get(s, who), op)
    ensures Moved(cfg, env, s, who, dt)
            == Receive(cfg, Get(s, who), op, Expected(HereAt(cfg, env, Get(s, who).rounds), Get(s, who), op))
  {
    MoverReady(cfg, env, s, who, dt);
    ActingReady(cfg, env, Get(s, who), op);
    ReceivesExpected(cfg, env, s, who, op);
  }

  lemma ReceiveFits(cfg: Config, env: Env, p: Participant, op: Op)
    requires ValidConfig(cfg) && Acting(cfg, env, p, op) && IsReceive(op) && LinkOf(op) < |p.logs|
    requires StampsFit(cfg, env, p)
    ensures StampsFit(cfg, env, Receive(cfg, p, op, Expected(HereAt(cfg, env, p.rounds), p, op)))
  {
    ReceiveAdds(cfg, p, op, Expected(HereAt(cfg, env, p.rounds), p, op));
    if op.ReceiveData? || op.ReceiveAhead? { NewStampFits(cfg, env, p, op); }
  }

  lemma StepFits(cfg: Config, env: Env, s: System, who: Who, dt: int)
    requires Moving(cfg, env, s, who, dt) && StampsFit(cfg, env, Get(s, who))
    ensures StampsFit(cfg, env, Moved(cfg, env, s, who, dt))
  {
    var p := Get(s, who);
    MoverReady(cfg, env, s, who, dt);
    if p.phase == Rest || p.pc >= |Plan(cfg, p)| || !IsReceive(Plan(cfg, p)[p.pc]) {
      OtherStepsAdd(cfg, env, s, who, dt);
    } else {
      ReceiveMoves(cfg, env, s, who, dt, Plan(cfg, p)[p.pc]);
      ReceiveFits(cfg, env, p, Plan(cfg, p)[p.pc]);
    }
  }

  lemma StepFitsAll(cfg: Config, env: Env, s: System, c: Choice, who: Who)
    requires Moving(cfg, env, s, c.who, c.dt) && Exists(s, who) && StampsFit(cfg, env, Get(s, who))
    ensures var t := Step(cfg, env, s, c.who, c.dt); Exists(t, who) && StampsFit(cfg, env, Get(t, who))
  {
    if who == c.who {
      MovedOnly(cfg, env, s, c.who, c.dt);
      StepFits(cfg, env, s, who, c.dt);
    } else {
      OthersStay(cfg, env, s, c, who);
    }
  }

  lemma OthersStay(cfg: Config, env: Env, s: System, c: Choice, who: Who)
    requires Sized(cfg, s) && Enabled(cfg, env, s, c.who, c.dt) && Exists(s, who) && who != c.who
    ensures var t := Step(cfg, env, s, c.who, c.dt); Exists(t, who) && Get(t, who) == Get(s, who)
  {
    MovedOnly(cfg, env, s, c.who, c.dt);
  }

  lemma StepWho(cfg: Config, env: Env, s: System, c: Choice, who: Who)
    requires Sized(cfg, s) && Enabled(cfg, env, s, c.who, c.dt) && Exists(Step(cfg, env, s, c.who, c.dt), who)
    ensures Exists(s, who)
  {
    MovedOnly(cfg, env, s, c.who, c.dt);
  }

  lemma {:induction false} RunFits(cfg: Config, env: Env, choices: seq<Choice>, who: Who)
    requires ValidConfig(cfg) && Run(cfg, env, choices).Reached? && Exists(Run(cfg, env, choices).s, who)
    ensures StampsFit(cfg, env, Get(Run(cfg, env, choices).s, who))
  {
    if choices != [] {
      var front, c := choices[..|choices|-1], choices[|choices|-1];
      RunKeeps(cfg, env, front);
      StepWho(cfg, env, Run(cfg, env, front).s, c, who);
      RunFits(cfg, env, front, who);
      StepFitsAll(cfg, env, Run(cfg, env, front).s, c, who);
    }
  }

  /** Data is stored under the time at which it was sent, except that data a serial second participant looks ahead
      for is stored beyond the maximum time if its next window of the configured size would end there. */
  lemma StampsAgree(cfg: Config, env: Env, choices: seq<Choice>, who: Who, i: nat)
    requires ValidConfig(cfg) && Run(cfg, env, choices).Reached? && Exists(Run(cfg, env, choices).s, who)
    requires i < |Get(Run(cfg, env, choices).s, who).stamps|
    ensures var st := Get(Run(cfg, env, choices).s, who).stamps[i];
            if st.ahead == 0 then st.storedAt == st.sentAt
            else
              && st.sentAt == EndTime(cfg, env, st.round)
              && (st.storedAt == st.sentAt
                  <==> cfg.maxTime == UNDEFINED || cfg.firstSetsSize
                       || After(cfg, env, st.round).start + cfg.windowSize <= cfg.maxTime)
  {
    var s := Run(cfg, env, choices).s;
    RunKeeps(cfg, env, choices);
    InvOf(cfg, env, s, who);
    RunFits(cfg, env, choices, who);
    assert StampOk(cfg, Get(s, who).stamps[i]);
    assert StampFits(cfg, env, Get(s, who).stamps[i]);
  }
}
