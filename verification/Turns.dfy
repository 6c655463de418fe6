/** The decisions between the exchanges keep the invariant of a participant. */
module Turns {
  import opened Scheme
  import opened Choreography
  import opened Places
  import opened Lockstep

  /** The next round is the one that follows. */
  predicate Follows(cfg: Config, h: Here, h': Here) {
    && Facts(cfg, h') && h'.s == NextShared(h.s, h.r) && h'.r == h.next
    && h'.ongoing == SharedOngoing(cfg, h'.s) && h'.last == h.r.done
  }

  lemma NextFollows(cfg: Config, env: Env, k: nat)
    requires ValidConfig(cfg)
    ensures Follows(cfg, HereAt(cfg, env, k), HereAt(cfg, env, k + 1))
  {
    HereHolds(cfg, env, k);
    HereHolds(cfg, env, k + 1);
  }

  // ----- the log at the end of a plan -----

  lemma EmptyPrefix(cfg: Config, p: Participant, link: nat, r: Round)
    requires |p.links| >= 1
    ensures EventsOf(p.hub, p.phase, link, r, Plan(cfg, p)[..0]) == []
  {
    assert Plan(cfg, p)[..0] == [];
  }

  /** At the end of a plan a link has seen what precedes the plan and the duty of the plan. */
  lemma LogAtEnd(cfg: Config, h: Here, seen: seq<Event>, p: Participant, link: nat)
    requires ValidConfig(cfg) && Shape(cfg, p) && link < |p.links| && p.pc == |Plan(cfg, p)|
    requires LogInv(cfg, h, seen, p, link)
    ensures p.logs[link] == Before(cfg, p.hub, p.phase, p.links[link], h, seen)
                            + Duty(cfg, p.hub, p.phase, p.links[link], Current(p.phase, h))
  {
    PlansPerformProtocol(cfg, p.hub, p.phase, p.links, link, Current(p.phase, h));
    assert Plan(cfg, p)[..p.pc] == Plan(cfg, p);
  }

  lemma LogAtStart(cfg: Config, h: Here, seen: seq<Event>, q: Participant, link: nat)
    requires Shape(cfg, q) && q.pc == 0 && link < |q.links|
    requires q.logs[link] == Before(cfg, q.hub, q.phase, q.links[link], h, seen)
    ensures LogInv(cfg, h, seen, q, link)
  {
    EmptyPrefix(cfg, q, link, Current(q.phase, h));
  }

  /** The stream of a link continues from one plan to the next. */
  lemma BeforeNext(cfg: Config, hub: bool, link: Link, h: Here, seen: seq<Event>)
    ensures h.ongoing ==> Before(cfg, hub, First, link, h, seen) == Before(cfg, hub, Rest, link, h, seen)
    ensures Before(cfg, hub, Second, link, h, seen)
            == Before(cfg, hub, First, link, h, seen) + Duty(cfg, hub, First, link, h.r)
    ensures cfg.kind == Serial && hub ==>
              Before(cfg, hub, Look, link, h, seen) == Before(cfg, hub, Second, link, h, seen)
  {
  }

  lemma BeforeRound(cfg: Config, hub: bool, link: Link, h: Here, h': Here, seen: seq<Event>, phase: Phase)
    requires h'.r == h.next
    requires phase == Look ==> h'.ongoing && cfg.kind == Serial && hub
    requires phase == Second && cfg.kind == Serial && hub ==> !h'.ongoing
    requires phase == Second || phase == Look
    ensures Before(cfg, hub, Rest, link, h', seen + UpEvents(cfg, link, h.r) + DownEvents(cfg, link, h.r))
         == Before(cfg, hub, phase, link, h, seen) + Duty(cfg, hub, phase, link, Current(phase, h))
  {
  }

  // ----- lengths of plans -----

  lemma PlanWidths(cfg: Config, hub: bool, links: seq<Link>)
    requires |links| >= 1
    ensures cfg.kind == Serial && hub ==>
              |PlanFor(cfg, Init, hub, links)| > SizeIndex(links[0]) + Width(cfg.firstSetsSize) + 1
    ensures cfg.kind == Serial && !hub && cfg.firstSetsSize ==> |PlanFor(cfg, First, hub, links)| > 0
    ensures cfg.kind == Serial && hub && cfg.implicitMode ==> |PlanFor(cfg, First, hub, links)| > 0
    ensures !(cfg.kind == Serial && hub) && cfg.implicitMode ==> |PlanFor(cfg, Second, hub, links)| > 0
    ensures |PlanFor(cfg, Look, hub, links)| > 0
  {
    if cfg.kind == Serial && hub { SerialInitWidth(cfg, links); }
    if cfg.kind != Serial && hub && cfg.implicitMode {
      assert Ops(SecondBlock(cfg, hub, links))
             == [ImplicitStep] + Ops(Then(SendConvergences(|links|), SendAll(links, |links|)));
    }
  }

  lemma SerialInitWidth(cfg: Config, links: seq<Link>)
    requires |links| >= 1 && cfg.kind == Serial
    ensures |PlanFor(cfg, Init, true, links)| > SizeIndex(links[0]) + Width(cfg.firstSetsSize) + 1
  {
    var l := links[0];
    assert |Ops(Three(When(l.downInit, SendData(0)), When(l.upInit, ReceiveData(0)),
                      When(cfg.firstSetsSize, ReceiveSize)))|
        == SizeIndex(l) + Width(cfg.firstSetsSize);
    assert |Ops(Three(One(TakeSize), When(l.upData, ReceiveAhead), One(Notify)))| >= 2;
  }

  // ----- a step of the solver -----

  /** At rest the scheme is ongoing exactly when the shared state says so. */
  lemma OngoingAtRest(cfg: Config, h: Here, p: Participant)
    requires ValidConfig(cfg) && Facts(cfg, h) && p.phase == Rest && ClockInv(cfg, h, p)
    ensures IsCouplingOngoing(cfg, p) <==> h.ongoing
  {
  }

  /** A participant that dictates the window size steps over the whole window at once. */
  predicate FollowsEnv(cfg: Config, h: Here, p: Participant, dt: int) {
    cfg.firstSetsSize && !p.hub ==> dt == h.r.len
  }

  /** How far a participant between two exchanges may step. */
  lemma LimitAtRest(cfg: Config, h: Here, p: Participant)
    requires ValidConfig(cfg) && Facts(cfg, h) && p.phase == Rest && LinksOf(cfg, p.hub, p.links)
    requires ClockInv(cfg, h, p) && SizeInv(cfg, h, p) && h.ongoing && (cfg.firstSetsSize ==> p.hub)
    ensures NextTimeStepMaxSize(cfg, p) == AtMost(h.r.len - p.clock.progress)
  {
    OngoingAtRest(cfg, h, p);
  }

  /** A legal time step never passes the end of the window, and the window end is recognised. */
  lemma LegalStepStays(cfg: Config, h: Here, p: Participant, dt: int)
    requires ValidConfig(cfg) && Facts(cfg, h) && p.phase == Rest && LinksOf(cfg, p.hub, p.links)
    requires ClockInv(cfg, h, p) && SizeInv(cfg, h, p) && h.ongoing
    requires LegalStep(cfg, p, dt) && FollowsEnv(cfg, h, p, dt)
    ensures p.clock.progress < p.clock.progress + dt <= h.r.len
    ensures var q := p.(clock := p.clock.ProgressBy(dt));
            ReachedEndOfTimeWindow(cfg, q) <==> q.clock.progress == h.r.len
  {
    if cfg.firstSetsSize && !p.hub { OngoingAtRest(cfg, h, p); } else { LimitAtRest(cfg, h, p); }
  }

  lemma AdvanceState(cfg: Config, h: Here, p: Participant, dt: int)
    requires ValidConfig(cfg) && Facts(cfg, h) && p.phase == Rest && LinksOf(cfg, p.hub, p.links)
    requires StateInv(cfg, h, p) && h.ongoing && LegalStep(cfg, p, dt) && FollowsEnv(cfg, h, p, dt)
    ensures StateInv(cfg, h, Advance(cfg, p, dt))
  {
    LegalStepStays(cfg, h, p, dt);
  }

  /** What `Advance` leaves alone. */
  predicate Advanced(p: Participant, q: Participant) {
    && q.hub == p.hub && q.links == p.links && q.logs == p.logs && q.stamps == p.stamps
    && q.rounds == p.rounds && q.status == p.status
    && (q.phase == Rest || q.phase == First) && q.pc == 0 && !q.received && !q.complete
    && (q.phase == Rest ==> q.clock.progress > 0)
  }

  lemma AdvanceLog(cfg: Config, h: Here, seen: seq<Event>, p: Participant, q: Participant, link: nat)
    requires Shape(cfg, p) && p.phase == Rest && h.ongoing && link < |p.links| && LogInv(cfg, h, seen, p, link)
    requires Advanced(p, q) && Shape(cfg, q)
    ensures LogInv(cfg, h, seen, q, link)
  {
    EmptyPrefix(cfg, p, link, Current(p.phase, h));
    BeforeNext(cfg, p.hub, p.links[link], h, seen);
    LogAtStart(cfg, h, seen, q, link);
  }

  /** Nothing has been received at the beginning of a plan. */
  lemma NothingExecuted(cfg: Config, q: Participant)
    requires |q.links| >= 1 && q.pc == 0
    ensures !Executed(cfg, q, Notify)
  {
    assert Plan(cfg, q)[..0] == [];
  }

  lemma AdvancedKeeps(cfg: Config, h: Here, seen: seq<seq<Event>>, p: Participant, q: Participant)
    requires InvAt(cfg, h, seen, p) && p.status.Running? && p.phase == Rest && Advanced(p, q) && h.ongoing
    requires StateInv(cfg, h, q)
    ensures InvAt(cfg, h, seen, q)
  {
    NothingExecuted(cfg, q);
    forall link: nat | link < |q.links| ensures LogInv(cfg, h, seen[link], q, link) {
      AdvanceLog(cfg, h, seen[link], p, q, link);
    }
  }

  lemma AdvanceKeeps(cfg: Config, h: Here, seen: seq<seq<Event>>, p: Participant, dt: int)
    requires ValidConfig(cfg) && Facts(cfg, h) && InvAt(cfg, h, seen, p) && p.status.Running? && p.phase == Rest
    requires IsCouplingOngoing(cfg, p) && LegalStep(cfg, p, dt) && FollowsEnv(cfg, h, p, dt)
    ensures InvAt(cfg, h, seen, Advance(cfg, p, dt))
  {
    OngoingAtRest(cfg, h, p);
    AdvanceState(cfg, h, p, dt);
    AdvancedKeeps(cfg, h, seen, p, Advance(cfg, p, dt));
  }

  // ----- from the initial exchange to the first window -----

  lemma InitTurnKeeps(cfg: Config, h: Here, seen: seq<seq<Event>>, p: Participant)
    requires ValidConfig(cfg) && Facts(cfg, h) && InvAt(cfg, h, seen, p) && p.status.Running? && p.phase == Init
    requires p.pc == |Plan(cfg, p)|
    requires forall link: nat :: link < |p.links| ==> seen[link] == InitialEvents(cfg, p.links[link])
    requires !h.last
    ensures InvAt(cfg, h, seen, Turn(cfg, p))
  {
    var q := Turn(cfg, p);
    PlanWidths(cfg, p.hub, p.links);
    InitTurnReceived(cfg, h, p);
    forall link: nat | link < |q.links| ensures LogInv(cfg, h, seen[link], q, link) {
      LogAtEnd(cfg, h, seen[link], p, link);
      LogAtStart(cfg, h, seen[link], q, link);
    }
    InitTurnState(cfg, h, p);
  }

  lemma InitTurnReceived(cfg: Config, h: Here, p: Participant)
    requires Shape(cfg, p) && p.phase == Init && p.pc == |Plan(cfg, p)| && ReceivedInv(cfg, p) && ClockInv(cfg, h, p)
    ensures ReceivedInv(cfg, Turn(cfg, p))
  {
    NotifyExecutedAtEnd(cfg, p);
  }

  lemma InitTurnState(cfg: Config, h: Here, p: Participant)
    requires ValidConfig(cfg) && Facts(cfg, h) && LinksOf(cfg, p.hub, p.links) && p.phase == Init && StateInv(cfg, h, p)
    requires !h.last
    requires cfg.kind == Serial && p.hub ==> p.pc > SizeIndex(p.links[0]) + Width(cfg.firstSetsSize) + 1
    ensures StateInv(cfg, h, Turn(cfg, p))
  {
  }

  // ----- from the first exchange to the second -----

  lemma FirstTurnState(cfg: Config, h: Here, p: Participant)
    requires ValidConfig(cfg) && Facts(cfg, h) && LinksOf(cfg, p.hub, p.links) && p.phase == First
    requires StateInv(cfg, h, p) && !p.complete
    requires cfg.kind == Serial && !p.hub && cfg.firstSetsSize ==> p.pc > 0
    requires cfg.kind == Serial && p.hub && cfg.implicitMode ==> p.pc > 0
    ensures Turn(cfg, p) == p.(phase := Second, pc := 0, required := {})
    ensures StateInv(cfg, h, Turn(cfg, p))
  {
  }

  lemma FirstTurnReceived(cfg: Config, p: Participant)
    requires Shape(cfg, p) && p.phase == First && p.pc == |Plan(cfg, p)| && ReceivedInv(cfg, p)
    ensures ReceivedInv(cfg, p.(phase := Second, pc := 0, required := {}))
  {
    NotifyExecutedAtEnd(cfg, p);
    NothingExecuted(cfg, p.(phase := Second, pc := 0, required := {}));
  }

  lemma FirstTurnKeeps(cfg: Config, h: Here, seen: seq<seq<Event>>, p: Participant)
    requires ValidConfig(cfg) && Facts(cfg, h) && InvAt(cfg, h, seen, p) && p.status.Running? && p.phase == First
    requires p.pc == |Plan(cfg, p)|
    ensures InvAt(cfg, h, seen, Turn(cfg, p))
  {
    PlanWidths(cfg, p.hub, p.links);
    FirstTurnState(cfg, h, p);
    FirstTurnReceived(cfg, p);
    var q := Turn(cfg, p);
    forall link: nat | link < |q.links| ensures LogInv(cfg, h, seen[link], q, link) {
      LogAtEnd(cfg, h, seen[link], p, link);
      BeforeNext(cfg, p.hub, p.links[link], h, seen[link]);
      LogAtStart(cfg, h, seen[link], q, link);
    }
  }

  // ----- from the second exchange to the next window or iteration -----

  /** The serial second participant asks for more data exactly when the first one continues. */
  lemma LookAheadDecision(cfg: Config, h: Here, p: Participant)
    requires ValidConfig(cfg) && Facts(cfg, h) && LinksOf(cfg, p.hub, p.links) && StateInv(cfg, h, p)
    requires p.phase == Second && cfg.kind == Serial && p.hub
    ensures (IsCouplingOngoing(cfg, p) || (cfg.implicitMode && !p.converged))
            <==> SharedOngoing(cfg, NextShared(h.s, h.r))
  {
  }

  lemma LookTurnState(cfg: Config, h: Here, p: Participant)
    requires ValidConfig(cfg) && Facts(cfg, h) && LinksOf(cfg, p.hub, p.links) && StateInv(cfg, h, p)
    requires p.phase == Second && cfg.kind == Serial && p.hub && SharedOngoing(cfg, NextShared(h.s, h.r))
    ensures Turn(cfg, p) == p.(phase := Look, pc := 0) && StateInv(cfg, h, Turn(cfg, p))
  {
    LookAheadDecision(cfg, h, p);
  }

  lemma LookTurnKeeps(cfg: Config, h: Here, seen: seq<seq<Event>>, p: Participant)
    requires ValidConfig(cfg) && Facts(cfg, h) && InvAt(cfg, h, seen, p) && p.status.Running? && p.phase == Second
    requires p.pc == |Plan(cfg, p)|
    requires cfg.kind == Serial && p.hub && SharedOngoing(cfg, NextShared(h.s, h.r))
    ensures InvAt(cfg, h, seen, Turn(cfg, p))
  {
    LookTurnState(cfg, h, p);
    var q := Turn(cfg, p);
    NotifiedOnce(cfg, p.hub, p.links, First);
    NothingExecuted(cfg, p);
    NothingExecuted(cfg, q);
    forall link: nat | link < |q.links| ensures LogInv(cfg, h, seen[link], q, link) {
      LogAtEnd(cfg, h, seen[link], p, link);
      BeforeNext(cfg, p.hub, p.links[link], h, seen[link]);
      LogAtStart(cfg, h, seen[link], q, link);
    }
  }

  // ----- the end of a round -----

  /** A participant that is about to finish a round. */
  predicate AtEnd(cfg: Config, h: Here, p: Participant) {
    && ValidConfig(cfg) && Facts(cfg, h) && LinksOf(cfg, p.hub, p.links) && StateInv(cfg, h, p)
    && (p.phase == Second || p.phase == Look)
    && (cfg.implicitMode ==> p.converged == h.r.done)
    && (p.phase == Look ==> p.pc > 0 && cfg.kind == Serial && p.hub)
    && (SharedOngoing(cfg, NextShared(h.s, h.r)) && cfg.kind == Serial && p.hub ==> p.phase == Look)
    && (p.received <==> (cfg.kind == Serial && p.hub ==> SharedOngoing(cfg, NextShared(h.s, h.r))))
  }

  lemma FinishDoesNotFail(cfg: Config, h: Here, p: Participant)
    requires AtEnd(cfg, h, p) && p.status.Running?
    ensures Finish(cfg, p).status.Running? && Finish(cfg, p).phase == Rest && Finish(cfg, p).pc == 0
    ensures Finish(cfg, p).rounds == p.rounds + 1
  {
  }

  lemma FinishSizes(cfg: Config, h: Here, h': Here, p: Participant)
    requires AtEnd(cfg, h, p) && Follows(cfg, h, h') && p.status.Running?
    ensures SizeInv(cfg, h', Finish(cfg, p))
  {
  }

  lemma FinishClock(cfg: Config, h: Here, h': Here, p: Participant)
    requires AtEnd(cfg, h, p) && Follows(cfg, h, h') && p.status.Running?
    ensures ClockInv(cfg, h', Finish(cfg, p))
  {
  }

  lemma AppendAction(a: seq<Required>, x: Required)
    ensures LastWrite(a + [x]) == if x.action == WriteCheckpoint then x.time else LastWrite(a)
    ensures ReadsSinceWrite(a + [x]) == if x.action == WriteCheckpoint then 0 else 1 + ReadsSinceWrite(a)
    ensures SoundCheckpoints(a)
            && (if x.action == WriteCheckpoint then a == [] || x.time > LastWrite(a)
                else a != [] && x.time == LastWrite(a))
            ==> SoundCheckpoints(a + [x])
  {
    assert (a + [x])[..|a|] == a;
  }

  /** What a finished round requires from the solver. */
  lemma FinishRequires(cfg: Config, h: Here, p: Participant)
    requires AtEnd(cfg, h, p) && p.status.Running?
    ensures var q := Finish(cfg, p);
            var repeat := cfg.implicitMode && !h.r.done;
            var write := cfg.implicitMode && h.r.done && SharedOngoing(cfg, NextShared(h.s, h.r));
            && q.clock == Clock(if repeat then h.s.start else h.r.end, 0)
            && q.required == (if repeat then {ReadCheckpoint} else if write then {WriteCheckpoint} else {})
            && q.actions == (if repeat then p.actions + [Required(ReadCheckpoint, h.s.start)]
                             else if write then p.actions + [Required(WriteCheckpoint, h.r.end)] else p.actions)
  {
    assert p.actions + [] == p.actions;
  }

  lemma FinishActions(cfg: Config, h: Here, h': Here, p: Participant)
    requires AtEnd(cfg, h, p) && Follows(cfg, h, h') && p.status.Running?
    ensures ActionsInv(cfg, h', Finish(cfg, p))
  {
    FinishRequires(cfg, h, p);
    FinishDoesNotFail(cfg, h, p);
    ActionsFollow(cfg, h, h', p, Finish(cfg, p));
  }

  lemma ActionsFollow(cfg: Config, h: Here, h': Here, p: Participant, q: Participant)
    requires AtEnd(cfg, h, p) && Follows(cfg, h, h') && q.phase == Rest
    requires q.clock == Clock(if cfg.implicitMode && !h.r.done then h.s.start else h.r.end, 0)
    requires var repeat := cfg.implicitMode && !h.r.done;
             var write := cfg.implicitMode && h.r.done && h'.ongoing;
             && q.required == (if repeat then {ReadCheckpoint} else if write then {WriteCheckpoint} else {})
             && q.actions == (if repeat then p.actions + [Required(ReadCheckpoint, h.s.start)]
                              else if write then p.actions + [Required(WriteCheckpoint, h.r.end)] else p.actions)
    ensures ActionsInv(cfg, h', q)
  {
    AppendAction(p.actions, Required(ReadCheckpoint, h.s.start));
    AppendAction(p.actions, Required(WriteCheckpoint, h.r.end));
  }

  lemma FinishVerdict(cfg: Config, h: Here, h': Here, p: Participant)
    requires AtEnd(cfg, h, p) && Follows(cfg, h, h') && p.status.Running?
    ensures VerdictInv(cfg, h', Finish(cfg, p))
  {
  }

  lemma FinishState(cfg: Config, h: Here, h': Here, p: Participant)
    requires AtEnd(cfg, h, p) && Follows(cfg, h, h') && p.status.Running?
    ensures StateInv(cfg, h', Finish(cfg, p))
  {
    FinishSizes(cfg, h, h', p);
    FinishClock(cfg, h, h', p);
    FinishActions(cfg, h, h', p);
    FinishVerdict(cfg, h, h', p);
  }

  lemma FinishLog(cfg: Config, h: Here, h': Here, seen: seq<Event>, p: Participant, link: nat)
    requires AtEnd(cfg, h, p) && Follows(cfg, h, h') && p.status.Running?
    requires Shape(cfg, p) && link < |p.links| && p.pc == |Plan(cfg, p)| && LogInv(cfg, h, seen, p, link)
    requires p.phase == Second && cfg.kind == Serial && p.hub ==> !h'.ongoing
    ensures var q := Finish(cfg, p);
            var after := seen + UpEvents(cfg, p.links[link], h.r) + DownEvents(cfg, p.links[link], h.r);
            Shape(cfg, q) && LogInv(cfg, h', after, q, link)
  {
    var q := Finish(cfg, p);
    FinishDoesNotFail(cfg, h, p);
    LogAtEnd(cfg, h, seen, p, link);
    FinishClock(cfg, h, h', p);
    if p.phase == Look { assert h'.ongoing; }
    BeforeRound(cfg, p.hub, p.links[link], h, h', seen, p.phase);
    LogAtStart(cfg, h', seen + UpEvents(cfg, p.links[link], h.r) + DownEvents(cfg, p.links[link], h.r), q, link);
  }

  lemma ReachesEnd(cfg: Config, h: Here, seen: seq<seq<Event>>, p: Participant)
    requires ValidConfig(cfg) && Facts(cfg, h) && InvAt(cfg, h, seen, p) && p.status.Running? && p.pc == |Plan(cfg, p)|
    requires p.phase == Second || p.phase == Look
    requires p.phase == Second && cfg.kind == Serial && p.hub ==> !SharedOngoing(cfg, NextShared(h.s, h.r))
    ensures AtEnd(cfg, h, p)
  {
    PlanWidths(cfg, p.hub, p.links);
    NotifyExecutedAtEnd(cfg, p);
    NotifiedOnce(cfg, p.hub, p.links, First);
    NotifiedOnce(cfg, p.hub, p.links, p.phase);
  }

  lemma FinishFrame(cfg: Config, h: Here, p: Participant)
    requires AtEnd(cfg, h, p) && p.status.Running?
    ensures var q := Finish(cfg, p);
            q.hub == p.hub && q.links == p.links && q.stamps == p.stamps && |q.logs| == |p.logs|
  {
  }

  lemma FinishReceived(cfg: Config, h: Here, h': Here, p: Participant)
    requires AtEnd(cfg, h, p) && Follows(cfg, h, h') && p.status.Running? && Shape(cfg, Finish(cfg, p))
    ensures ReceivedInv(cfg, Finish(cfg, p))
  {
    FinishDoesNotFail(cfg, h, p);
    FinishClock(cfg, h, h', p);
    OngoingAtRest(cfg, h', Finish(cfg, p));
  }

  /** The messages of a finished round are seen in the next one. */
  predicate SeesRound(cfg: Config, h: Here, links: seq<Link>, seen: seq<seq<Event>>, seen': seq<seq<Event>>) {
    && |seen| == |seen'| == |links|
    && forall link: nat :: link < |links| ==>
         seen'[link] == seen[link] + UpEvents(cfg, links[link], h.r) + DownEvents(cfg, links[link], h.r)
  }

  lemma FinishKeeps(cfg: Config, h: Here, h': Here, seen: seq<seq<Event>>, seen': seq<seq<Event>>, p: Participant)
    requires InvAt(cfg, h, seen, p) && p.status.Running? && p.pc == |Plan(cfg, p)|
    requires AtEnd(cfg, h, p) && Follows(cfg, h, h') && SeesRound(cfg, h, p.links, seen, seen')
    ensures InvAt(cfg, h', seen', Finish(cfg, p))
  {
    var q := Finish(cfg, p);
    FinishDoesNotFail(cfg, h, p);
    FinishFrame(cfg, h, p);
    FinishState(cfg, h, h', p);
    FinishReceived(cfg, h, h', p);
    forall link: nat | link < |p.links| ensures LogInv(cfg, h', seen'[link], q, link) {
      FinishLog(cfg, h, h', seen[link], p, link);
    }
  }

  /** Whether a turn finishes the round. */
  predicate Finishes(cfg: Config, h: Here, p: Participant) {
    p.phase == Look || (p.phase == Second && !(cfg.kind == Serial && p.hub && SharedOngoing(cfg, NextShared(h.s, h.r))))
  }

  lemma FinishTurnKeeps(cfg: Config, h: Here, h': Here, seen: seq<seq<Event>>, seen': seq<seq<Event>>, p: Participant)
    requires ValidConfig(cfg) && Facts(cfg, h) && Follows(cfg, h, h') && Finishes(cfg, h, p)
    requires InvAt(cfg, h, seen, p) && p.status.Running? && p.pc == |Plan(cfg, p)|
    requires SeesRound(cfg, h, p.links, seen, seen')
    ensures Turn(cfg, p) == Finish(cfg, p) && Finish(cfg, p).rounds == p.rounds + 1
    ensures InvAt(cfg, h', seen', Finish(cfg, p))
  {
    if p.phase == Second && cfg.kind == Serial && p.hub { LookAheadDecision(cfg, h, p); }
    ReachesEnd(cfg, h, seen, p);
    FinishDoesNotFail(cfg, h, p);
    FinishKeeps(cfg, h, h', seen, seen', p);
  }

  lemma StayTurnKeeps(cfg: Config, h: Here, seen: seq<seq<Event>>, p: Participant)
    requires ValidConfig(cfg) && Facts(cfg, h) && !Finishes(cfg, h, p)
    requires InvAt(cfg, h, seen, p) && p.status.Running? && p.phase != Rest && p.pc == |Plan(cfg, p)|
    requires p.phase == Init ==>
               !h.last && forall link: nat :: link < |p.links| ==> seen[link] == InitialEvents(cfg, p.links[link])
    ensures InvAt(cfg, h, seen, Turn(cfg, p))
  {
    match p.phase
    case Init => InitTurnKeeps(cfg, h, seen, p);
    case First => FirstTurnKeeps(cfg, h, seen, p);
    case Second => LookTurnKeeps(cfg, h, seen, p);
  }

  lemma StayTurnRounds(cfg: Config, h: Here, p: Participant)
    requires ValidConfig(cfg) && Facts(cfg, h) && LinksOf(cfg, p.hub, p.links) && StateInv(cfg, h, p)
    requires !Finishes(cfg, h, p) && p.phase != Rest
    ensures Turn(cfg, p).rounds == p.rounds && Turn(cfg, p).links == p.links
  {
    if p.phase == Second { LookAheadDecision(cfg, h, p); }
  }
}
