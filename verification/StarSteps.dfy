/** Every step of the star keeps the invariant of the system, including what is known about errors. */
module StarSteps {
  import opened Scheme
  import opened Choreography
  import opened Places
  import opened Lockstep
  import opened Turns
  import opened Star
  import opened StarSafety

  // ----- what a step leaves alone -----

  lemma TurnFrame(cfg: Config, p: Participant)
    requires p.phase != Rest
    ensures var q := Turn(cfg, p);
            SamePlace(p, q) && q.logs == p.logs && (q.status == p.status || q.status == Failed(Assertion))
  {
  }

  lemma AdvanceFrame(cfg: Config, p: Participant, dt: int)
    ensures var q := Advance(cfg, p, dt); SamePlace(p, q) && q.logs == p.logs && q.status == p.status
  {
  }

  lemma ReceiveFrame(cfg: Config, p: Participant, op: Op, m: Message)
    requires IsReceive(op) && LinkOf(op) < |p.logs| && p.status.Running?
    ensures var q := Receive(cfg, p, op, m);
            && SamePlace(p, q) && q.rounds == p.rounds && q.phase == p.phase
            && (q.status != Failed(Assertion) ==>
                  q.logs == p.logs[LinkOf(op) := p.logs[LinkOf(op)] + [Event(p.hub, m)]])
            && (q.status.Running? || q.status == Failed(Assertion) || op.ReceiveSize?)
  {
  }

  // ----- errors -----

  lemma AdvanceFailures(cfg: Config, env: Env, p: Participant, dt: int)
    requires FailureInv(cfg, env, p) && p.status.Running?
    requires p.phase == Rest
    ensures FailureInv(cfg, env, Advance(cfg, p, dt))
  {
  }

  lemma StayDecided(cfg: Config, h: Here, p: Participant)
    requires ValidConfig(cfg) && Facts(cfg, h) && LinksOf(cfg, p.hub, p.links) && StateInv(cfg, h, p) && p.phase != Rest
    requires !Finishes(cfg, h, p) && p.hub
    requires cfg.kind == Serial && cfg.implicitMode && p.phase == First ==> p.pc > 0
    ensures cfg.implicitMode && Decided(cfg, Turn(cfg, p)) ==> Decided(cfg, p)
  {
  }

  /** Errors are known alike before and after a step that stays in the round. */
  lemma SameRoundFailures(cfg: Config, env: Env, p: Participant, q: Participant)
    requires FailureInv(cfg, env, p) && p.status.Running? && q.status.Running? && q.rounds == p.rounds
    requires cfg.implicitMode && Decided(cfg, q) ==> Decided(cfg, p)
    ensures FailureInv(cfg, env, q)
  {
  }

  lemma StayFailures(cfg: Config, env: Env, p: Participant)
    requires ValidConfig(cfg) && Inv(cfg, env, p) && FailureInv(cfg, env, p) && p.status.Running? && p.hub
    requires p.phase != Rest && p.pc == |Plan(cfg, p)| && !Finishes(cfg, HereAt(cfg, env, p.rounds), p)
    ensures FailureInv(cfg, env, Turn(cfg, p))
  {
    RoundFacts(cfg, env, p.links, p.rounds);
    PlanWidths(cfg, p.hub, p.links);
    StayInv(cfg, env, p);
    TurnFrame(cfg, p);
    StayDecided(cfg, HereAt(cfg, env, p.rounds), p);
    SameRoundFailures(cfg, env, p, Turn(cfg, p));
  }

  lemma FinishedDecided(cfg: Config, h: Here, p: Participant)
    requires AtEnd(cfg, h, p) && p.hub
    requires p.phase == Second && cfg.implicitMode && cfg.kind != Serial ==> p.pc > 0
    ensures cfg.implicitMode ==> Decided(cfg, p)
    ensures cfg.firstSetsSize && cfg.implicitMode && !h.r.done ==> h.next.len == h.r.len
  {
  }

  lemma FinishFailures(cfg: Config, env: Env, p: Participant)
    requires ValidConfig(cfg) && Inv(cfg, env, p) && FailureInv(cfg, env, p) && p.status.Running? && p.hub
    requires p.pc == |Plan(cfg, p)| && Finishes(cfg, HereAt(cfg, env, p.rounds), p)
    ensures FailureInv(cfg, env, Turn(cfg, p))
  {
    var h := HereAt(cfg, env, p.rounds);
    RoundFacts(cfg, env, p.links, p.rounds);
    PlanWidths(cfg, p.hub, p.links);
    ReachesEnd(cfg, h, Seen(cfg, env, p.links, p.rounds), p);
    FinishedDecided(cfg, h, p);
    FinishDoesNotFail(cfg, h, p);
    FinishAt(cfg, env, p, p.rounds);
    NextRoundFailures(cfg, env, p, Turn(cfg, p));
  }

  lemma NextRoundFailures(cfg: Config, env: Env, p: Participant, q: Participant)
    requires FailureInv(cfg, env, p) && p.status.Running? && q.status.Running? && q.rounds == p.rounds + 1
    requires q.phase == Rest
    requires cfg.implicitMode ==> Decided(cfg, p)
    requires cfg.firstSetsSize && cfg.implicitMode && !Done(cfg, env, p.rounds) ==>
               Len(cfg, env, p.rounds + 1) == Len(cfg, env, p.rounds)
    ensures FailureInv(cfg, env, q)
  {
  }

  lemma OpDecided(cfg: Config, hub: bool, links: seq<Link>, phase: Phase, pc: nat, op: Op)
    requires |links| >= 1 && Place(cfg, hub, links, phase, pc, op) && hub && cfg.implicitMode && !op.ImplicitStep?
    requires (phase == First && cfg.kind == Serial) || (phase == Second && cfg.kind != Serial)
    ensures pc > 0
  {
  }

  lemma OperationFailures(cfg: Config, env: Env, p: Participant, q: Participant, op: Op)
    requires Acting(cfg, env, p, op) && FailureInv(cfg, env, p) && p.hub && !op.ImplicitStep?
    requires q.hub && q.phase == p.phase && q.rounds == p.rounds && q.status.Running?
    ensures FailureInv(cfg, env, q)
  {
    ActingReady(cfg, env, p, op);
    if cfg.implicitMode && Decided(cfg, q) && !(p.phase == Look) && !(p.phase == Second && cfg.kind == Serial) {
      OpDecided(cfg, p.hub, p.links, p.phase, p.pc, op);
    }
    SameRoundFailures(cfg, env, p, q);
  }

  lemma LocalFailures(cfg: Config, env: Env, p: Participant, op: Op)
    requires Acting(cfg, env, p, op) && FailureInv(cfg, env, p) && p.hub && !IsSend(op) && !IsReceive(op)
    ensures FailureInv(cfg, env, Local(cfg, env, p, op))
  {
    LocalInv(cfg, env, p, op);
    LocalFrame(cfg, env, p, op);
    var q := Local(cfg, env, p, op);
    if op.ImplicitStep? {
      ActingReady(cfg, env, p, op);
    } else {
      OperationFailures(cfg, env, p, q, op);
    }
  }

  lemma ReceiveFailures(cfg: Config, env: Env, p: Participant, op: Op)
    requires Acting(cfg, env, p, op) && FailureInv(cfg, env, p) && p.hub && IsReceive(op) && LinkOf(op) < |p.logs|
    ensures FailureInv(cfg, env, Receive(cfg, p, op, Expected(HereAt(cfg, env, p.rounds), p, op)))
  {
    var h := HereAt(cfg, env, p.rounds);
    ActingReady(cfg, env, p, op);
    ReceiveStep(cfg, h, p, op);
    var q := Receive(cfg, p, op, Expected(h, p, op));
    if RepeatsWithOtherSize(cfg, h, p, op) {
      FailedSize(cfg, env, p, q);
    } else {
      OperationFailures(cfg, env, p, q, op);
    }
  }

  lemma FailedSize(cfg: Config, env: Env, p: Participant, q: Participant)
    requires FailureInv(cfg, env, p) && q.status.Failed? && q.rounds == p.rounds
    requires cfg.implicitMode && cfg.firstSetsSize && !Done(cfg, env, p.rounds)
    requires Len(cfg, env, p.rounds + 1) != Len(cfg, env, p.rounds)
    ensures FailureInv(cfg, env, q)
  {
  }

  // ----- steps of the system -----

  predicate Moving(cfg: Config, env: Env, s: System, who: Who, dt: int) {
    ValidConfig(cfg) && SystemInv(cfg, env, s) && Enabled(cfg, env, s, who, dt)
  }

  lemma LogsUntouched(s: System, t: System, who: Who, q: Participant)
    requires |s.spokes| == |s.up| == |s.down| == |s.hub.logs|
    requires (forall i: nat :: i < |s.spokes| ==> |s.spokes[i].logs| == 1)
    requires Channels(s) && Exists(s, who) && t == Put(s, who, q) && q.logs == Get(s, who).logs
    ensures |t.spokes| == |t.up| == |t.down| == |t.hub.logs|
    ensures (forall i: nat :: i < |t.spokes| ==> |t.spokes[i].logs| == 1)
    ensures Channels(t)
  {
    forall i: nat | i < |t.spokes| ensures ChannelInv(t.hub.logs[i], t.spokes[i].logs[0], t.up[i], t.down[i]) {
      assert ChannelInv(s.hub.logs[i], s.spokes[i].logs[0], s.up[i], s.down[i]);
    }
  }

  /** A step that exchanges no message. */
  lemma SilentStep(cfg: Config, env: Env, s: System, who: Who, q: Participant)
    requires SystemInv(cfg, env, s) && Exists(s, who)
    requires SamePlace(Get(s, who), q) && q.logs == Get(s, who).logs && Inv(cfg, env, q)
    requires if who.Hub? then FailureInv(cfg, env, q) else q.status.Running?
    ensures SystemInv(cfg, env, Put(s, who, q))
  {
    Replaced(cfg, env, s, Put(s, who, q), who, q);
    LogsUntouched(s, Put(s, who, q), who, q);
  }

  lemma AdvanceStep(cfg: Config, env: Env, s: System, who: Who, dt: int)
    requires Moving(cfg, env, s, who, dt) && Get(s, who).phase == Rest
    ensures SystemInv(cfg, env, Step(cfg, env, s, who, dt))
  {
    var p := Get(s, who);
    AdvanceInv(cfg, env, p, dt);
    AdvanceFrame(cfg, p, dt);
    if who.Hub? { AdvanceFailures(cfg, env, p, dt); }
    SilentStep(cfg, env, s, who, Advance(cfg, p, dt));
  }

  lemma TurnStep(cfg: Config, env: Env, s: System, who: Who, dt: int)
    requires Moving(cfg, env, s, who, dt) && Get(s, who).phase != Rest && Get(s, who).pc == |Plan(cfg, Get(s, who))|
    ensures SystemInv(cfg, env, Step(cfg, env, s, who, dt))
  {
    var p := Get(s, who);
    TurnInv(cfg, env, p);
    TurnFrame(cfg, p);
    if who.Hub? {
      if Finishes(cfg, HereAt(cfg, env, p.rounds), p) {
        FinishFailures(cfg, env, p);
      } else {
        StayFailures(cfg, env, p);
      }
    }
    SilentStep(cfg, env, s, who, Turn(cfg, p));
  }

  lemma LocalStepKeeps(cfg: Config, env: Env, s: System, who: Who, dt: int, op: Op)
    requires Moving(cfg, env, s, who, dt) && Get(s, who).phase != Rest && Acting(cfg, env, Get(s, who), op)
    requires !IsSend(op) && !IsReceive(op)
    ensures SystemInv(cfg, env, Step(cfg, env, s, who, dt))
  {
    var p := Get(s, who);
    LocalInv(cfg, env, p, op);
    LocalFrame(cfg, env, p, op);
    if who.Hub? {
      LocalFailures(cfg, env, p, op);
    } else {
      ActingReady(cfg, env, p, op);
    }
    SilentStep(cfg, env, s, who, Local(cfg, env, p, op));
  }

  /** The channels after a message was appended at one end. */
  lemma SentChannels(s: System, who: Who, q: Participant, link: nat, m: Message)
    requires |s.spokes| == |s.up| == |s.down| == |s.hub.logs|
    requires (forall i: nat :: i < |s.spokes| ==> |s.spokes[i].logs| == 1)
    requires Channels(s) && Exists(s, who) && link < |Get(s, who).logs| && ChannelOf(who, link) < |s.up|
    requires q.logs == Get(s, who).logs[link := Get(s, who).logs[link] + [Event(who.Spoke?, m)]]
    ensures var t := Sent(Put(s, who, q), who, link, m);
            && |t.spokes| == |t.up| == |t.down| == |t.hub.logs|
            && (forall i: nat :: i < |t.spokes| ==> |t.spokes[i].logs| == 1) && Channels(t)
  {
    var t := Sent(Put(s, who, q), who, link, m);
    forall i: nat | i < |t.spokes| ensures ChannelInv(t.hub.logs[i], t.spokes[i].logs[0], t.up[i], t.down[i]) {
      assert ChannelInv(s.hub.logs[i], s.spokes[i].logs[0], s.up[i], s.down[i]);
      if i == ChannelOf(who, link) { Exchanged(s.hub.logs[i], s.spokes[i].logs[0], s.up[i], s.down[i], m); }
    }
  }

  lemma TakenChannels(s: System, who: Who, q: Participant, link: nat, m: Message)
    requires |s.spokes| == |s.up| == |s.down| == |s.hub.logs|
    requires (forall i: nat :: i < |s.spokes| ==> |s.spokes[i].logs| == 1)
    requires Channels(s) && Exists(s, who) && link < |Get(s, who).logs| && ChannelOf(who, link) < |s.up|
    requires Inbox(s, who, link) != [] && Inbox(s, who, link)[0] == m
    requires q.logs == Get(s, who).logs[link := Get(s, who).logs[link] + [Event(who.Hub?, m)]]
    ensures var t := Taken(Put(s, who, q), who, link);
            && |t.spokes| == |t.up| == |t.down| == |t.hub.logs|
            && (forall i: nat :: i < |t.spokes| ==> |t.spokes[i].logs| == 1) && Channels(t)
  {
    var t := Taken(Put(s, who, q), who, link);
    forall i: nat | i < |t.spokes| ensures ChannelInv(t.hub.logs[i], t.spokes[i].logs[0], t.up[i], t.down[i]) {
      assert ChannelInv(s.hub.logs[i], s.spokes[i].logs[0], s.up[i], s.down[i]);
      if i == ChannelOf(who, link) { Exchanged(s.hub.logs[i], s.spokes[i].logs[0], s.up[i], s.down[i], m); }
    }
  }

  lemma SendStepKeeps(cfg: Config, env: Env, s: System, who: Who, dt: int, op: Op)
    requires Moving(cfg, env, s, who, dt) && Get(s, who).phase != Rest && Acting(cfg, env, Get(s, who), op)
    requires IsSend(op)
    ensures SystemInv(cfg, env, Step(cfg, env, s, who, dt))
  {
    var p := Get(s, who);
    var q := Send(p, op);
    SendInv(cfg, env, p, op);
    if who.Hub? { OperationFailures(cfg, env, p, q, op); }
    var t := Sent(Put(s, who, q), who, LinkOf(op), Outgoing(p, op));
    SentChannels(s, who, q, LinkOf(op), Outgoing(p, op));
    Replaced(cfg, env, s, t, who, q);
  }

  lemma ReceiveStepKeeps(cfg: Config, env: Env, s: System, who: Who, dt: int, op: Op)
    requires Moving(cfg, env, s, who, dt) && Get(s, who).phase != Rest && Acting(cfg, env, Get(s, who), op)
    requires IsReceive(op)
    ensures SystemInv(cfg, env, Step(cfg, env, s, who, dt))
  {
    var m := Inbox(s, who, LinkOf(op))[0];
    var q := Receive(cfg, Get(s, who), op, m);
    ReceivesExpected(cfg, env, s, who, op);
    ReceivedHere(cfg, env, Get(s, who), op, m);
    if who.Hub? { ReceiveFailures(cfg, env, s.hub, op); }
    TakenKeeps(cfg, env, s, who, q, LinkOf(op), m);
  }

  /** A participant that has taken a message. */
  lemma TakenKeeps(cfg: Config, env: Env, s: System, who: Who, q: Participant, link: nat, m: Message)
    requires SystemInv(cfg, env, s) && Exists(s, who) && link < |Get(s, who).logs| && ChannelOf(who, link) < |s.up|
    requires Inbox(s, who, link) != [] && Inbox(s, who, link)[0] == m && SamePlace(Get(s, who), q) && Inv(cfg, env, q)
    requires q.logs == Get(s, who).logs[link := Get(s, who).logs[link] + [Event(who.Hub?, m)]]
    requires if who.Hub? then FailureInv(cfg, env, q) else q.status.Running?
    ensures SystemInv(cfg, env, Taken(Put(s, who, q), who, link))
  {
    TakenChannels(s, who, q, link, m);
    Replaced(cfg, env, s, Taken(Put(s, who, q), who, link), who, q);
  }

  /** What a receive of the expected message does to the participant. */
  lemma ReceivedHere(cfg: Config, env: Env, p: Participant, op: Op, m: Message)
    requires Acting(cfg, env, p, op) && IsReceive(op) && m == Expected(HereAt(cfg, env, p.rounds), p, op)
    requires LinkOf(op) < |p.links| == |p.logs|
    ensures var q := Receive(cfg, p, op, m);
            && Inv(cfg, env, q) && SamePlace(p, q)
            && q.logs == p.logs[LinkOf(op) := p.logs[LinkOf(op)] + [Event(p.hub, m)]]
            && (!p.hub ==> q.status.Running?)
  {
    ReceiveInv(cfg, env, p, op, m);
    ReceiveFrame(cfg, p, op, m);
    ActingReady(cfg, env, p, op);
  }

  /** Every step keeps the invariant of the system. */
  lemma StepKeeps(cfg: Config, env: Env, s: System, who: Who, dt: int)
    requires Moving(cfg, env, s, who, dt)
    ensures SystemInv(cfg, env, Step(cfg, env, s, who, dt))
  {
    var p := Get(s, who);
    assert Inv(cfg, env, p);
    if p.phase == Rest {
      AdvanceStep(cfg, env, s, who, dt);
    } else if p.pc == |Plan(cfg, p)| {
      TurnStep(cfg, env, s, who, dt);
    } else {
      var op := Plan(cfg, p)[p.pc];
      if IsSend(op) {
        SendStepKeeps(cfg, env, s, who, dt, op);
      } else if IsReceive(op) {
        ReceiveStepKeeps(cfg, env, s, who, dt, op);
      } else {
        LocalStepKeeps(cfg, env, s, who, dt, op);
      }
    }
  }
}
