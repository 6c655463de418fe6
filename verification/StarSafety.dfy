/** Every step of the star keeps the invariant; in particular every receive meets the message that
    the protocol foresees. */
module StarSafety {
  import opened Scheme
  import opened Choreography
  import opened Lockstep
  import opened Turns
  import opened Star

  // ----- one participant, at a given round -----

  lemma RoundFacts(cfg: Config, env: Env, links: seq<Link>, k: nat)
    requires ValidConfig(cfg)
    ensures Facts(cfg, HereAt(cfg, env, k)) && Follows(cfg, HereAt(cfg, env, k), HereAt(cfg, env, k + 1))
    ensures SeesRound(cfg, HereAt(cfg, env, k), links, Seen(cfg, env, links, k), Seen(cfg, env, links, k + 1))
    ensures k == 0 ==> HereAt(cfg, env, k).s.start == 0
    ensures k == 0 ==> forall link: nat :: link < |links| ==>
              Seen(cfg, env, links, k)[link] == InitialEvents(cfg, links[link])
  {
    HereHolds(cfg, env, k);
    NextFollows(cfg, env, k);
  }

  lemma AtRound(cfg: Config, env: Env, links: seq<Link>, k: nat, q: Participant)
    requires q.rounds == k && q.links == links && (k > 0 ==> Ongoing(cfg, env, k - 1))
    requires InvAt(cfg, HereAt(cfg, env, k), Seen(cfg, env, links, k), q)
    ensures Inv(cfg, env, q)
  {
  }

  predicate Acting(cfg: Config, env: Env, p: Participant, op: Op) {
    ValidConfig(cfg) && Inv(cfg, env, p) && p.status.Running? && p.pc < |Plan(cfg, p)| && op == Plan(cfg, p)[p.pc]
  }

  lemma ActingReady(cfg: Config, env: Env, p: Participant, op: Op)
    requires Acting(cfg, env, p, op)
    ensures Ready(cfg, HereAt(cfg, env, p.rounds), p, op)
  {
    RoundFacts(cfg, env, p.links, p.rounds);
    ReadyHere(cfg, HereAt(cfg, env, p.rounds), Seen(cfg, env, p.links, p.rounds), p);
  }

  lemma SendInv(cfg: Config, env: Env, p: Participant, op: Op)
    requires Acting(cfg, env, p, op) && IsSend(op)
    ensures LinkOf(op) < |p.links| && Inv(cfg, env, Send(p, op))
  {
    ActingReady(cfg, env, p, op);
    SendKeeps(cfg, HereAt(cfg, env, p.rounds), Seen(cfg, env, p.links, p.rounds), p, op);
  }

  lemma ReceiveInv(cfg: Config, env: Env, p: Participant, op: Op, m: Message)
    requires Acting(cfg, env, p, op) && IsReceive(op) && m == Expected(HereAt(cfg, env, p.rounds), p, op)
    ensures LinkOf(op) < |p.links| && Inv(cfg, env, Receive(cfg, p, op, m))
  {
    ActingReady(cfg, env, p, op);
    ReceiveKeeps(cfg, HereAt(cfg, env, p.rounds), Seen(cfg, env, p.links, p.rounds), p, op);
  }

  predicate SamePlace(p: Participant, q: Participant) { q.hub == p.hub && q.links == p.links && |q.logs| == |p.logs| }

  lemma LocalFrame(cfg: Config, env: Env, p: Participant, op: Op)
    requires !IsSend(op) && !IsReceive(op)
    ensures var q := Local(cfg, env, p, op);
            SamePlace(p, q) && q.logs == p.logs && q.rounds == p.rounds && q.phase == p.phase
            && (q.status == p.status || q.status == Failed(Assertion) || op.ImplicitStep?)
  {
  }

  lemma RoundVerdict(cfg: Config, env: Env, k: nat)
    ensures cfg.implicitMode ==>
              HereAt(cfg, env, k).r.done == Verdict(cfg, HereAt(cfg, env, k).s.iterations, Results(cfg, env, k))
  {
  }

  lemma LocalInvAt(cfg: Config, env: Env, p: Participant, op: Op)
    requires Acting(cfg, env, p, op) && !IsSend(op) && !IsReceive(op)
    ensures InvAt(cfg, HereAt(cfg, env, p.rounds), Seen(cfg, env, p.links, p.rounds), Local(cfg, env, p, op))
  {
    RoundVerdict(cfg, env, p.rounds);
    ActingReady(cfg, env, p, op);
    LocalKeeps(cfg, env, HereAt(cfg, env, p.rounds), Seen(cfg, env, p.links, p.rounds), p, op);
  }

  lemma LocalInv(cfg: Config, env: Env, p: Participant, op: Op)
    requires Acting(cfg, env, p, op) && !IsSend(op) && !IsReceive(op)
    ensures Inv(cfg, env, Local(cfg, env, p, op))
  {
    LocalInvAt(cfg, env, p, op);
    LocalFrame(cfg, env, p, op);
    AtRound(cfg, env, p.links, p.rounds, Local(cfg, env, p, op));
  }

  lemma AdvanceInv(cfg: Config, env: Env, p: Participant, dt: int)
    requires ValidConfig(cfg) && Inv(cfg, env, p) && p.status.Running? && p.phase == Rest
    requires IsCouplingOngoing(cfg, p) && LegalStep(cfg, p, dt) && FollowsEnv(cfg, HereAt(cfg, env, p.rounds), p, dt)
    ensures Inv(cfg, env, Advance(cfg, p, dt))
  {
    AdvanceInvAt(cfg, env, p, dt);
    AtRound(cfg, env, p.links, p.rounds, Advance(cfg, p, dt));
  }

  lemma AdvanceInvAt(cfg: Config, env: Env, p: Participant, dt: int)
    requires ValidConfig(cfg) && Inv(cfg, env, p) && p.status.Running? && p.phase == Rest
    requires IsCouplingOngoing(cfg, p) && LegalStep(cfg, p, dt) && FollowsEnv(cfg, HereAt(cfg, env, p.rounds), p, dt)
    ensures Advance(cfg, p, dt).links == p.links && Advance(cfg, p, dt).rounds == p.rounds
    ensures InvAt(cfg, HereAt(cfg, env, p.rounds), Seen(cfg, env, p.links, p.rounds), Advance(cfg, p, dt))
  {
    RoundFacts(cfg, env, p.links, p.rounds);
    AdvanceKeeps(cfg, HereAt(cfg, env, p.rounds), Seen(cfg, env, p.links, p.rounds), p, dt);
  }

  lemma FinishAt(cfg: Config, env: Env, p: Participant, k: nat)
    requires ValidConfig(cfg) && InvAt(cfg, HereAt(cfg, env, k), Seen(cfg, env, p.links, k), p) && p.status.Running?
    requires p.pc == |Plan(cfg, p)|
    requires Finishes(cfg, HereAt(cfg, env, k), p)
    ensures Turn(cfg, p) == Finish(cfg, p) && Finish(cfg, p).rounds == p.rounds + 1
    ensures InvAt(cfg, HereAt(cfg, env, k + 1), Seen(cfg, env, p.links, k + 1), Finish(cfg, p))
  {
    RoundFacts(cfg, env, p.links, k);
    FinishTurnKeeps(cfg, HereAt(cfg, env, k), HereAt(cfg, env, k + 1), Seen(cfg, env, p.links, k),
                    Seen(cfg, env, p.links, k + 1), p);
  }

  lemma FinishInv(cfg: Config, env: Env, p: Participant)
    requires ValidConfig(cfg) && Inv(cfg, env, p) && p.status.Running? && p.pc == |Plan(cfg, p)|
    requires Finishes(cfg, HereAt(cfg, env, p.rounds), p)
    ensures Turn(cfg, p) == Finish(cfg, p) && Inv(cfg, env, Finish(cfg, p)) && Finish(cfg, p).rounds == p.rounds + 1
  {
    FinishAt(cfg, env, p, p.rounds);
    FinishLinks(cfg, HereAt(cfg, env, p.rounds), p);
    AtRound(cfg, env, p.links, p.rounds + 1, Finish(cfg, p));
  }

  lemma StayInv(cfg: Config, env: Env, p: Participant)
    requires ValidConfig(cfg) && Inv(cfg, env, p) && p.status.Running? && p.phase != Rest && p.pc == |Plan(cfg, p)|
    requires !Finishes(cfg, HereAt(cfg, env, p.rounds), p)
    ensures Turn(cfg, p).rounds == p.rounds && Turn(cfg, p).links == p.links
    ensures InvAt(cfg, HereAt(cfg, env, p.rounds), Seen(cfg, env, p.links, p.rounds), Turn(cfg, p))
  {
    RoundFacts(cfg, env, p.links, p.rounds);
    StayTurnRounds(cfg, HereAt(cfg, env, p.rounds), p);
    StayTurnKeeps(cfg, HereAt(cfg, env, p.rounds), Seen(cfg, env, p.links, p.rounds), p);
  }

  lemma TurnInv(cfg: Config, env: Env, p: Participant)
    requires ValidConfig(cfg) && Inv(cfg, env, p) && p.status.Running? && p.phase != Rest && p.pc == |Plan(cfg, p)|
    ensures Inv(cfg, env, Turn(cfg, p))
  {
    if Finishes(cfg, HereAt(cfg, env, p.rounds), p) {
      FinishInv(cfg, env, p);
    } else {
      StayInv(cfg, env, p);
    }
  }

  lemma FinishLinks(cfg: Config, h: Here, p: Participant)
    ensures Finish(cfg, p).links == p.links
  {
  }

  // ----- both ends of a link -----

  /** What a link sees next never leaves the stream of the next two rounds. */
  lemma LogWithin(cfg: Config, env: Env, p: Participant, link: nat)
    requires ValidConfig(cfg) && Inv(cfg, env, p) && link < |p.links|
    ensures p.logs[link] <= Stream(cfg, env, p.links[link], p.rounds + 2)
    ensures p.pc < |Plan(cfg, p)| ==>
              p.logs[link] + EventOf(p.hub, p.phase, link, Current(p.phase, HereAt(cfg, env, p.rounds)),
                                     Plan(cfg, p)[p.pc])
              <= Stream(cfg, env, p.links[link], p.rounds + 2)
  {
    var h := HereAt(cfg, env, p.rounds);
    RoundFacts(cfg, env, p.links, p.rounds);
    LogWithinHere(cfg, h, Stream(cfg, env, p.links[link], p.rounds), p, link);
  }

  lemma LogWithinHere(cfg: Config, h: Here, seen: seq<Event>, p: Participant, link: nat)
    requires ValidConfig(cfg) && Shape(cfg, p) && link < |p.links| && LogInv(cfg, h, seen, p, link)
    requires p.phase == Init ==> seen == InitialEvents(cfg, p.links[link])
    ensures var l := p.links[link];
            var all := seen + UpEvents(cfg, l, h.r) + DownEvents(cfg, l, h.r) + UpEvents(cfg, l, h.next)
                       + DownEvents(cfg, l, h.next);
            && p.logs[link] <= all
            && (p.pc < |Plan(cfg, p)| ==>
                  p.logs[link] + EventOf(p.hub, p.phase, link, Current(p.phase, h), Plan(cfg, p)[p.pc]) <= all)
  {
    var r := Current(p.phase, h);
    SeenWithin(cfg, p.hub, p.phase, p.links[link], h, seen);
    PlansPerformProtocol(cfg, p.hub, p.phase, p.links, link, r);
    PrefixOfPlan(Before(cfg, p.hub, p.phase, p.links[link], h, seen), p, link, r, Plan(cfg, p));
  }

  /** What a link has seen of a plan, and what the next operation adds, begins all events of the plan. */
  lemma PrefixOfPlan(before: seq<Event>, p: Participant, link: nat, r: Round, ops: seq<Op>)
    requires link < |p.logs| && p.pc <= |ops|
    requires p.logs[link] == before + EventsOf(p.hub, p.phase, link, r, ops[..p.pc])
    ensures p.logs[link] <= before + EventsOf(p.hub, p.phase, link, r, ops)
    ensures p.pc < |ops| ==>
              p.logs[link] + EventOf(p.hub, p.phase, link, r, ops[p.pc])
              <= before + EventsOf(p.hub, p.phase, link, r, ops)
  {
    var all := EventsOf(p.hub, p.phase, link, r, ops);
    EventsWithin(p.hub, p.phase, link, r, ops, p.pc);
    Grows(before, EventsOf(p.hub, p.phase, link, r, ops[..p.pc]), all);
    if p.pc < |ops| {
      Grows(before, EventsOf(p.hub, p.phase, link, r, ops[..p.pc + 1]), all);
      Appended(p.logs[link], before, EventsOf(p.hub, p.phase, link, r, ops[..p.pc]),
               EventOf(p.hub, p.phase, link, r, ops[p.pc]));
    }
  }

  lemma Grows<T>(a: seq<T>, b: seq<T>, c: seq<T>)
    requires b <= c
    ensures a + b <= a + c
  {
  }

  lemma EventsWithin(hub: bool, phase: Phase, link: nat, r: Round, ops: seq<Op>, pc: nat)
    requires pc <= |ops|
    ensures EventsOf(hub, phase, link, r, ops[..pc]) <= EventsOf(hub, phase, link, r, ops)
    ensures pc < |ops| ==>
              EventsOf(hub, phase, link, r, ops[..pc + 1])
              == EventsOf(hub, phase, link, r, ops[..pc]) + EventOf(hub, phase, link, r, ops[pc])
              && EventsOf(hub, phase, link, r, ops[..pc + 1]) <= EventsOf(hub, phase, link, r, ops)
  {
    if pc < |ops| {
      FlatMapPrefix((op: Op) => EventOf(hub, phase, link, r, op), ops, pc);
    } else {
      assert ops[..pc] == ops;
    }
  }

  // ----- every receive meets the expected message -----

  lemma LogBelow(cfg: Config, env: Env, q: Participant, link: nat, k: nat)
    requires ValidConfig(cfg) && Inv(cfg, env, q) && link < |q.links| && k >= q.rounds + 2
    ensures q.logs[link] <= Stream(cfg, env, q.links[link], k)
  {
    LogWithin(cfg, env, q, link);
    StreamGrows(cfg, env, q.links[link], q.rounds + 2, k);
  }

  lemma EventBelow(cfg: Config, env: Env, p: Participant, op: Op, k: nat)
    requires Acting(cfg, env, p, op) && IsReceive(op) && k >= p.rounds + 2
    ensures LinkOf(op) < |p.links| == |p.logs|
    ensures p.logs[LinkOf(op)] + [Event(p.hub, Expected(HereAt(cfg, env, p.rounds), p, op))]
         <= Stream(cfg, env, p.links[LinkOf(op)], k)
  {
    ActingReady(cfg, env, p, op);
    ReceiveStep(cfg, HereAt(cfg, env, p.rounds), p, op);
    LogWithin(cfg, env, p, LinkOf(op));
    StreamGrows(cfg, env, p.links[LinkOf(op)], p.rounds + 2, k);
  }

  lemma MeetsExpected(cfg: Config, env: Env, p: Participant, q: Participant, pl: nat, ql: nat, op: Op,
                      inbox: seq<Message>)
    requires Acting(cfg, env, p, op) && IsReceive(op) && pl == LinkOf(op) < |p.links| == |p.logs|
    requires Inv(cfg, env, q) && ql < |q.links| && p.links[pl] == q.links[ql]
    requires Side(q.logs[ql], p.hub) == Side(p.logs[pl], p.hub) + inbox && inbox != []
    ensures inbox[0] == Expected(HereAt(cfg, env, p.rounds), p, op)
  {
    var k := if p.rounds > q.rounds then p.rounds + 2 else q.rounds + 2;
    EventBelow(cfg, env, p, op, k);
    LogBelow(cfg, env, q, ql, k);
    NextMessage(p.logs[pl], q.logs[ql], Stream(cfg, env, p.links[pl], k),
                Event(p.hub, Expected(HereAt(cfg, env, p.rounds), p, op)), inbox);
  }

  /** Every receive of a reachable system meets the message the protocol foresees. */
  lemma ReceivesExpected(cfg: Config, env: Env, s: System, who: Who, op: Op)
    requires SystemInv(cfg, env, s) && Exists(s, who) && Acting(cfg, env, Get(s, who), op) && IsReceive(op)
    requires LinkOf(op) < |Get(s, who).links| && Inbox(s, who, LinkOf(op)) != []
    ensures Inbox(s, who, LinkOf(op))[0] == Expected(HereAt(cfg, env, Get(s, who).rounds), Get(s, who), op)
  {
    var j := LinkOf(op);
    if who.Hub? {
      assert ChannelInv(s.hub.logs[j], s.spokes[j].logs[0], s.up[j], s.down[j]);
      MeetsExpected(cfg, env, s.hub, s.spokes[j], j, 0, op, s.up[j]);
    } else {
      var i := who.index;
      assert ChannelInv(s.hub.logs[i], s.spokes[i].logs[0], s.up[i], s.down[i]);
      MeetsExpected(cfg, env, s.spokes[i], s.hub, 0, i, op, s.down[i]);
    }
  }

  // ----- sending and receiving keep the channels -----

  lemma Exchanged(hubLog: seq<Event>, spokeLog: seq<Event>, up: seq<Message>, down: seq<Message>, m: Message)
    requires ChannelInv(hubLog, spokeLog, up, down)
    ensures ChannelInv(hubLog, spokeLog + [Event(true, m)], up + [m], down)
    ensures ChannelInv(hubLog + [Event(false, m)], spokeLog, up, down + [m])
    ensures up != [] && up[0] == m ==> ChannelInv(hubLog + [Event(true, m)], spokeLog, up[1..], down)
    ensures down != [] && down[0] == m ==> ChannelInv(hubLog, spokeLog + [Event(false, m)], up, down[1..])
  {
    SideSnoc(spokeLog, Event(true, m), true);
    SideSnoc(spokeLog, Event(true, m), false);
    SideSnoc(spokeLog, Event(false, m), true);
    SideSnoc(spokeLog, Event(false, m), false);
    SideSnoc(hubLog, Event(true, m), true);
    SideSnoc(hubLog, Event(true, m), false);
    SideSnoc(hubLog, Event(false, m), true);
    SideSnoc(hubLog, Event(false, m), false);
    if up != [] { assert up == [up[0]] + up[1..]; }
    if down != [] { assert down == [down[0]] + down[1..]; }
  }

  // ----- a step replaces one participant -----

  /** Replacing a participant by one with the same place in the star. */
  lemma Replaced(cfg: Config, env: Env, s: System, t: System, who: Who, q: Participant)
    requires Wired(cfg, s) && Locals(cfg, env, s) && SpokesRun(s) && Exists(s, who)
    requires t.hub == Put(s, who, q).hub && t.spokes == Put(s, who, q).spokes && |t.up| == |s.up|
    requires |t.down| == |s.down|
    requires q.hub == Get(s, who).hub && q.links == Get(s, who).links && Inv(cfg, env, q)
    requires (who.Spoke? ==> q.status.Running?)
    ensures Wired(cfg, t) && Locals(cfg, env, t) && SpokesRun(t)
  {
  }
}
