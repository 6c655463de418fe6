/** No reachable state of the star is blocked, and nothing is left in the channels at the end. */
module StarLiveness {
  import opened Scheme
  import opened Choreography
  import opened Lockstep
  import opened Turns
  import opened Star
  import opened StarSafety

  // ----- rounds end once and for all -----

  lemma EndIsFinal(cfg: Config, env: Env, k: nat)
    requires ValidConfig(cfg)
    ensures !Ongoing(cfg, env, k) ==> !Ongoing(cfg, env, k + 1)
  {
    StartIsBounded(cfg, env, k);
  }

  lemma {:induction false} OngoingBefore(cfg: Config, env: Env, j: nat, k: nat)
    requires ValidConfig(cfg) && j <= k && Ongoing(cfg, env, k)
    ensures Ongoing(cfg, env, j)
    decreases k - j
  {
    if j < k {
      EndIsFinal(cfg, env, k - 1);
      OngoingBefore(cfg, env, j, k - 1);
    }
  }

  // ----- who waits and who is finished -----

  predicate Finished(cfg: Config, p: Participant) { p.phase == Rest && !IsCouplingOngoing(cfg, p) }

  predicate AllFinished(cfg: Config, s: System) {
    Finished(cfg, s.hub) && forall i: nat :: i < |s.spokes| ==> Finished(cfg, s.spokes[i])
  }

  lemma FinishedRound(cfg: Config, env: Env, p: Participant)
    requires ValidConfig(cfg) && Inv(cfg, env, p) && p.status.Running? && p.phase == Rest
    ensures IsCouplingOngoing(cfg, p) <==> Ongoing(cfg, env, p.rounds)
  {
    HereHolds(cfg, env, p.rounds);
    OngoingAtRest(cfg, HereAt(cfg, env, p.rounds), p);
  }

  /** A finished participant has seen all messages of its rounds and no others. */
  lemma FinishedLog(cfg: Config, env: Env, p: Participant, link: nat)
    requires ValidConfig(cfg) && Inv(cfg, env, p) && p.status.Running? && Finished(cfg, p) && link < |p.links|
    ensures p.logs[link] == Stream(cfg, env, p.links[link], p.rounds) && !Ongoing(cfg, env, p.rounds)
  {
    FinishedRound(cfg, env, p);
    var h := HereAt(cfg, env, p.rounds);
    EmptyPrefix(cfg, p, link, Current(p.phase, h));
    assert LogInv(cfg, h, Seen(cfg, env, p.links, p.rounds)[link], p, link);
  }

  /** All participants finish after the same round. */
  lemma FinishTogether(cfg: Config, env: Env, p: Participant, q: Participant)
    requires ValidConfig(cfg) && Inv(cfg, env, p) && Inv(cfg, env, q)
    requires !Ongoing(cfg, env, p.rounds) && !Ongoing(cfg, env, q.rounds)
    ensures p.rounds == q.rounds
  {
    if p.rounds < q.rounds {
      OngoingBefore(cfg, env, p.rounds, q.rounds - 1);
    } else if q.rounds < p.rounds {
      OngoingBefore(cfg, env, q.rounds, p.rounds - 1);
    }
  }

  // ----- how far a waiting participant looks -----

  /** The round up to which the messages of the current plan belong. */
  function Horizon(p: Participant): nat { if p.phase == Look then p.rounds + 2 else p.rounds + 1 }

  lemma HorizonOngoing(cfg: Config, env: Env, p: Participant)
    requires ValidConfig(cfg) && Inv(cfg, env, p) && p.status.Running? && p.phase != Rest
    ensures Ongoing(cfg, env, Horizon(p) - 1)
  {
    HereHolds(cfg, env, p.rounds);
  }

  lemma SeenWithinOne(cfg: Config, hub: bool, phase: Phase, link: Link, h: Here, seen: seq<Event>)
    requires phase == Init ==> seen == InitialEvents(cfg, link)
    requires phase != Look
    ensures Before(cfg, hub, phase, link, h, seen) + Duty(cfg, hub, phase, link, Current(phase, h))
         <= seen + UpEvents(cfg, link, h.r) + DownEvents(cfg, link, h.r)
  {
    var u, d := UpEvents(cfg, link, h.r), DownEvents(cfg, link, h.r);
    Within(seen, u, d, [], []);
    assert seen + u + d + [] + [] == seen + u + d;
    match phase
    case Init => assert [] + (seen + u) == seen + u && [] + (seen + []) == seen;
    case Rest => assert (seen + u) + [] == seen + u && seen + [] == seen;
    case First =>
    case Second => assert (seen + u + d) + [] == seen + u + d;
  }

  lemma NextWithinHorizon(cfg: Config, env: Env, p: Participant, op: Op)
    requires Acting(cfg, env, p, op) && IsReceive(op)
    ensures LinkOf(op) < |p.links| == |p.logs|
    ensures p.logs[LinkOf(op)] + [Event(p.hub, Expected(HereAt(cfg, env, p.rounds), p, op))]
         <= Stream(cfg, env, p.links[LinkOf(op)], Horizon(p))
  {
    if p.phase == Look {
      EventBelow(cfg, env, p, op, p.rounds + 2);
    } else {
      ActingReady(cfg, env, p, op);
      NextWithinOne(cfg, env, p, op);
    }
  }

  lemma NextWithinOne(cfg: Config, env: Env, p: Participant, op: Op)
    requires Acting(cfg, env, p, op) && IsReceive(op) && p.phase != Look && LinkOf(op) < |p.links| == |p.logs|
    ensures p.logs[LinkOf(op)] + [Event(p.hub, Expected(HereAt(cfg, env, p.rounds), p, op))]
         <= Stream(cfg, env, p.links[LinkOf(op)], p.rounds + 1)
  {
    var h := HereAt(cfg, env, p.rounds);
    RoundFacts(cfg, env, p.links, p.rounds);
    ActingReady(cfg, env, p, op);
    ReceiveStep(cfg, h, p, op);
    LogWithinOneHere(cfg, h, Seen(cfg, env, p.links, p.rounds)[LinkOf(op)], p, LinkOf(op));
  }

  lemma LogWithinOneHere(cfg: Config, h: Here, seen: seq<Event>, p: Participant, link: nat)
    requires ValidConfig(cfg) && Shape(cfg, p) && link < |p.links| && LogInv(cfg, h, seen, p, link) && p.phase != Look
    requires p.pc < |Plan(cfg, p)|
    requires p.phase == Init ==> seen == InitialEvents(cfg, p.links[link])
    ensures p.logs[link] + EventOf(p.hub, p.phase, link, Current(p.phase, h), Plan(cfg, p)[p.pc])
         <= seen + UpEvents(cfg, p.links[link], h.r) + DownEvents(cfg, p.links[link], h.r)
  {
    var r := Current(p.phase, h);
    SeenWithinOne(cfg, p.hub, p.phase, p.links[link], h, seen);
    PlansPerformProtocol(cfg, p.hub, p.phase, p.links, link, r);
    EventsWithin(p.hub, p.phase, link, r, Plan(cfg, p), p.pc);
    NextIsWithin(p.logs[link], Before(cfg, p.hub, p.phase, p.links[link], h, seen),
                 EventsOf(p.hub, p.phase, link, r, Plan(cfg, p)[..p.pc]),
                 EventOf(p.hub, p.phase, link, r, Plan(cfg, p)[p.pc]), Duty(cfg, p.hub, p.phase, p.links[link], r),
                 seen + UpEvents(cfg, p.links[link], h.r) + DownEvents(cfg, p.links[link], h.r));
  }

  lemma NextIsWithin<T>(log: seq<T>, before: seq<T>, done: seq<T>, x: seq<T>, duty: seq<T>, all: seq<T>)
    requires log == before + done && done + x <= duty && before + duty <= all
    ensures log + x <= all
  {
    assert log + x == before + (done + x);
  }

  // ----- nobody waits for a finished participant or for one that waits in turn -----

  /** The end that waits with an empty channel is not behind the other end. */
  lemma WaiterIsNotBehind(mine: seq<Event>, other: seq<Event>, stream: seq<Event>, e: Event)
    requires mine + [e] <= stream && other <= stream && Side(other, e.up) == Side(mine, e.up)
    ensures |other| <= |mine|
  {
    if |mine| < |other| {
      PrefixesOfOne(mine + [e], other, stream);
      SidePrefix(mine + [e], other, e.up);
      SideSnoc(mine, e, e.up);
    }
  }

  /** `p` waits on link `pl` for the end `ql` of `q` with nothing in the channel. */
  predicate Waits(cfg: Config, env: Env, p: Participant, q: Participant, pl: nat, ql: nat, op: Op) {
    && Acting(cfg, env, p, op) && p.phase != Rest && IsReceive(op) && LinkOf(op) == pl
    && Inv(cfg, env, q) && q.status.Running?
    && pl < |p.links| == |p.logs| && ql < |q.links| == |q.logs| && p.links[pl] == q.links[ql] && p.hub != q.hub
    && Side(q.logs[ql], p.hub) == Side(p.logs[pl], p.hub)
  }

  /** The end that waits with an empty channel is ahead of everything the other end has seen. */
  lemma WaiterIsAhead(mine: seq<Event>, other: seq<Event>, horizon: seq<Event>, e: Event)
    requires mine + [e] <= horizon && Side(other, e.up) == Side(mine, e.up)
    ensures !(horizon <= other)
  {
    if horizon <= other {
      PrefixesOfOne(mine + [e], horizon, other);
      SidePrefix(mine + [e], other, e.up);
      SideSnoc(mine, e, e.up);
    }
  }

  /** A participant that has finished has not completed the round of the awaited message. */
  lemma FinishedEarlier(cfg: Config, env: Env, p: Participant, q: Participant, pl: nat, ql: nat, op: Op)
    requires Waits(cfg, env, p, q, pl, ql, op) && Finished(cfg, q)
    ensures q.rounds < Horizon(p) && !Ongoing(cfg, env, q.rounds)
  {
    FinishedLog(cfg, env, q, ql);
    if q.rounds >= Horizon(p) {
      NextWithinHorizon(cfg, env, p, op);
      StreamGrows(cfg, env, p.links[pl], Horizon(p), q.rounds);
      WaiterIsAhead(p.logs[pl], q.logs[ql], Stream(cfg, env, p.links[pl], Horizon(p)),
                    Event(p.hub, Expected(HereAt(cfg, env, p.rounds), p, op)));
    }
  }

  lemma OngoingUpToHorizon(cfg: Config, env: Env, p: Participant, k: nat)
    requires ValidConfig(cfg) && Inv(cfg, env, p) && p.status.Running? && p.phase != Rest && k < Horizon(p)
    ensures Ongoing(cfg, env, k)
  {
    HorizonOngoing(cfg, env, p);
    OngoingBefore(cfg, env, k, Horizon(p) - 1);
  }

  lemma NotForFinished(cfg: Config, env: Env, p: Participant, q: Participant, pl: nat, ql: nat, op: Op)
    requires Waits(cfg, env, p, q, pl, ql, op)
    ensures !Finished(cfg, q)
  {
    if Finished(cfg, q) {
      FinishedEarlier(cfg, env, p, q, pl, ql, op);
      OngoingUpToHorizon(cfg, env, p, q.rounds);
    }
  }

  lemma NotForEachOther(cfg: Config, env: Env, p: Participant, q: Participant, pl: nat, ql: nat, op: Op, op': Op)
    requires Waits(cfg, env, p, q, pl, ql, op)
    ensures !Waits(cfg, env, q, p, ql, pl, op')
  {
    if Waits(cfg, env, q, p, ql, pl, op') {
      var k := if p.rounds > q.rounds then p.rounds + 2 else q.rounds + 2;
      var e := Event(p.hub, Expected(HereAt(cfg, env, p.rounds), p, op));
      var e' := Event(q.hub, Expected(HereAt(cfg, env, q.rounds), q, op'));
      var stream := Stream(cfg, env, p.links[pl], k);
      EventBelow(cfg, env, p, op, k);
      EventBelow(cfg, env, q, op', k);
      LogBelow(cfg, env, p, pl, k);
      LogBelow(cfg, env, q, ql, k);
      WaiterIsNotBehind(p.logs[pl], q.logs[ql], stream, e);
      WaiterIsNotBehind(q.logs[ql], p.logs[pl], stream, e');
      SameNext(p.logs[pl], q.logs[ql], stream, e, e');
    }
  }

  lemma SameNext(a: seq<Event>, b: seq<Event>, stream: seq<Event>, e: Event, e': Event)
    requires a + [e] <= stream && b + [e'] <= stream && |a| == |b|
    ensures e == e'
  {
    assert e == stream[|a|] && e' == stream[|b|];
  }
}
