/** As long as the rounds go on, some participant that is behind can step; so runs and fair schedules reach them. */
module StarProgress {
  import opened Scheme
  import opened Choreography
  import opened Lockstep
  import opened Star
  import opened StarSafety
  import opened StarLiveness
  import opened StarTheorems
  import opened StarWork

  // ----- nobody waits for a participant that is ahead -----

  lemma SeenBefore(cfg: Config, h: Here, seen: seq<Event>, p: Participant, link: nat)
    requires |p.links| >= 1 && p.pc <= |Plan(cfg, p)| && link < |p.links| == |p.logs|
    requires LogInv(cfg, h, seen, p, link) && p.phase != Init
    ensures seen <= p.logs[link]
  {
  }

  lemma LogAbove(cfg: Config, env: Env, q: Participant, link: nat)
    requires Inv(cfg, env, q) && link < |q.links| && q.phase != Init
    ensures Stream(cfg, env, q.links[link], q.rounds) <= q.logs[link]
  {
    SeenBefore(cfg, HereAt(cfg, env, q.rounds), Seen(cfg, env, q.links, q.rounds)[link], q, link);
  }

  /** A participant with an empty channel waits for one that has not completed the awaited round. */
  lemma AwaitedIsNear(cfg: Config, env: Env, p: Participant, q: Participant, pl: nat, ql: nat, op: Op)
    requires Acting(cfg, env, p, op) && IsReceive(op) && LinkOf(op) == pl && Inv(cfg, env, q)
    requires pl < |p.links| == |p.logs| && ql < |q.links| == |q.logs| && p.links[pl] == q.links[ql]
    requires Side(q.logs[ql], p.hub) == Side(p.logs[pl], p.hub)
    ensures q.rounds < Horizon(p)
  {
    if q.rounds >= Horizon(p) {
      NextWithinHorizon(cfg, env, p, op);
      StreamGrows(cfg, env, p.links[pl], Horizon(p), q.rounds);
      LogAbove(cfg, env, q, ql);
      PrefixOfPrefix(Stream(cfg, env, p.links[pl], Horizon(p)), Stream(cfg, env, p.links[pl], q.rounds), q.logs[ql]);
      WaiterIsAhead(p.logs[pl], q.logs[ql], Stream(cfg, env, p.links[pl], Horizon(p)),
                    Event(p.hub, Expected(HereAt(cfg, env, p.rounds), p, op)));
    }
  }

  lemma PrefixOfPrefix<T>(a: seq<T>, b: seq<T>, c: seq<T>)
    requires a <= b <= c
    ensures a <= c
  {
  }

  lemma SpokeIsNear(cfg: Config, env: Env, s: System, op: Op)
    requires BlockedOn(cfg, env, s, Hub, op)
    ensures LinkOf(op) < |s.spokes| && s.spokes[LinkOf(op)].rounds < Horizon(s.hub)
  {
    var i := LinkOf(op);
    assert ChannelInv(s.hub.logs[i], s.spokes[i].logs[0], s.up[i], s.down[i]);
    InvOf(cfg, env, s, Spoke(i));
    AwaitedIsNear(cfg, env, s.hub, s.spokes[i], i, 0, op);
  }

  lemma HubIsNear(cfg: Config, env: Env, s: System, i: nat, op: Op)
    requires i < |s.spokes| && BlockedOn(cfg, env, s, Spoke(i), op)
    ensures s.hub.rounds <= s.spokes[i].rounds
  {
    assert ChannelInv(s.hub.logs[i], s.spokes[i].logs[0], s.up[i], s.down[i]);
    InvOf(cfg, env, s, Spoke(i));
    InvOf(cfg, env, s, Hub);
    AwaitedIsNear(cfg, env, s.spokes[i], s.hub, 0, i, op);
  }

  // ----- somebody who is behind can step -----

  /** The rounds before `n` are ongoing. */
  predicate OngoingUpTo(cfg: Config, env: Env, n: nat) { forall k: nat :: k < n ==> Ongoing(cfg, env, k) }

  predicate AllReached(s: System, n: nat) {
    s.hub.rounds >= n && forall i: nat :: i < |s.spokes| ==> s.spokes[i].rounds >= n
  }

  /** All have completed `n` rounds, or the hub has stopped with an error in one of them. */
  predicate Arrived(s: System, n: nat) { AllReached(s, n) || (s.hub.status.Failed? && s.hub.rounds < n) }

  /** A spoke may be one round ahead of the hub that waits for it. */
  function GoalFor(n: nat): Goal { Goal(n, n + 1) }

  lemma UnfinishedBefore(cfg: Config, env: Env, p: Participant, n: nat)
    requires ValidConfig(cfg) && Inv(cfg, env, p) && p.status.Running? && p.rounds < n && OngoingUpTo(cfg, env, n)
    ensures !Finished(cfg, p)
  {
    if p.phase == Rest { FinishedRound(cfg, env, p); }
  }

  predicate CanStepBehind(cfg: Config, env: Env, s: System, n: nat, who: Who)
    requires Sized(cfg, s)
  {
    Exists(s, who) && Behind(GoalFor(n), Get(s, who)) && Enabled(cfg, env, s, who, SomeStep(cfg, env, Get(s, who)))
  }

  lemma HubOrItsSpoke(cfg: Config, env: Env, s: System, n: nat) returns (who: Who)
    requires ValidConfig(cfg) && SystemInv(cfg, env, s) && s.hub.status.Running? && s.hub.rounds < n
    requires OngoingUpTo(cfg, env, n)
    ensures CanStepBehind(cfg, env, s, n, who)
  {
    who := Hub;
    UnfinishedBefore(cfg, env, s.hub, n);
    var op := ThreeCases(cfg, env, s, Hub);
    if BlockedOn(cfg, env, s, Hub, op) {
      SpokeIsNear(cfg, env, s, op);
      who := Spoke(LinkOf(op));
      SpokeMoves(cfg, env, s, op);
      assert !s.spokes[LinkOf(op)].hub;
    }
  }

  lemma SpokeBehindHub(cfg: Config, env: Env, s: System, n: nat, i: nat)
    requires ValidConfig(cfg) && SystemInv(cfg, env, s) && s.hub.rounds >= n && OngoingUpTo(cfg, env, n)
    requires i < |s.spokes| && s.spokes[i].rounds < n
    ensures CanStepBehind(cfg, env, s, n, Spoke(i))
  {
    InvOf(cfg, env, s, Spoke(i));
    UnfinishedBefore(cfg, env, s.spokes[i], n);
    var op := ThreeCases(cfg, env, s, Spoke(i));
    if BlockedOn(cfg, env, s, Spoke(i), op) { HubIsNear(cfg, env, s, i, op); }
  }

  lemma SomeoneBehindSteps(cfg: Config, env: Env, s: System, n: nat) returns (who: Who)
    requires ValidConfig(cfg) && SystemInv(cfg, env, s) && OngoingUpTo(cfg, env, n) && !Arrived(s, n)
    ensures CanStepBehind(cfg, env, s, n, who)
  {
    if s.hub.rounds < n {
      who := HubOrItsSpoke(cfg, env, s, n);
    } else {
      var i: nat :| i < |s.spokes| && s.spokes[i].rounds < n;
      who := Spoke(i);
      SpokeBehindHub(cfg, env, s, n, i);
    }
  }

  // ----- every run can be continued to any round -----

  predicate Continues(cfg: Config, env: Env, choices: seq<Choice>, more: seq<Choice>) {
    choices <= more && Run(cfg, env, more).Reached?
  }

  lemma OneMoreStep(cfg: Config, env: Env, choices: seq<Choice>, c: Choice)
    requires ValidConfig(cfg) && Run(cfg, env, choices).Reached? && Sized(cfg, Run(cfg, env, choices).s)
    requires Enabled(cfg, env, Run(cfg, env, choices).s, c.who, c.dt)
    ensures Run(cfg, env, choices + [c]) == Reached(Step(cfg, env, Run(cfg, env, choices).s, c.who, c.dt))
  {
    assert (choices + [c])[..|choices|] == choices;
  }

  /** From every reachable state the participants can go on until all have completed `n` rounds or the hub stops
      with an error, if that many rounds are ongoing. */
  lemma {:induction false} RunsGoOn(cfg: Config, env: Env, choices: seq<Choice>, n: nat) returns (more: seq<Choice>)
    requires ValidConfig(cfg) && Run(cfg, env, choices).Reached? && SystemInv(cfg, env, Run(cfg, env, choices).s)
    requires OngoingUpTo(cfg, env, n)
    ensures Continues(cfg, env, choices, more)
    ensures Arrived(Run(cfg, env, more).s, n)
    decreases SystemWork(cfg, env, GoalFor(n), Run(cfg, env, choices).s).rounds,
              SystemWork(cfg, env, GoalFor(n), Run(cfg, env, choices).s).stage,
              SystemWork(cfg, env, GoalFor(n), Run(cfg, env, choices).s).ticks,
              SystemWork(cfg, env, GoalFor(n), Run(cfg, env, choices).s).ops
  {
    var s := Run(cfg, env, choices).s;
    if Arrived(s, n) {
      more := choices;
    } else {
      var who := SomeoneBehindSteps(cfg, env, s, n);
      var c := Choice(who, SomeStep(cfg, env, Get(s, who)));
      OneMoreStep(cfg, env, choices, c);
      EveryStepWorks(cfg, env, GoalFor(n), s, who, c.dt);
      more := RunsGoOn(cfg, env, choices + [c], n);
      PrefixOfPrefix(choices, choices + [c], more);
    }
  }
}
