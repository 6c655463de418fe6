/** Under a fair scheduler every participant completes every round, also when nothing limits the simulation. */
module StarFairness {
  import opened Scheme
  import opened Star
  import opened StarSteps
  import opened StarTheorems
  import opened StarWork
  import opened StarProgress

  /** A scheduler offers a step at every moment, depending on the state; an offer that is not possible changes
      nothing. */
  function At(cfg: Config, env: Env, offers: (nat, System) -> Choice, n: nat): System {
    if n == 0 then Initial(cfg)
    else
      var s := At(cfg, env, offers, n - 1);
      Offered(cfg, env, s, offers(n - 1, s))
  }

  function Offered(cfg: Config, env: Env, s: System, c: Choice): System {
    if Sized(cfg, s) && Enabled(cfg, env, s, c.who, c.dt) then Step(cfg, env, s, c.who, c.dt) else s
  }

  lemma {:induction false} AtKeeps(cfg: Config, env: Env, offers: (nat, System) -> Choice, n: nat)
    requires ValidConfig(cfg)
    ensures SystemInv(cfg, env, At(cfg, env, offers, n))
  {
    if n == 0 {
      InitialInv(cfg, env);
    } else {
      AtKeeps(cfg, env, offers, n - 1);
      var s := At(cfg, env, offers, n - 1);
      var c := offers(n - 1, s);
      if Enabled(cfg, env, s, c.who, c.dt) { StepKeeps(cfg, env, s, c.who, c.dt); }
    }
  }

  /** At moment `m` the participant gets its turn: if it can step, what it is offered is a possible step. */
  ghost predicate GetsTurn(cfg: Config, env: Env, offers: (nat, System) -> Choice, who: Who, m: nat) {
    var s := At(cfg, env, offers, m);
    offers(m, s).who == who
    && (Sized(cfg, s) && (exists dt :: Enabled(cfg, env, s, who, dt)) ==> Enabled(cfg, env, s, who, offers(m, s).dt))
  }

  ghost predicate GetsTurnAfter(cfg: Config, env: Env, offers: (nat, System) -> Choice, who: Who, n: nat) {
    exists m: nat :: n <= m && GetsTurn(cfg, env, offers, who, m)
  }

  /** Every participant gets its turn again and again. */
  ghost predicate Fair(cfg: Config, env: Env, offers: (nat, System) -> Choice) {
    forall who: Who, n: nat :: (who.Spoke? ==> who.index < |cfg.links|) ==> GetsTurnAfter(cfg, env, offers, who, n)
  }

  // ----- what can step stays able to step -----

  lemma TakesNothingAway(s: System, t: System, who: Who, other: Who, link: nat, l: nat, q: Participant)
    requires |s.spokes| == |s.up| == |s.down| && Exists(s, who) && Exists(s, other) && who != other
    requires ChannelOf(who, link) < |s.up| && ChannelOf(other, l) < |s.up|
    requires Inbox(s, who, link) != [] && Inbox(s, other, l) != [] && t == Taken(Put(s, other, q), other, l)
    ensures |t.up| == |s.up| == |t.down| && Inbox(t, who, link) == Inbox(s, who, link)
  {
  }

  lemma SendsTakeNothing(s: System, t: System, who: Who, other: Who, link: nat, l: nat, q: Participant, m: Message)
    requires |s.spokes| == |s.up| == |s.down| && Exists(s, who) && Exists(s, other) && who != other
    requires ChannelOf(who, link) < |s.up| && ChannelOf(other, l) < |s.up|
    requires Inbox(s, who, link) != [] && t == Sent(Put(s, other, q), other, l, m)
    ensures |t.up| == |s.up| == |t.down| && Inbox(t, who, link) != []
  {
  }

  lemma StepLeavesMessages(cfg: Config, env: Env, s: System, other: Who, dt: int, who: Who, link: nat)
    requires Sized(cfg, s) && Enabled(cfg, env, s, other, dt) && Exists(s, who) && who != other
    requires ChannelOf(who, link) < |s.up| && Inbox(s, who, link) != []
    ensures var t := Step(cfg, env, s, other, dt);
            |t.up| == |s.up| == |t.down| && Inbox(t, who, link) != []
  {
    var p := Get(s, other);
    if p.phase != Rest && p.pc < |Plan(cfg, p)| {
      var op := Plan(cfg, p)[p.pc];
      if IsSend(op) {
        SendsTakeNothing(s, Step(cfg, env, s, other, dt), who, other, link, LinkOf(op), Send(p, op), Outgoing(p, op));
      } else if IsReceive(op) {
        TakesNothingAway(s, Step(cfg, env, s, other, dt), who, other, link, LinkOf(op),
                         Receive(cfg, p, op, Inbox(s, other, LinkOf(op))[0]));
      }
    }
  }

  lemma StepLeavesOthers(cfg: Config, env: Env, s: System, other: Who, dt: int, who: Who)
    requires Sized(cfg, s) && Enabled(cfg, env, s, other, dt) && Exists(s, who) && who != other
    ensures var t := Step(cfg, env, s, other, dt);
            Sized(cfg, t) && Exists(t, who) && Get(t, who) == Get(s, who)
  {
  }

  /** The steps of others never take a possible step away. */
  lemma StaysEnabled(cfg: Config, env: Env, s: System, other: Who, dt': int, who: Who, dt: int)
    requires Sized(cfg, s) && Enabled(cfg, env, s, other, dt') && Enabled(cfg, env, s, who, dt) && who != other
    ensures var t := Step(cfg, env, s, other, dt');
            Sized(cfg, t) && Enabled(cfg, env, t, who, dt) && Get(t, who) == Get(s, who)
  {
    StepLeavesOthers(cfg, env, s, other, dt', who);
    var p := Get(s, who);
    if p.phase != Rest && p.pc < |Plan(cfg, p)| && IsReceive(Plan(cfg, p)[p.pc]) {
      StepLeavesMessages(cfg, env, s, other, dt', who, LinkOf(Plan(cfg, p)[p.pc]));
    }
  }

  // ----- one turn -----

  /** What is left to do at moment `n`. */
  function WorkAt(cfg: Config, env: Env, g: Goal, offers: (nat, System) -> Choice, n: nat): Work
    requires ValidConfig(cfg)
  {
    AtKeeps(cfg, env, offers, n);
    SystemWork(cfg, env, g, At(cfg, env, offers, n))
  }

  /** At moment `n` the participant is behind and can step. */
  ghost predicate MayStep(cfg: Config, env: Env, g: Goal, offers: (nat, System) -> Choice, n: nat, who: Who, dt: int) {
    var s := At(cfg, env, offers, n);
    Sized(cfg, s) && Enabled(cfg, env, s, who, dt) && Behind(g, Get(s, who))
  }

  lemma OfferTaken(cfg: Config, env: Env, g: Goal, offers: (nat, System) -> Choice, n: nat)
    requires ValidConfig(cfg)
    requires var s := At(cfg, env, offers, n);
             var c := offers(n, s);
             Sized(cfg, s) && Enabled(cfg, env, s, c.who, c.dt)
    ensures var s := At(cfg, env, offers, n);
            var c := offers(n, s);
            if Behind(g, Get(s, c.who)) then Less(WorkAt(cfg, env, g, offers, n + 1), WorkAt(cfg, env, g, offers, n))
            else WorkAt(cfg, env, g, offers, n + 1) == WorkAt(cfg, env, g, offers, n)
  {
    AtKeeps(cfg, env, offers, n);
    var s := At(cfg, env, offers, n);
    EveryStepWorks(cfg, env, g, s, offers(n, s).who, offers(n, s).dt);
  }

  /** Either there is less to do at the next moment, or the participant may still step and was not offered to. */
  lemma OneOffer(cfg: Config, env: Env, g: Goal, offers: (nat, System) -> Choice, n: nat, who: Who, dt: int)
    requires ValidConfig(cfg) && MayStep(cfg, env, g, offers, n, who, dt)
    ensures || Less(WorkAt(cfg, env, g, offers, n + 1), WorkAt(cfg, env, g, offers, n))
            || (WorkAt(cfg, env, g, offers, n + 1) == WorkAt(cfg, env, g, offers, n)
                && MayStep(cfg, env, g, offers, n + 1, who, dt) && !GetsTurn(cfg, env, offers, who, n))
  {
    var s := At(cfg, env, offers, n);
    var c := offers(n, s);
    if Enabled(cfg, env, s, c.who, c.dt) {
      OfferTaken(cfg, env, g, offers, n);
      if !Behind(g, Get(s, c.who)) { StaysEnabled(cfg, env, s, c.who, c.dt, who, dt); }
    }
  }

  /** Until a participant that is behind and can step gets its turn, there is less to do. */
  lemma {:induction false} TurnLowersWork(cfg: Config, env: Env, g: Goal, offers: (nat, System) -> Choice, n: nat,
                                          m: nat,
                                          who: Who, dt: int) returns (l: nat)
    requires ValidConfig(cfg) && n <= m && MayStep(cfg, env, g, offers, n, who, dt)
    requires GetsTurn(cfg, env, offers, who, m)
    ensures Less(WorkAt(cfg, env, g, offers, l), WorkAt(cfg, env, g, offers, n))
    decreases m - n
  {
    OneOffer(cfg, env, g, offers, n, who, dt);
    var before, after := WorkAt(cfg, env, g, offers, n), WorkAt(cfg, env, g, offers, n + 1);
    if Less(after, before) {
      l := n + 1;
    } else {
      assert n != m;
      l := TurnLowersWork(cfg, env, g, offers, n + 1, m, who, dt);
      assert after == before;
    }
  }

  /** While not all have arrived, a fair scheduler sooner or later leaves less to do. */
  lemma FairnessLowersWork(cfg: Config, env: Env, offers: (nat, System) -> Choice, n: nat, start: nat) returns (l: nat)
    requires ValidConfig(cfg) && Fair(cfg, env, offers) && OngoingUpTo(cfg, env, n)
    requires !Arrived(At(cfg, env, offers, start), n)
    ensures Less(WorkAt(cfg, env, GoalFor(n), offers, l), WorkAt(cfg, env, GoalFor(n), offers, start))
  {
    var s := At(cfg, env, offers, start);
    AtKeeps(cfg, env, offers, start);
    var who := SomeoneBehindSteps(cfg, env, s, n);
    assert GetsTurnAfter(cfg, env, offers, who, start);
    var turn: nat :| start <= turn && GetsTurn(cfg, env, offers, who, turn);
    l := TurnLowersWork(cfg, env, GoalFor(n), offers, start, turn, who, SomeStep(cfg, env, Get(s, who)));
  }

  lemma {:induction false} FairFrom(cfg: Config, env: Env, offers: (nat, System) -> Choice, n: nat,
                                    start: nat) returns (m: nat)
    requires ValidConfig(cfg) && Fair(cfg, env, offers) && OngoingUpTo(cfg, env, n)
    ensures Arrived(At(cfg, env, offers, m), n)
    decreases WorkAt(cfg, env, GoalFor(n), offers, start).rounds, WorkAt(cfg, env, GoalFor(n), offers, start).stage,
              WorkAt(cfg, env, GoalFor(n), offers, start).ticks, WorkAt(cfg, env, GoalFor(n), offers, start).ops
  {
    m := start;
    if !Arrived(At(cfg, env, offers, start), n) {
      var l := FairnessLowersWork(cfg, env, offers, n, start);
      m := FairFrom(cfg, env, offers, n, l);
    }
  }

  /** What it means to have arrived when no round but the last may end with an error. */
  lemma ArrivedMeans(cfg: Config, env: Env, s: System, n: nat)
    requires FailureInv(cfg, env, s.hub) && Arrived(s, n)
    requires forall k: nat :: k + 1 < n ==> !BadRound(cfg, env, k)
    ensures if n > 0 && BadRound(cfg, env, n - 1) then s.hub.status.Failed? && s.hub.rounds == n - 1
            else AllReached(s, n)
  {
    if s.hub.status.Failed? && s.hub.rounds < n {
      assert BadRound(cfg, env, s.hub.rounds);
      assert s.hub.rounds + 1 >= n;
    }
  }

  /** Under a fair scheduler all participants complete `n` rounds if that many are ongoing and none of them ends
      with an error, and the hub stops in the first round that does. */
  lemma FairSchedulesArrive(cfg: Config, env: Env, offers: (nat, System) -> Choice, n: nat) returns (m: nat)
    requires ValidConfig(cfg) && Fair(cfg, env, offers) && OngoingUpTo(cfg, env, n)
    requires forall k: nat :: k + 1 < n ==> !BadRound(cfg, env, k)
    ensures var s := At(cfg, env, offers, m);
            if n > 0 && BadRound(cfg, env, n - 1) then s.hub.status.Failed? && s.hub.rounds == n - 1
            else AllReached(s, n)
  {
    m := FairFrom(cfg, env, offers, n, 0);
    AtKeeps(cfg, env, offers, m);
    ArrivedMeans(cfg, env, At(cfg, env, offers, m), n);
  }

  // ----- a fair scheduler -----

  /** The hub and the spokes in turn. */
  function WhoseTurn(cfg: Config, n: nat): Who {
    if n == 0 then Hub
    else
      var i := Seat(WhoseTurn(cfg, n - 1));
      if i < |cfg.links| then Spoke(i) else Hub
  }

  function Seat(who: Who): nat { if who.Hub? then 0 else who.index + 1 }

  function OfferTo(cfg: Config, env: Env, s: System, who: Who): Choice {
    Choice(who, if Exists(s, who) then SomeStep(cfg, env, Get(s, who)) else 0)
  }

  /** The scheduler that lets all take turns. */
  function RoundRobin(cfg: Config, env: Env): (nat, System) -> Choice {
    (n: nat, s: System) => OfferTo(cfg, env, s, WhoseTurn(cfg, n))
  }

  lemma {:induction false} SeatsExist(cfg: Config, n: nat)
    ensures Seat(WhoseTurn(cfg, n)) <= |cfg.links|
  {
    if n > 0 { SeatsExist(cfg, n - 1); }
  }

  lemma {:induction false} TurnComes(cfg: Config, who: Who, n: nat) returns (m: nat)
    requires who.Spoke? ==> who.index < |cfg.links|
    ensures n <= m && WhoseTurn(cfg, m) == who
    decreases var a, i := Seat(WhoseTurn(cfg, n)), Seat(who); if a <= i then i - a else |cfg.links| + 1 - a + i
  {
    m := n;
    if WhoseTurn(cfg, n) != who {
      SeatsExist(cfg, n);
      m := TurnComes(cfg, who, n + 1);
    }
  }

  /** The step that is offered is possible if any is. */
  lemma OfferIsPossible(cfg: Config, env: Env, s: System, who: Who, dt: int)
    requires ValidConfig(cfg) && SystemInv(cfg, env, s) && Enabled(cfg, env, s, who, dt)
    ensures Enabled(cfg, env, s, who, OfferTo(cfg, env, s, who).dt)
  {
    var p := Get(s, who);
    InvOf(cfg, env, s, who);
    if p.phase == Rest { SomeStepIsLegal(cfg, env, p); }
  }

  lemma RoundRobinIsFair(cfg: Config, env: Env)
    requires ValidConfig(cfg)
    ensures Fair(cfg, env, RoundRobin(cfg, env))
  {
    var offers := RoundRobin(cfg, env);
    forall who: Who, n: nat | who.Spoke? ==> who.index < |cfg.links| ensures GetsTurnAfter(cfg, env, offers, who, n) {
      var m := TurnComes(cfg, who, n);
      AtKeeps(cfg, env, offers, m);
      var s := At(cfg, env, offers, m);
      if dt :| Enabled(cfg, env, s, who, dt) { OfferIsPossible(cfg, env, s, who, dt); }
      assert GetsTurn(cfg, env, offers, who, m);
    }
  }
}
