/** The calls of the coupling scheme, made by one participant, are consecutive steps of the star. */
module CallsInStar {
  import opened Scheme
  import opened Star
  import opened StarSteps
  import opened StarTheorems
  import opened Execution
  import opened ExecutionInStar

  /** A participant at the beginning of an exchange. */
  predicate Begins(cfg: Config, s: System, who: Who) {
    && ValidConfig(cfg) && Wired(cfg, s) && Exists(s, who)
    && Get(s, who).status.Running? && Get(s, who).phase != Rest && Get(s, who).pc == 0
  }

  lemma BeginsInPlan(cfg: Config, s: System, who: Who)
    requires Begins(cfg, s, who)
    ensures |Get(s, who).links| >= 1 && InPlan(cfg, IOof(s, who))
  {
    var p := Get(s, who);
    BlocksUseLinks(cfg, p.phase, p.hub, p.links);
    OpsWithinLinks(BlockFor(cfg, p.phase, p.hub, p.links), |p.links|);
  }

  lemma WholePlan(ops: seq<Op>)
    ensures ops[0..] == ops
  {
  }

  lemma ExchangeIsRest(cfg: Config, env: Env, io: IO)
    requires InPlan(cfg, io) && io.p.pc == 0
    ensures Exchange(cfg, env, io) == RestOf(cfg, env, io.p, io)
  {
    BlocksUseLinks(cfg, io.p.phase, io.p.hub, io.p.links);
    BlockIsAllOps(cfg, env, BlockFor(cfg, io.p.phase, io.p.hub, io.p.links), io);
    WholePlan(Plan(cfg, io.p));
  }

  /** Executing the exchange of a phase is taking the steps of its plan. */
  lemma ExchangeIsSteps(cfg: Config, env: Env, s: System, who: Who) returns (n: nat, t: System)
    requires Begins(cfg, s, who)
    ensures Connected(IOof(s, who)) && |Get(s, who).links| >= 1 && Wired(cfg, t)
    ensures Performs(cfg, env, s, who, Exchange(cfg, env, IOof(s, who)), |Plan(cfg, Get(s, who))|, n, t)
  {
    BeginsInPlan(cfg, s, who);
    ExchangeIsRest(cfg, env, IOof(s, who));
    n, t := PlanIsSteps(cfg, env, s, who);
  }

  /** The decision at the end of a plan is one step. */
  lemma TurnIsStep(cfg: Config, env: Env, s: System, who: Who) returns (t: System)
    requires Wired(cfg, s) && Exists(s, who) && Get(s, who).status.Running? && Get(s, who).phase != Rest
    requires |Get(s, who).links| >= 1 && Get(s, who).pc == |Plan(cfg, Get(s, who))|
    ensures Alone(cfg, env, s, who, 1) == Reached(t) && Wired(cfg, t) && Exists(t, who)
    ensures IOof(t, who) == IOof(s, who).(p := Turn(cfg, Get(s, who)))
  {
    t := Step(cfg, env, s, who, 0);
    OnceIsAlone(cfg, env, s, who);
    TurnFrame(cfg, Get(s, who));
  }

  /** The exchange of the current phase. */
  function Exchanges(cfg: Config, env: Env, s: System, who: Who): Effect
    requires Exists(s, who) && |s.up| == |s.down| && (who.Spoke? ==> who.index < |s.up|) && Connected(IOof(s, who))
  {
    Exchange(cfg, env, IOof(s, who))
  }

  /** The participant is in `t` after `n` steps, with the state and the channels `io`. */
  predicate GetsTo(cfg: Config, env: Env, s: System, who: Who, n: nat, t: System, io: IO) {
    && Alone(cfg, env, s, who, n) == Reached(t) && Wired(cfg, t) && Exists(t, who)
    && IOof(t, who) == io
  }

  /** The participant alone does what the call does, in some number of steps. */
  ghost predicate DoesAlone(cfg: Config, env: Env, s: System, who: Who, e: Effect) {
    exists n: nat :: Does(cfg, env, s, who, e, n)
  }

  lemma GetsThere(cfg: Config, env: Env, s: System, who: Who, n: nat, t: System, io: IO)
    requires GetsTo(cfg, env, s, who, n, t, io)
    ensures DoesAlone(cfg, env, s, who, Done(io))
  {
    assert Does(cfg, env, s, who, Done(io), n);
  }

  lemma AlreadyThere(cfg: Config, env: Env, s: System, who: Who)
    requires Sized(cfg, s) && Exists(s, who)
    ensures DoesAlone(cfg, env, s, who, Done(IOof(s, who)))
  {
    NoStepNeeded(cfg, env, s, who);
  }

  lemma GetsFurther(cfg: Config, env: Env, s: System, who: Who, n: nat, t: System, m: nat, u: System, io: IO)
    requires Alone(cfg, env, s, who, n) == Reached(t) && GetsTo(cfg, env, t, who, m, u, io)
    ensures GetsTo(cfg, env, s, who, n + m, u, io)
  {
    AloneTwice(cfg, env, s, who, n, m, t);
  }

  lemma DoesFurther(cfg: Config, env: Env, s: System, who: Who, n: nat, t: System, e: Effect)
    requires Alone(cfg, env, s, who, n) == Reached(t) && DoesAlone(cfg, env, t, who, e)
    ensures DoesAlone(cfg, env, s, who, e)
  {
    var m: nat :| Does(cfg, env, t, who, e, m);
    Continued(cfg, env, s, who, n, t, e, m);
  }

  /** An exchange followed by the decision at its end. */
  lemma ExchangeAndTurn(cfg: Config, env: Env, s: System, who: Who) returns (n: nat, t: System)
    requires Begins(cfg, s, who)
    ensures Connected(IOof(s, who))
    ensures var e := Exchanges(cfg, env, s, who);
            if e.Done? && e.io.p.status.Running? then
              e.io.p.phase == Get(s, who).phase
              && GetsTo(cfg, env, s, who, n, t, e.io.(p := Turn(cfg, e.io.p)))
            else DoesAlone(cfg, env, s, who, e)
  {
    n, t := ExchangeIsSteps(cfg, env, s, who);
    var e := Exchanges(cfg, env, s, who);
    if e.Done? && e.io.p.status.Running? {
      var u := TurnIsStep(cfg, env, t, who);
      GetsFurther(cfg, env, s, who, n, t, 1, u, IOof(u, who));
      n, t := n + 1, u;
    }
  }

  /** `initialize` is the initial exchange and the step to the first window. */
  lemma InitializeIsSteps(cfg: Config, env: Env, s: System, who: Who)
    requires Begins(cfg, s, who) && Get(s, who).phase == Init
    ensures Connected(IOof(s, who)) && DoesAlone(cfg, env, s, who, Initialize(cfg, env, IOof(s, who)))
  {
    var n, t := ExchangeAndTurn(cfg, env, s, who);
    var e := Exchanges(cfg, env, s, who);
    if e.Done? && e.io.p.status.Running? {
      TurnsAreCalls(cfg, e.io.p);
      GetsThere(cfg, env, s, who, n, t, e.io.(p := Turn(cfg, e.io.p)));
    }
  }

  /** `firstExchange`, after the time of the solver's step was added, is what follows the step of the solver. */
  lemma FirstExchangeIsSteps(cfg: Config, env: Env, s: System, who: Who, dt: int)
    requires ValidConfig(cfg) && Wired(cfg, s) && Enabled(cfg, env, s, who, dt) && Get(s, who).phase == Rest
    ensures Connected(IOof(s, who))
    ensures var io := IOof(s, who);
            DoesAlone(cfg, env, Step(cfg, env, s, who, dt), who,
                      FirstExchange(cfg, env, io.(p := io.p.(clock := io.p.clock.ProgressBy(dt)))))
  {
    var t := Step(cfg, env, s, who, dt);
    var p := Get(s, who);
    AdvanceFrame(cfg, p, dt);
    AdvanceIsBegin(cfg, p, dt);
    assert IOof(t, who) == IOof(s, who).(p := Advance(cfg, p, dt));
    if Get(t, who).phase == Rest {
      AlreadyThere(cfg, env, t, who);
    } else {
      var n, u := ExchangeIsSteps(cfg, env, t, who);
    }
  }

  // ----- calls from states with the invariant -----

  /** A call that returns leaves the system in its invariant, and no assertion of the scheme has failed in it. */
  lemma CallKeeps(cfg: Config, env: Env, s: System, who: Who, e: Effect) returns (t: System)
    requires ValidConfig(cfg) && SystemInv(cfg, env, s) && DoesAlone(cfg, env, s, who, e)
    ensures SystemInv(cfg, env, t)
    ensures e.Blocks? ==> Waiting(cfg, t, who)
    ensures e.Done? ==> Exists(t, who) && e.io == IOof(t, who) && e.io.p.status != Failed(Assertion)
  {
    var n: nat :| Does(cfg, env, s, who, e, n);
    t := Alone(cfg, env, s, who, n).s;
    AloneKeeps(cfg, env, s, who, n, t);
    if e.Done? { InvOf(cfg, env, t, who); }
  }

  /** A call from a reachable state ends in a reachable state. */
  lemma CallContinues(cfg: Config, env: Env, choices: seq<Choice>, s: System, who: Who, e: Effect)
    returns (more: seq<Choice>)
    requires Run(cfg, env, choices) == Reached(s) && DoesAlone(cfg, env, s, who, e)
    ensures choices <= more && Run(cfg, env, more).Reached?
    ensures e.Done? ==>
              var t := Run(cfg, env, more).s; Sized(cfg, t) && Exists(t, who) && e.io == IOof(t, who)
  {
    var n: nat :| Does(cfg, env, s, who, e, n);
    more := AloneContinues(cfg, env, choices, s, who, n);
  }

  // ----- the second exchange -----

  /** An exchange after which the round is finished. */
  function ExchangeAndFinish(cfg: Config, env: Env, io: IO): Effect
    requires Connected(io)
  {
    var e := Exchange(cfg, env, io);
    if e.Blocks? || e.io.p.status.Failed? then e else Done(e.io.(p := Finish(cfg, e.io.p)))
  }

  lemma FinishingIsSteps(cfg: Config, env: Env, s: System, who: Who)
    requires Begins(cfg, s, who) && Get(s, who).phase == Look
    ensures Connected(IOof(s, who)) && DoesAlone(cfg, env, s, who, ExchangeAndFinish(cfg, env, IOof(s, who)))
  {
    var n, t := ExchangeAndTurn(cfg, env, s, who);
    var e := Exchanges(cfg, env, s, who);
    if e.Done? && e.io.p.status.Running? {
      TurnsAreCalls(cfg, e.io.p);
      GetsThere(cfg, env, s, who, n, t, e.io.(p := Turn(cfg, e.io.p)));
    }
  }

  lemma SecondInParts(cfg: Config, env: Env, io: IO)
    requires Connected(io) && io.p.phase == Second
    ensures var e := Exchange(cfg, env, io);
            SecondAndFinish(cfg, env, io) ==
            if e.Blocks? || e.io.p.status.Failed? then e
            else if WantsMoreData(cfg, e.io.p)
            then ExchangeAndFinish(cfg, env, e.io.(p := e.io.p.(phase := Look, pc := 0)))
            else Done(e.io.(p := Finish(cfg, e.io.p)))
  {
  }

  lemma LookingIsSteps(cfg: Config, env: Env, s: System, who: Who, n: nat, t: System, io: IO)
    requires ValidConfig(cfg) && GetsTo(cfg, env, s, who, n, t, io)
    requires io.p.phase == Look && io.p.pc == 0 && io.p.status.Running?
    ensures Connected(io) && DoesAlone(cfg, env, s, who, ExchangeAndFinish(cfg, env, io))
  {
    FinishingIsSteps(cfg, env, t, who);
    DoesFurther(cfg, env, s, who, n, t, ExchangeAndFinish(cfg, env, io));
  }

  lemma SecondAndFinishIsSteps(cfg: Config, env: Env, s: System, who: Who)
    requires Begins(cfg, s, who) && Get(s, who).phase == Second
    ensures Connected(IOof(s, who)) && DoesAlone(cfg, env, s, who, SecondAndFinish(cfg, env, IOof(s, who)))
  {
    var n, t := ExchangeAndTurn(cfg, env, s, who);
    var e := Exchanges(cfg, env, s, who);
    SecondInParts(cfg, env, IOof(s, who));
    if e.Done? && e.io.p.status.Running? {
      TurnsAreCalls(cfg, e.io.p);
      var io := e.io.(p := Turn(cfg, e.io.p));
      if WantsMoreData(cfg, e.io.p) {
        LookingIsSteps(cfg, env, s, who, n, t, io);
      } else {
        GetsThere(cfg, env, s, who, n, t, io);
      }
    }
  }

  lemma BegunSecondIsSteps(cfg: Config, env: Env, t: System, who: Who, io: IO)
    requires ValidConfig(cfg) && Wired(cfg, t) && Exists(t, who) && Connected(io) && FollowsFirst(cfg, io.p)
    requires IOof(t, who) == io.(p := BeginSecond(cfg, io.p))
    ensures DoesAlone(cfg, env, t, who, SecondExchange(cfg, env, io))
  {
    if Get(t, who).status.Failed? || Get(t, who).phase != Second {
      AlreadyThere(cfg, env, t, who);
    } else {
      SecondAndFinishIsSteps(cfg, env, t, who);
    }
  }

  /** `secondExchange` is the decision about the window end, the second exchange with the look-ahead, and the step
      to the next window or iteration. */
  lemma SecondExchangeIsSteps(cfg: Config, env: Env, s: System, who: Who)
    requires ValidConfig(cfg) && Wired(cfg, s) && Exists(s, who) && Get(s, who).status.Running?
    requires Get(s, who).phase == First
    requires |Get(s, who).links| >= 1 && Get(s, who).pc == |Plan(cfg, Get(s, who))|
    ensures Connected(IOof(s, who)) && DoesAlone(cfg, env, s, who, SecondExchange(cfg, env, IOof(s, who)))
  {
    var t := TurnIsStep(cfg, env, s, who);
    TurnsAreCalls(cfg, Get(s, who));
    BegunSecondIsSteps(cfg, env, t, who, IOof(s, who));
    DoesFurther(cfg, env, s, who, 1, t, SecondExchange(cfg, env, IOof(s, who)));
  }

  /** In the middle of a window `secondExchange` does nothing that the star could notice. */
  lemma SecondExchangeMidWindow(cfg: Config, env: Env, s: System, who: Who)
    requires ValidConfig(cfg) && Wired(cfg, s) && Exists(s, who) && Get(s, who).phase == Rest && Get(s, who).pc == 0
    requires !ReachedEndOfTimeWindow(cfg, Get(s, who)) && !Get(s, who).complete && Get(s, who).required == {}
    ensures Connected(IOof(s, who)) && SecondExchange(cfg, env, IOof(s, who)) == Done(IOof(s, who))
  {
  }
}
