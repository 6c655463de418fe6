/** Main results about every run of the star: no protocol error, no deadlock, agreement, termination. */
module StarTheorems {
  import opened Scheme
  import opened Choreography
  import opened Lockstep
  import opened Turns
  import opened Star
  import opened StarSafety
  import opened StarSteps
  import opened StarLiveness

  // ----- runs -----

  datatype Choice = Choice(who: Who, dt: int)

  datatype Outcome = Reached(s: System) | Impossible

  /** The state after the given steps, taken in any order in which they are possible. */
  function Run(cfg: Config, env: Env, choices: seq<Choice>): Outcome {
    if choices == [] then Reached(Initial(cfg))
    else
      var before := Run(cfg, env, choices[..|choices|-1]);
      var c := choices[|choices|-1];
      if before.Reached? && Sized(cfg, before.s) && Enabled(cfg, env, before.s, c.who, c.dt)
      then Reached(Step(cfg, env, before.s, c.who, c.dt))
      else Impossible
  }

  lemma {:induction false} RunKeeps(cfg: Config, env: Env, choices: seq<Choice>)
    requires ValidConfig(cfg) && Run(cfg, env, choices).Reached?
    ensures SystemInv(cfg, env, Run(cfg, env, choices).s)
  {
    if choices == [] {
      InitialInv(cfg, env);
    } else {
      var front, c := choices[..|choices|-1], choices[|choices|-1];
      RunKeeps(cfg, env, front);
      StepKeeps(cfg, env, Run(cfg, env, front).s, c.who, c.dt);
    }
  }

  // ----- every receive meets a message of the kind it expects -----

  /** The message a receive is made for: the size, verdict or window end of its round, or the initial data. */
  function MadeFor(cfg: Config, env: Env, p: Participant, op: Op): Message
    requires IsReceive(op)
  {
    var k := if p.phase == Look then p.rounds + 1 else p.rounds;
    match op
    case ReceiveSize => Dt(Len(cfg, env, k))
    case ReceiveConvergence => Converged(Done(cfg, env, k))
    case ReceiveData(_) => Data(if p.phase == Init then 0 else EndTime(cfg, env, k))
    case ReceiveAhead => Data(EndTime(cfg, env, k))
  }

  /** In every reachable state the first message of a channel has the kind, the round and the payload
      that the waiting receive is made for, and no assertion of the scheme ever fails. */
  lemma NoProtocolError(cfg: Config, env: Env, choices: seq<Choice>, who: Who)
    requires ValidConfig(cfg) && Run(cfg, env, choices).Reached? && Exists(Run(cfg, env, choices).s, who)
    ensures var s := Run(cfg, env, choices).s;
            var p := Get(s, who);
            && p.status != Failed(Assertion)
            && (p.status.Running? && |p.links| >= 1 && p.phase != Rest && p.pc < |Plan(cfg, p)|
                && IsReceive(Plan(cfg, p)[p.pc]) ==>
                  var op := Plan(cfg, p)[p.pc];
                  && |s.up| == |s.down| && ChannelOf(who, LinkOf(op)) < |s.up|
                  && (Inbox(s, who, LinkOf(op)) != [] ==> Inbox(s, who, LinkOf(op))[0] == MadeFor(cfg, env, p, op)))
  {
    var s := Run(cfg, env, choices).s;
    RunKeeps(cfg, env, choices);
    var p := Get(s, who);
    assert Inv(cfg, env, p);
    if p.status.Running? && p.phase != Rest && p.pc < |Plan(cfg, p)| && IsReceive(Plan(cfg, p)[p.pc]) {
      KindHere(cfg, env, s, who, Plan(cfg, p)[p.pc]);
    }
  }

  lemma KindHere(cfg: Config, env: Env, s: System, who: Who, op: Op)
    requires SystemInv(cfg, env, s) && Exists(s, who) && Acting(cfg, env, Get(s, who), op) && IsReceive(op)
    ensures LinkOf(op) < |Get(s, who).links|
    ensures Inbox(s, who, LinkOf(op)) != [] ==> Inbox(s, who, LinkOf(op))[0] == MadeFor(cfg, env, Get(s, who), op)
  {
    var p := Get(s, who);
    ActingReady(cfg, env, p, op);
    if Inbox(s, who, LinkOf(op)) != [] {
      ReceivesExpected(cfg, env, s, who, op);
      ReceiveStep(cfg, HereAt(cfg, env, p.rounds), p, op);
    }
  }

  // ----- no deadlock -----

  /** A step of the solver that is always legal. */
  function SomeStep(cfg: Config, env: Env, p: Participant): int {
    if cfg.firstSetsSize && !p.hub then Len(cfg, env, p.rounds) else 1
  }

  lemma SomeStepIsLegal(cfg: Config, env: Env, p: Participant)
    requires ValidConfig(cfg) && Inv(cfg, env, p) && p.status.Running? && p.phase == Rest && !Finished(cfg, p)
    ensures LegalStep(cfg, p, SomeStep(cfg, env, p))
    ensures FollowsEnv(cfg, HereAt(cfg, env, p.rounds), p, SomeStep(cfg, env, p))
  {
    HereHolds(cfg, env, p.rounds);
    LegalHere(cfg, HereAt(cfg, env, p.rounds), p, SomeStep(cfg, env, p));
  }

  lemma LegalHere(cfg: Config, h: Here, p: Participant, dt: int)
    requires ValidConfig(cfg) && Facts(cfg, h) && LinksOf(cfg, p.hub, p.links) && StateInv(cfg, h, p) && p.phase == Rest
    requires !Finished(cfg, p)
    requires dt == if cfg.firstSetsSize && !p.hub then h.r.len else 1
    ensures LegalStep(cfg, p, dt)
  {
    OngoingAtRest(cfg, h, p);
  }

  predicate BlockedOn(cfg: Config, env: Env, s: System, who: Who, op: Op) {
    && SystemInv(cfg, env, s) && Exists(s, who) && Acting(cfg, env, Get(s, who), op) && Get(s, who).phase != Rest
    && IsReceive(op) && LinkOf(op) < |Get(s, who).links| && Inbox(s, who, LinkOf(op)) == []
  }

  lemma RestingCanStep(cfg: Config, env: Env, s: System, who: Who)
    requires ValidConfig(cfg) && SystemInv(cfg, env, s) && Exists(s, who) && Get(s, who).status.Running?
    requires Get(s, who).phase == Rest && !Finished(cfg, Get(s, who))
    ensures Enabled(cfg, env, s, who, SomeStep(cfg, env, Get(s, who)))
  {
    assert Inv(cfg, env, Get(s, who));
    SomeStepIsLegal(cfg, env, Get(s, who));
  }

  lemma InvOf(cfg: Config, env: Env, s: System, who: Who)
    requires SystemInv(cfg, env, s) && Exists(s, who)
    ensures Inv(cfg, env, Get(s, who))
  {
    assert who.Spoke? ==> Inv(cfg, env, s.spokes[who.index]);
  }

  lemma OperationOrWait(cfg: Config, env: Env, s: System, who: Who)
    requires ValidConfig(cfg) && SystemInv(cfg, env, s) && Exists(s, who) && Get(s, who).status.Running?
    requires |Get(s, who).links| >= 1 && Get(s, who).phase != Rest && Get(s, who).pc < |Plan(cfg, Get(s, who))|
    ensures var p := Get(s, who);
            Enabled(cfg, env, s, who, SomeStep(cfg, env, p)) || BlockedOn(cfg, env, s, who, Plan(cfg, p)[p.pc])
  {
    var p := Get(s, who);
    var op := Plan(cfg, p)[p.pc];
    InvOf(cfg, env, s, who);
    ActingReady(cfg, env, p, op);
    ChannelExists(cfg, env, s, who, op);
  }

  lemma ChannelExists(cfg: Config, env: Env, s: System, who: Who, op: Op)
    requires SystemInv(cfg, env, s) && Exists(s, who) && |Get(s, who).links| >= 1 && LinkOf(op) < |Get(s, who).links|
    requires Inv(cfg, env, Get(s, who))
    ensures LinkOf(op) < |Get(s, who).logs| && ChannelOf(who, LinkOf(op)) < |s.up| && |s.up| == |s.down|
  {
  }

  /** A running participant is finished, able to step, or waits for an empty channel. */
  lemma ThreeCases(cfg: Config, env: Env, s: System, who: Who) returns (op: Op)
    requires ValidConfig(cfg) && SystemInv(cfg, env, s) && Exists(s, who) && Get(s, who).status.Running?
    ensures var p := Get(s, who);
            Finished(cfg, p) || Enabled(cfg, env, s, who, SomeStep(cfg, env, p)) || BlockedOn(cfg, env, s, who, op)
  {
    var p := Get(s, who);
    op := Notify;
    assert Inv(cfg, env, p);
    if p.phase == Rest {
      if !Finished(cfg, p) { RestingCanStep(cfg, env, s, who); }
    } else if p.pc < |Plan(cfg, p)| {
      op := Plan(cfg, p)[p.pc];
      OperationOrWait(cfg, env, s, who);
    }
  }

  lemma BlockedWaits(cfg: Config, env: Env, s: System, who: Who, op: Op)
    requires BlockedOn(cfg, env, s, who, op) && s.hub.status.Running?
    ensures who.Hub? ==> Waits(cfg, env, s.hub, s.spokes[LinkOf(op)], LinkOf(op), 0, op)
    ensures who.Spoke? ==> Waits(cfg, env, s.spokes[who.index], s.hub, 0, who.index, op)
  {
    var i := if who.Hub? then LinkOf(op) else who.index;
    assert ChannelInv(s.hub.logs[i], s.spokes[i].logs[0], s.up[i], s.down[i]);
    assert Inv(cfg, env, s.hub) && Inv(cfg, env, s.spokes[i]);
  }

  /** A spoke is never blocked while the hub waits for it, and never finished before. */
  lemma SpokeMoves(cfg: Config, env: Env, s: System, op: Op)
    requires BlockedOn(cfg, env, s, Hub, op)
    ensures var i := LinkOf(op);
            Enabled(cfg, env, s, Spoke(i), SomeStep(cfg, env, s.spokes[i]))
  {
    var i := LinkOf(op);
    BlockedWaits(cfg, env, s, Hub, op);
    NotForFinished(cfg, env, s.hub, s.spokes[i], i, 0, op);
    var op' := ThreeCases(cfg, env, s, Spoke(i));
    if BlockedOn(cfg, env, s, Spoke(i), op') {
      BlockedWaits(cfg, env, s, Spoke(i), op');
      NotForEachOther(cfg, env, s.hub, s.spokes[i], i, 0, op, op');
    }
  }

  /** While the hub has finished, every unfinished spoke can step. */
  lemma SpokeCatchesUp(cfg: Config, env: Env, s: System, i: nat)
    requires ValidConfig(cfg) && SystemInv(cfg, env, s) && s.hub.status.Running? && Finished(cfg, s.hub)
    requires i < |s.spokes| && !Finished(cfg, s.spokes[i])
    ensures Enabled(cfg, env, s, Spoke(i), SomeStep(cfg, env, s.spokes[i]))
  {
    var op := ThreeCases(cfg, env, s, Spoke(i));
    if BlockedOn(cfg, env, s, Spoke(i), op) {
      BlockedWaits(cfg, env, s, Spoke(i), op);
      NotForFinished(cfg, env, s.spokes[i], s.hub, 0, i, op);
    }
  }

  /** Unless the hub has stopped with an error or all are finished, some participant can step. */
  lemma NoDeadlock(cfg: Config, env: Env, s: System) returns (who: Who)
    requires ValidConfig(cfg) && SystemInv(cfg, env, s) && s.hub.status.Running? && !AllFinished(cfg, s)
    ensures Exists(s, who) && Enabled(cfg, env, s, who, SomeStep(cfg, env, Get(s, who)))
  {
    who := Hub;
    if Finished(cfg, s.hub) {
      var i: nat :| i < |s.spokes| && !Finished(cfg, s.spokes[i]);
      who := Spoke(i);
      SpokeCatchesUp(cfg, env, s, i);
    } else {
      var op := ThreeCases(cfg, env, s, Hub);
      if BlockedOn(cfg, env, s, Hub, op) {
        who := Spoke(LinkOf(op));
        SpokeMoves(cfg, env, s, op);
      }
    }
  }

  /** Deadlock freedom over whole runs. */
  lemma DeadlockFree(cfg: Config, env: Env, choices: seq<Choice>)
    requires ValidConfig(cfg) && Run(cfg, env, choices).Reached?
    ensures var s := Run(cfg, env, choices).s;
            s.hub.status.Failed? || AllFinished(cfg, s) || exists c: Choice :: Run(cfg, env, choices + [c]).Reached?
  {
    var s := Run(cfg, env, choices).s;
    RunKeeps(cfg, env, choices);
    if s.hub.status.Running? && !AllFinished(cfg, s) {
      var who := NoDeadlock(cfg, env, s);
      var c := Choice(who, SomeStep(cfg, env, Get(s, who)));
      assert (choices + [c])[..|choices|] == choices;
      assert Run(cfg, env, choices + [c]).Reached?;
    }
  }

  // ----- the end -----

  /** When all have finished, they have done so after the same round and the channels are empty. */
  lemma QuietEnd(cfg: Config, env: Env, s: System)
    requires ValidConfig(cfg) && SystemInv(cfg, env, s) && s.hub.status.Running? && AllFinished(cfg, s)
    ensures forall i: nat :: i < |s.spokes| ==> s.up[i] == [] && s.down[i] == [] && s.spokes[i].rounds == s.hub.rounds
  {
    forall i: nat | i < |s.spokes| ensures s.up[i] == [] && s.down[i] == [] && s.spokes[i].rounds == s.hub.rounds {
      assert Inv(cfg, env, s.spokes[i]) && ChannelInv(s.hub.logs[i], s.spokes[i].logs[0], s.up[i], s.down[i]);
      FinishedLog(cfg, env, s.hub, i);
      FinishedLog(cfg, env, s.spokes[i], 0);
      FinishTogether(cfg, env, s.hub, s.spokes[i]);
    }
  }
}
