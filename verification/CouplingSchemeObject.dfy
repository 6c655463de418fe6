/** The coupling scheme object of one participant.  Its methods are proved against the state machine:
    each exchange does exactly what executing its program text does. */
module CouplingSchemeObject {
  import opened Scheme
  import opened Execution

  predicate Runs(cfg: Config, env: Env, b: Block, s: IO, t: IO) {
    Connected(s) && LinksWithin(b, |s.inbox|) && Execute(cfg, env, b, s) == Done(t)
  }

  predicate CanRun(cfg: Config, env: Env, b: Block, s: IO) {
    Connected(s) && LinksWithin(b, |s.inbox|) && Execute(cfg, env, b, s).Done?
  }

  lemma ThreeRun(cfg: Config, env: Env, a: Block, b: Block, c: Block, s: IO, t: IO, u: IO, v: IO)
    requires Runs(cfg, env, a, s, t) && Runs(cfg, env, b, t, u) && Runs(cfg, env, c, u, v)
    requires |t.inbox| == |u.inbox| == |s.inbox|
    ensures Runs(cfg, env, Three(a, b, c), s, v)
  {
  }

  lemma ThreeCanRun(cfg: Config, env: Env, a: Block, b: Block, c: Block, s: IO)
    requires CanRun(cfg, env, Three(a, b, c), s)
    ensures CanRun(cfg, env, a, s)
    ensures var t := Execute(cfg, env, a, s).io;
            CanRun(cfg, env, b, t) && CanRun(cfg, env, c, Execute(cfg, env, b, t).io)
  {
    var t := Execute(cfg, env, a, s).io;
    assert CanRun(cfg, env, Then(b, c), t);
  }

  /** If a loop can run to its end, its next turn can run. */
  lemma {:induction false} NextCanRun(cfg: Config, env: Env, loop: Block, a: Block, c: Block, s: IO, t: IO)
    requires CanRun(cfg, env, loop, s) && Runs(cfg, env, a, s, t) && BeginsWith(loop, Then(a, c))
    ensures CanRun(cfg, env, c, t)
  {
    if loop != Then(a, c) { NextCanRun(cfg, env, loop.first, a, c, s, t); }
  }

  /** What receiving data for the end of the next window amounts to. */
  lemma AheadEffect(cfg: Config, env: Env, io: IO, ahead: int)
    requires Connected(io) && io.p.status.Running? && io.inbox[0] != [] && ahead == LookAheadBy(cfg, io.p, ReceiveAhead)
    ensures var m := io.inbox[0][0];
            var p := io.p;
            ExecuteOp(cfg, env, ReceiveAhead, io) ==
            Done(IO(if m.Data? then p.(logs := p.logs[0 := p.logs[0] + [Event(p.hub, m)]], pc := p.pc + 1,
                                       stamps := p.stamps
                                       + [Stamp(m.sentAt, p.clock.ProgressBy(ahead).Time(), ahead,
                                                RoundOf(p.phase, p.rounds))])
                    else Fail(p, Assertion),
                    io.inbox[0 := io.inbox[0][1..]], io.outbox))
  {
  }

  class CouplingScheme {
    const cfg: Config
    ghost const env: Env
    const isHub: bool
    const links: seq<Link>

    var timeWindows: int
    var iterations: int
    var timeWindowSize: int
    var nextTimeWindowSize: int
    var time: Clock
    var hasConverged: bool
    var isTimeWindowComplete: bool
    var hasDataBeenReceived: bool
    var requiredActions: set<Action>
    var fulfilledActions: set<Action>
    var status: Status

    // messages that have arrived or will arrive, and messages sent, per connection
    var inbox: seq<seq<Message>>
    var outbox: seq<seq<Message>>

    // position in the program and history
    ghost var phase: Phase
    ghost var pc: nat
    ghost var rounds: nat
    ghost var logs: seq<seq<Event>>
    ghost var stamps: seq<Stamp>
    ghost var actions: seq<Required>

    ghost function View(): Participant
      reads this
    {
      Participant(isHub, links, phase, pc, timeWindows, iterations, timeWindowSize, nextTimeWindowSize, time,
                  hasConverged,
                  isTimeWindowComplete, hasDataBeenReceived, requiredActions, status, rounds, logs, stamps, actions)
    }

    ghost function State(): IO
      reads this
    {
      IO(View(), inbox, outbox)
    }

    ghost predicate Valid()
      reads this
    {
      Connected(State())
    }

    constructor (cfg: Config, ghost env: Env, isHub: bool, links: seq<Link>, arriving: seq<seq<Message>>)
      requires |links| == |arriving| >= 1
      ensures Valid() && this.cfg == cfg && this.env == env && this.isHub == isHub && this.links == links
      ensures requiredActions == (if cfg.implicitMode then {WriteCheckpoint} else {}) && fulfilledActions == {}
      ensures State() == IO(Start(cfg, isHub, links), arriving, seq(|links|, _ => []))
    {
      this.cfg, this.env, this.isHub, this.links := cfg, env, isHub, links;
      timeWindows, iterations := 1, 1;
      timeWindowSize, nextTimeWindowSize := cfg.windowSize, cfg.windowSize;
      time := Clock(0, 0);
      hasConverged, isTimeWindowComplete, hasDataBeenReceived := false, false, false;
      requiredActions := if cfg.implicitMode then {WriteCheckpoint} else {};
      fulfilledActions := {};
      status := Running;
      inbox, outbox := arriving, seq(|links|, _ => []);
      phase, pc, rounds := Init, 0, 0;
      logs, stamps := seq(|links|, _ => []), [];
      actions := if cfg.implicitMode then [Required(WriteCheckpoint, 0)] else [];
    }

    // ----- sending and receiving -----

    ghost method Log(link: nat, e: Event)
      requires link < |logs|
      modifies this`logs, this`pc
      ensures logs == old(logs)[link := old(logs)[link] + [e]] && pc == old(pc) + 1
    {
      logs := logs[link := logs[link] + [e]];
      pc := pc + 1;
    }

    method SendTimeWindowSize()
      requires Valid() && status.Running?
      modifies this`timeWindowSize, this`nextTimeWindowSize, this`outbox, this`logs, this`pc
      ensures Valid() && ExecuteOp(cfg, env, Op.SendSize, old(State())) == Done(State())
    {
      timeWindowSize := time.Time() - time.start;
      nextTimeWindowSize := UNDEFINED;
      outbox := outbox[0 := outbox[0] + [Dt(timeWindowSize)]];
      Log(0, Event(!isHub, Dt(timeWindowSize)));
    }

    method SendConvergence(link: nat)
      requires Valid() && status.Running? && link < |links|
      modifies this`outbox, this`logs, this`pc
      ensures Valid() && ExecuteOp(cfg, env, Op.SendConvergence(link), old(State())) == Done(State())
    {
      outbox := outbox[link := outbox[link] + [Converged(hasConverged)]];
      Log(link, Event(!isHub, Converged(hasConverged)));
    }

    method SendData(link: nat)
      requires Valid() && status.Running? && link < |links|
      modifies this`outbox, this`logs, this`pc
      ensures Valid() && ExecuteOp(cfg, env, Op.SendData(link), old(State())) == Done(State())
    {
      outbox := outbox[link := outbox[link] + [Data(time.Time())]];
      Log(link, Event(!isHub, Data(time.Time())));
    }

    method Take(link: nat) returns (m: Message)
      requires Valid() && link < |links| && inbox[link] != []
      modifies this`inbox
      ensures m == old(inbox)[link][0] && inbox == old(inbox)[link := old(inbox)[link][1..]]
    {
      m := inbox[link][0];
      inbox := inbox[link := inbox[link][1..]];
    }

    method ReceiveAndSetTimeWindowSize()
      requires Valid() && status.Running? && inbox[0] != []
      modifies this`nextTimeWindowSize, this`inbox, this`logs, this`pc, this`status
      ensures Valid() && ExecuteOp(cfg, env, Op.ReceiveSize, old(State())) == Done(State())
    {
      var m := Take(0);
      if !m.Dt? || !isHub || m.size == UNDEFINED {
        status := Failed(Assertion);
        return;
      }
      Log(0, Event(isHub, m));
      if timeWindowSize != UNDEFINED && cfg.implicitMode && !hasConverged && m.size != timeWindowSize {
        status := Failed(SizeChanged);
      } else {
        nextTimeWindowSize := m.size;
      }
    }

    method ReceiveConvergence()
      requires Valid() && status.Running? && inbox[0] != []
      modifies this`hasConverged, this`inbox, this`logs, this`pc, this`status
      ensures Valid() && ExecuteOp(cfg, env, Op.ReceiveConvergence, old(State())) == Done(State())
    {
      var m := Take(0);
      if !m.Converged? || isHub {
        status := Failed(Assertion);
        return;
      }
      Log(0, Event(isHub, m));
      hasConverged := m.verdict;
    }

    /** Receives data and stores it under the current time of the clock. */
    method StoreReceived(link: nat, ghost ahead: int)
      requires Valid() && status.Running? && link < |links| && inbox[link] != []
      modifies this`inbox, this`logs, this`pc, this`stamps, this`status
      ensures inbox == old(inbox)[link := old(inbox)[link][1..]]
      ensures var m := old(inbox)[link][0];
              if m.Data? then
                && status == old(status) && pc == old(pc) + 1
                && logs == old(logs)[link := old(logs)[link] + [Event(isHub, m)]]
                && stamps == old(stamps) + [Stamp(m.sentAt, time.Time(), ahead, RoundOf(phase, rounds))]
              else status == Failed(Assertion) && pc == old(pc) && logs == old(logs) && stamps == old(stamps)
    {
      var m := Take(link);
      if !m.Data? {
        status := Failed(Assertion);
        return;
      }
      Log(link, Event(isHub, m));
      stamps := stamps + [Stamp(m.sentAt, time.Time(), ahead, RoundOf(phase, rounds))];
    }

    method ReceiveData(link: nat)
      requires Valid() && status.Running? && link < |links| && inbox[link] != []
      modifies this`inbox, this`logs, this`pc, this`stamps, this`status
      ensures Valid() && ExecuteOp(cfg, env, Op.ReceiveData(link), old(State())) == Done(State())
    {
      StoreReceived(link, 0);
    }

    /** The clock points to the end of the next window while the data is stored, and is restored afterwards. */
    method StoreForWindowEnd()
      requires Valid() && status.Running? && inbox[0] != []
      modifies this`time, this`inbox, this`logs, this`pc, this`stamps, this`status
      ensures time == old(time)
      ensures inbox == old(inbox)[0 := old(inbox)[0][1..]]
      ensures var m := old(inbox)[0][0];
              if m.Data? then
                && status == old(status) && pc == old(pc) + 1
                && logs == old(logs)[0 := old(logs)[0] + [Event(isHub, m)]]
                && stamps == old(stamps)
                   + [Stamp(m.sentAt, time.ProgressBy(nextTimeWindowSize).Time(), nextTimeWindowSize,
                                                  RoundOf(phase, rounds))]
              else status == Failed(Assertion) && pc == old(pc) && logs == old(logs) && stamps == old(stamps)
    {
      var oldTime := time;
      time := time.ProgressBy(nextTimeWindowSize);
      StoreReceived(0, nextTimeWindowSize);
      time := oldTime;
    }

    method ReceiveDataForWindowEnd()
      requires Valid() && status.Running? && inbox[0] != []
      requires !cfg.implicitMode || phase == Init || hasConverged
      modifies this`time, this`inbox, this`logs, this`pc, this`stamps, this`status
      ensures Valid() && ExecuteOp(cfg, env, Op.ReceiveAhead, old(State())) == Done(State())
      ensures time == old(time)
    {
      AheadEffect(cfg, env, State(), nextTimeWindowSize);
      StoreForWindowEnd();
    }

    /** In an iteration that is repeated the data belongs to the end of the same window. */
    method ReceiveDataForRepeatedWindow()
      requires Valid() && status.Running? && inbox[0] != []
      requires cfg.implicitMode && phase != Init && !hasConverged
      modifies this`inbox, this`logs, this`pc, this`stamps, this`status
      ensures Valid() && ExecuteOp(cfg, env, Op.ReceiveAhead, old(State())) == Done(State())
    {
      AheadEffect(cfg, env, State(), 0);
      StoreReceived(0, 0);
    }

    method TakeNextTimeWindowSize()
      requires Valid() && status.Running?
      modifies this`timeWindowSize, this`pc
      ensures Valid() && ExecuteOp(cfg, env, Op.TakeSize, old(State())) == Done(State())
    {
      timeWindowSize := nextTimeWindowSize;
      pc := pc + 1;
    }

    method NotifyDataHasBeenReceived()
      requires Valid() && status.Running?
      modifies this`hasDataBeenReceived, this`pc, this`status
      ensures Valid() && ExecuteOp(cfg, env, Op.Notify, old(State())) == Done(State())
      ensures hasDataBeenReceived
      ensures status == if old(hasDataBeenReceived) then Failed(Assertion) else Running
    {
      if hasDataBeenReceived {
        status := Failed(Assertion);
      } else {
        hasDataBeenReceived := true;
        pc := pc + 1;
      }
    }

    // ----- convergence -----

    /** Evaluates all measures; `strictFailure` reports the error of a strict measure. */
    method MeasureConvergence(results: seq<bool>) returns (verdict: bool, strictFailure: bool)
      requires |results| == |cfg.measures|
      ensures strictFailure
              <==> iterations >= cfg.maxIterations
                   && exists m :: 0 <= m < |results| && cfg.measures[m].strict && !results[m]
      ensures !strictFailure ==>
                (verdict
                 <==> && |results| > 0 && iterations >= cfg.minIterations
                      && ((forall m :: 0 <= m < |results| ==> results[m])
                          || ((exists m :: 0 <= m < |results| && results[m] && cfg.measures[m].suffices)
                              && (forall m :: 0 <= m < |results| && cfg.measures[m].strict ==> results[m]))))
    {
      strictFailure := false;
      if |cfg.measures| == 0 {
        return false, false;
      }
      var allConverged, oneSuffices, oneStrict := true, false, false;
      var reachedMinIterations := iterations >= cfg.minIterations;
      for i := 0 to |results|
        invariant allConverged == forall m :: 0 <= m < i ==> results[m]
        invariant oneSuffices == exists m :: 0 <= m < i && results[m] && cfg.measures[m].suffices
        invariant oneStrict == exists m :: 0 <= m < i && cfg.measures[m].strict && !results[m]
        invariant oneStrict ==> iterations < cfg.maxIterations
      {
        if !results[i] {
          allConverged := false;
          if cfg.measures[i].strict {
            oneStrict := true;
            if iterations >= cfg.maxIterations {
              return false, true;
            }
          }
        } else if cfg.measures[i].suffices {
          oneSuffices := true;
        }
      }
      return reachedMinIterations && (allConverged || (oneSuffices && !oneStrict)), false;
    }

    method DoImplicitStep(results: seq<bool>)
      requires Valid() && status.Running? && results == Results(cfg, env, rounds)
      modifies this`hasConverged, this`pc, this`status
      ensures Valid() && ExecuteOp(cfg, env, Op.ImplicitStep, old(State())) == Done(State())
    {
      var verdict, strictFailure := MeasureConvergence(results);
      if strictFailure {
        status := Failed(StrictMeasure);
        return;
      }
      hasConverged := verdict;
      if iterations == cfg.maxIterations {
        hasConverged := true;
      }
      pc := pc + 1;
    }

    // ----- the same unless not wanted or after an error, which ends the call -----

    method SendSizeIf(wanted: bool)
      requires Valid()
      modifies this`timeWindowSize, this`nextTimeWindowSize, this`outbox, this`logs, this`pc
      ensures Valid() && Execute(cfg, env, When(wanted, Op.SendSize), old(State())) == Done(State())
    {
      if wanted && status.Running? { SendTimeWindowSize(); }
    }

    method SendConvergenceIf(wanted: bool, link: nat)
      requires Valid() && link < |links|
      modifies this`outbox, this`logs, this`pc
      ensures Valid() && Execute(cfg, env, When(wanted, Op.SendConvergence(link)), old(State())) == Done(State())
    {
      if wanted && status.Running? { SendConvergence(link); }
    }

    method SendDataIf(wanted: bool, link: nat)
      requires Valid() && link < |links|
      modifies this`outbox, this`logs, this`pc
      ensures Valid() && Execute(cfg, env, When(wanted, Op.SendData(link)), old(State())) == Done(State())
    {
      if wanted && status.Running? { SendData(link); }
    }

    method ReceiveSizeIf(wanted: bool)
      requires Valid()
      requires CanRun(cfg, env, When(wanted, Op.ReceiveSize), State())
      modifies this`nextTimeWindowSize, this`inbox, this`logs, this`pc, this`status
      ensures Valid() && Execute(cfg, env, When(wanted, Op.ReceiveSize), old(State())) == Done(State())
    {
      if wanted && status.Running? { ReceiveAndSetTimeWindowSize(); }
    }

    method ReceiveConvergenceIf(wanted: bool)
      requires Valid()
      requires CanRun(cfg, env, When(wanted, Op.ReceiveConvergence), State())
      modifies this`hasConverged, this`inbox, this`logs, this`pc, this`status
      ensures Valid() && Execute(cfg, env, When(wanted, Op.ReceiveConvergence), old(State())) == Done(State())
    {
      if wanted && status.Running? { ReceiveConvergence(); }
    }

    method ReceiveDataIf(wanted: bool, link: nat)
      requires Valid() && link < |links|
      requires CanRun(cfg, env, When(wanted, Op.ReceiveData(link)), State())
      modifies this`inbox, this`logs, this`pc, this`stamps, this`status
      ensures Valid() && Execute(cfg, env, When(wanted, Op.ReceiveData(link)), old(State())) == Done(State())
    {
      if wanted && status.Running? { ReceiveData(link); }
    }

    /** Data for the end of the next window, or of the same window when it is repeated. */
    method ReceiveAheadIf(wanted: bool, repeated: bool)
      requires Valid()
      requires CanRun(cfg, env, When(wanted, Op.ReceiveAhead), State())
      requires repeated == (cfg.implicitMode && phase != Init && !hasConverged)
      modifies this`time, this`inbox, this`logs, this`pc, this`stamps, this`status
      ensures Valid() && Execute(cfg, env, When(wanted, Op.ReceiveAhead), old(State())) == Done(State())
      ensures time == old(time)
    {
      if wanted && status.Running? {
        if repeated { ReceiveDataForRepeatedWindow(); } else { ReceiveDataForWindowEnd(); }
      }
    }

    method TakeSizeIf(wanted: bool)
      requires Valid()
      modifies this`timeWindowSize, this`pc
      ensures Valid() && Execute(cfg, env, When(wanted, Op.TakeSize), old(State())) == Done(State())
    {
      if wanted && status.Running? { TakeNextTimeWindowSize(); }
    }

    method NotifyIf(wanted: bool)
      requires Valid()
      modifies this`hasDataBeenReceived, this`pc, this`status
      ensures Valid() && Execute(cfg, env, When(wanted, Op.Notify), old(State())) == Done(State())
    {
      if wanted && status.Running? { NotifyDataHasBeenReceived(); }
    }

    method ImplicitStepIf(wanted: bool, results: seq<bool>)
      requires Valid() && results == Results(cfg, env, rounds)
      modifies this`hasConverged, this`pc, this`status
      ensures Valid() && Execute(cfg, env, When(wanted, Op.ImplicitStep), old(State())) == Done(State())
    {
      if wanted && status.Running? { DoImplicitStep(results); }
    }

    // ----- loops over all partners -----

    method ReceiveFromAll()
      requires Valid()
      requires CanRun(cfg, env, ReceiveAll(links, |links|), State())
      modifies this`inbox, this`logs, this`pc, this`stamps, this`status
      ensures Valid() && Runs(cfg, env, ReceiveAll(links, |links|), old(State()), State())
    {
      LoopsUseLinks(links, |links|);
      for i := 0 to |links|
        invariant Valid() && Runs(cfg, env, ReceiveAll(links, i), old(State()), State())
      {
        LoopsUseLinks(links, i + 1);
        ReceivesBegin(links, i + 1, |links|);
        NextCanRun(cfg, env, ReceiveAll(links, |links|), ReceiveAll(links, i), When(links[i].upData, Op.ReceiveData(i)),
                   old(State()), State());
        ReceiveDataIf(links[i].upData, i);
      }
    }

    method ReceiveInitialFromAll()
      requires Valid()
      requires CanRun(cfg, env, ReceiveInitials(links, |links|), State())
      modifies this`inbox, this`logs, this`pc, this`stamps, this`status
      ensures Valid() && Runs(cfg, env, ReceiveInitials(links, |links|), old(State()), State())
    {
      LoopsUseLinks(links, |links|);
      for i := 0 to |links|
        invariant Valid() && Runs(cfg, env, ReceiveInitials(links, i), old(State()), State())
      {
        LoopsUseLinks(links, i + 1);
        ReceivesBegin(links, i + 1, |links|);
        NextCanRun(cfg, env, ReceiveInitials(links, |links|), ReceiveInitials(links, i),
                   When(links[i].upInit, Op.ReceiveData(i)),
                   old(State()), State());
        ReceiveDataIf(links[i].upInit, i);
      }
    }

    method SendToAll()
      requires Valid()
      modifies this`outbox, this`logs, this`pc
      ensures Valid() && Runs(cfg, env, SendAll(links, |links|), old(State()), State())
    {
      LoopsUseLinks(links, |links|);
      for i := 0 to |links|
        invariant Valid() && Runs(cfg, env, SendAll(links, i), old(State()), State())
      {
        LoopsUseLinks(links, i + 1);
        SendDataIf(links[i].downData, i);
      }
    }

    method SendInitialToAll()
      requires Valid()
      modifies this`outbox, this`logs, this`pc
      ensures Valid() && Runs(cfg, env, SendInitials(links, |links|), old(State()), State())
    {
      LoopsUseLinks(links, |links|);
      for i := 0 to |links|
        invariant Valid() && Runs(cfg, env, SendInitials(links, i), old(State()), State())
      {
        LoopsUseLinks(links, i + 1);
        SendDataIf(links[i].downInit, i);
      }
    }

    method SendConvergenceToAll()
      requires Valid()
      modifies this`outbox, this`logs, this`pc
      ensures Valid() && Runs(cfg, env, SendConvergences(|links|), old(State()), State())
    {
      LoopsUseLinks(links, |links|);
      for i := 0 to |links|
        invariant Valid() && Runs(cfg, env, SendConvergences(i), old(State()), State())
      {
        LoopsUseLinks(links, i + 1);
        SendConvergenceIf(true, i);
      }
    }

    // ----- the exchanges -----

    method SerialInitialDataOfSecond()
      requires Valid() && cfg.kind == Serial && isHub && phase == Init
      requires CanRun(cfg, env, InitBlock(cfg, isHub, links), State())
      modifies this`time, this`inbox, this`outbox, this`logs, this`pc, this`stamps, this`status,
               this`timeWindowSize, this`nextTimeWindowSize, this`hasDataBeenReceived, this`hasConverged
      ensures Valid() && Runs(cfg, env, InitBlock(cfg, isHub, links), old(State()), State())
    {
      var l := links[0];
      ghost var first := Three(When(l.downInit, Op.SendData(0)), When(l.upInit, Op.ReceiveData(0)),
                               When(cfg.firstSetsSize, Op.ReceiveSize));
      ghost var second := Three(One(Op.TakeSize), When(l.upData, Op.ReceiveAhead), One(Op.Notify));
      ghost var begin := State();
      assert InitBlock(cfg, isHub, links) == Then(first, second);
      SerialInitialExchange();
      ghost var middle := State();
      NextCanRun(cfg, env, Then(first, second), first, second, begin, middle);
      SerialFirstLookAhead();
    }

    method SerialInitialExchange()
      requires Valid() && cfg.kind == Serial && isHub && phase == Init
      requires CanRun(cfg, env, Three(When(links[0].downInit, Op.SendData(0)), When(links[0].upInit, Op.ReceiveData(0)),
                                      When(cfg.firstSetsSize, Op.ReceiveSize)), State())
      modifies this`time, this`inbox, this`outbox, this`logs, this`pc, this`stamps, this`status,
               this`timeWindowSize, this`nextTimeWindowSize, this`hasDataBeenReceived, this`hasConverged
      ensures Valid()
      ensures Runs(cfg, env, Three(When(links[0].downInit, Op.SendData(0)), When(links[0].upInit, Op.ReceiveData(0)),
                                   When(cfg.firstSetsSize, Op.ReceiveSize)), old(State()), State())
    {
      var l := links[0];
      ghost var a, b, c := When(l.downInit, Op.SendData(0)),
                           When(l.upInit, Op.ReceiveData(0)),
                           When(cfg.firstSetsSize, Op.ReceiveSize);
      ghost var s := State();
      ThreeCanRun(cfg, env, a, b, c, s);
      SendDataIf(l.downInit, 0);
      ghost var t := State();
      ReceiveDataIf(l.upInit, 0);
      ghost var u := State();
      ReceiveSizeIf(cfg.firstSetsSize);
      ThreeRun(cfg, env, a, b, c, s, t, u, State());
    }

    method SerialFirstLookAhead()
      requires Valid() && cfg.kind == Serial && isHub && phase == Init
      requires CanRun(cfg, env, Three(One(Op.TakeSize), When(links[0].upData, Op.ReceiveAhead), One(Op.Notify)),
                      State())
      modifies this`time, this`inbox, this`outbox, this`logs, this`pc, this`stamps, this`status,
               this`timeWindowSize, this`nextTimeWindowSize, this`hasDataBeenReceived, this`hasConverged
      ensures Valid() && Runs(cfg, env, Three(One(Op.TakeSize), When(links[0].upData, Op.ReceiveAhead), One(Op.Notify)),
                              old(State()), State())
    {
      var l := links[0];
      ghost var a, b, c := When(true, Op.TakeSize),
                           When(l.upData, Op.ReceiveAhead),
                           When(true, Op.Notify);
      ghost var s := State();
      ThreeCanRun(cfg, env, a, b, c, s);
      TakeSizeIf(true);
      ghost var t := State();
      ReceiveAheadIf(l.upData, false);
      ghost var u := State();
      NotifyIf(true);
      ThreeRun(cfg, env, a, b, c, s, t, u, State());
    }

    method SerialInitialDataOfFirst()
      requires Valid() && cfg.kind == Serial && !isHub && phase == Init
      requires CanRun(cfg, env, InitBlock(cfg, isHub, links), State())
      modifies this`time, this`inbox, this`outbox, this`logs, this`pc, this`stamps, this`status,
               this`timeWindowSize, this`nextTimeWindowSize, this`hasDataBeenReceived, this`hasConverged
      ensures Valid() && Runs(cfg, env, InitBlock(cfg, isHub, links), old(State()), State())
    {
      var l := links[0];
      ghost var a, b, c := When(l.downInit, Op.ReceiveData(0)),
                           When(l.downInit, Op.Notify),
                           When(l.upInit, Op.SendData(0));
      ghost var s := State();
      ThreeCanRun(cfg, env, a, b, c, s);
      ReceiveDataIf(l.downInit, 0);
      ghost var t := State();
      NotifyIf(l.downInit);
      ghost var u := State();
      SendDataIf(l.upInit, 0);
      ThreeRun(cfg, env, a, b, c, s, t, u, State());
    }

    method ParallelInitialData()
      requires Valid() && cfg.kind == Parallel
      requires CanRun(cfg, env, InitBlock(cfg, isHub, links), State())
      modifies this`time, this`inbox, this`outbox, this`logs, this`pc, this`stamps, this`status,
               this`timeWindowSize, this`nextTimeWindowSize, this`hasDataBeenReceived, this`hasConverged
      ensures Valid() && Runs(cfg, env, InitBlock(cfg, isHub, links), old(State()), State())
    {
      var l := links[0];
      if isHub {
        ghost var a, b, c := When(l.upInit, Op.ReceiveData(0)),
                             When(l.upInit, Op.Notify),
                             When(l.downInit, Op.SendData(0));
        ghost var s := State();
        ThreeCanRun(cfg, env, a, b, c, s);
        ReceiveDataIf(l.upInit, 0);
        ghost var t := State();
        NotifyIf(l.upInit);
        ghost var u := State();
        SendDataIf(l.downInit, 0);
        ThreeRun(cfg, env, a, b, c, s, t, u, State());
      } else {
        ghost var a, b, c := When(l.upInit, Op.SendData(0)),
                             When(l.downInit, Op.ReceiveData(0)),
                             When(l.downInit, Op.Notify);
        ghost var s := State();
        ThreeCanRun(cfg, env, a, b, c, s);
        SendDataIf(l.upInit, 0);
        ghost var t := State();
        ReceiveDataIf(l.downInit, 0);
        ghost var u := State();
        NotifyIf(l.downInit);
        ThreeRun(cfg, env, a, b, c, s, t, u, State());
      }
    }

    method MultiInitialData()
      requires Valid() && cfg.kind == Multi
      requires CanRun(cfg, env, InitBlock(cfg, isHub, links), State())
      modifies this`time, this`inbox, this`outbox, this`logs, this`pc, this`stamps, this`status,
               this`timeWindowSize, this`nextTimeWindowSize, this`hasDataBeenReceived, this`hasConverged
      ensures Valid() && Runs(cfg, env, InitBlock(cfg, isHub, links), old(State()), State())
    {
      var l := links[0];
      if isHub {
        ghost var a, b, c := ReceiveInitials(links, |links|),
                             When(true, Op.Notify),
                             SendInitials(links, |links|);
        ghost var s := State();
        ThreeCanRun(cfg, env, a, b, c, s);
        ReceiveInitialFromAll();
        ghost var t := State();
        NotifyIf(true);
        ghost var u := State();
        SendInitialToAll();
        ThreeRun(cfg, env, a, b, c, s, t, u, State());
      } else {
        ghost var a, b, c := When(l.upInit, Op.SendData(0)),
                             When(l.downInit, Op.ReceiveData(0)),
                             When(true, Op.Notify);
        ghost var s := State();
        ThreeCanRun(cfg, env, a, b, c, s);
        SendDataIf(l.upInit, 0);
        ghost var t := State();
        ReceiveDataIf(l.downInit, 0);
        ghost var u := State();
        NotifyIf(true);
        ThreeRun(cfg, env, a, b, c, s, t, u, State());
      }
    }

    method SerialFirstData(results: seq<bool>)
      requires Valid() && cfg.kind == Serial
      requires results == Results(cfg, env, rounds)
      requires CanRun(cfg, env, FirstBlock(cfg, isHub, links), State())
      modifies this`time, this`inbox, this`outbox, this`logs, this`pc, this`stamps, this`status,
               this`timeWindowSize, this`nextTimeWindowSize, this`hasDataBeenReceived, this`hasConverged
      ensures Valid() && Runs(cfg, env, FirstBlock(cfg, isHub, links), old(State()), State())
    {
      var l := links[0];
      if isHub {
        ghost var a, b, c := When(cfg.implicitMode, Op.ImplicitStep),
                             When(cfg.implicitMode, Op.SendConvergence(0)),
                             When(l.downData, Op.SendData(0));
        ghost var s := State();
        ThreeCanRun(cfg, env, a, b, c, s);
        ImplicitStepIf(cfg.implicitMode, results);
        ghost var t := State();
        SendConvergenceIf(cfg.implicitMode, 0);
        ghost var u := State();
        SendDataIf(l.downData, 0);
        ThreeRun(cfg, env, a, b, c, s, t, u, State());
      } else {
        SendSizeIf(cfg.firstSetsSize);
        SendDataIf(l.upData, 0);
      }
    }

    /** Parallel and multi: everybody sends to the second participant or the controller. */
    method StarFirstData()
      requires Valid() && cfg.kind != Serial
      requires CanRun(cfg, env, FirstBlock(cfg, isHub, links), State())
      modifies this`time, this`inbox, this`outbox, this`logs, this`pc, this`stamps, this`status,
               this`timeWindowSize, this`nextTimeWindowSize, this`hasDataBeenReceived, this`hasConverged
      ensures Valid() && Runs(cfg, env, FirstBlock(cfg, isHub, links), old(State()), State())
    {
      if isHub {
        ReceiveFromAll();
        NotifyIf(true);
      } else {
        SendDataIf(links[0].upData, 0);
      }
    }

    method StarSecondData(results: seq<bool>)
      requires Valid() && cfg.kind != Serial
      requires results == Results(cfg, env, rounds)
      requires CanRun(cfg, env, SecondBlock(cfg, isHub, links), State())
      modifies this`time, this`inbox, this`outbox, this`logs, this`pc, this`stamps, this`status,
               this`timeWindowSize, this`nextTimeWindowSize, this`hasDataBeenReceived, this`hasConverged
      ensures Valid() && Runs(cfg, env, SecondBlock(cfg, isHub, links), old(State()), State())
    {
      if isHub {
        ghost var a, b, c := When(cfg.implicitMode, Op.ImplicitStep),
                             if cfg.implicitMode then SendConvergences(|links|) else Empty,
                             SendAll(links, |links|);
        ghost var s := State();
        ThreeCanRun(cfg, env, a, b, c, s);
        ImplicitStepIf(cfg.implicitMode, results);
        ghost var t := State();
        if cfg.implicitMode { SendConvergenceToAll(); }
        ghost var u := State();
        SendToAll();
        ThreeRun(cfg, env, a, b, c, s, t, u, State());
      } else {
        ghost var a, b, c := When(cfg.implicitMode, Op.ReceiveConvergence),
                             When(links[0].downData, Op.ReceiveData(0)),
                             When(true, Op.Notify);
        ghost var s := State();
        ThreeCanRun(cfg, env, a, b, c, s);
        ReceiveConvergenceIf(cfg.implicitMode);
        ghost var t := State();
        ReceiveDataIf(links[0].downData, 0);
        ghost var u := State();
        NotifyIf(true);
        ThreeRun(cfg, env, a, b, c, s, t, u, State());
      }
    }

    method SerialSecondDataOfFirst()
      requires Valid() && cfg.kind == Serial && !isHub
      requires CanRun(cfg, env, SecondBlock(cfg, isHub, links), State())
      modifies this`time, this`inbox, this`outbox, this`logs, this`pc, this`stamps, this`status,
               this`timeWindowSize, this`nextTimeWindowSize, this`hasDataBeenReceived, this`hasConverged
      ensures Valid() && Runs(cfg, env, SecondBlock(cfg, isHub, links), old(State()), State())
    {
      ghost var a, b, c := When(cfg.implicitMode, Op.ReceiveConvergence),
                           When(links[0].downData, Op.ReceiveData(0)),
                           When(true, Op.Notify);
      ghost var s := State();
      ThreeCanRun(cfg, env, a, b, c, s);
      ReceiveConvergenceIf(cfg.implicitMode);
      ghost var t := State();
      ReceiveDataIf(links[0].downData, 0);
      ghost var u := State();
      NotifyIf(true);
      ThreeRun(cfg, env, a, b, c, s, t, u, State());
    }

    method SerialLookAhead()
      requires Valid() && isHub && phase == Look
      requires CanRun(cfg, env, LookBlock(cfg, links[0]), State())
      modifies this`time, this`inbox, this`outbox, this`logs, this`pc, this`stamps, this`status,
               this`timeWindowSize, this`nextTimeWindowSize, this`hasDataBeenReceived, this`hasConverged
      ensures Valid() && Runs(cfg, env, LookBlock(cfg, links[0]), old(State()), State())
    {
      ghost var a, b, c := When(cfg.firstSetsSize, Op.ReceiveSize),
                           When(links[0].upData, Op.ReceiveAhead),
                           When(true, Op.Notify);
      ghost var s := State();
      ThreeCanRun(cfg, env, a, b, c, s);
      ReceiveSizeIf(cfg.firstSetsSize);
      ghost var t := State();
      ReceiveAheadIf(links[0].upData, cfg.implicitMode && !hasConverged);
      ghost var u := State();
      NotifyIf(true);
      ThreeRun(cfg, env, a, b, c, s, t, u, State());
    }

    // ----- required actions -----

    method MarkActionFulfilled(action: Action)
      requires action in requiredActions
      modifies this`fulfilledActions
      ensures fulfilledActions == old(fulfilledActions) + {action}
    {
      fulfilledActions := fulfilledActions + {action};
    }

    /** Reports an error if a required action was not fulfilled; otherwise both sets are cleared. */
    method CheckCompletenessRequiredActions() returns (ok: bool)
      modifies this`requiredActions, this`fulfilledActions
      ensures ok == (old(requiredActions) <= old(fulfilledActions))
      ensures ok ==> requiredActions == {} && fulfilledActions == {}
      ensures !ok ==> requiredActions == old(requiredActions) && fulfilledActions == old(fulfilledActions)
    {
      var missing := requiredActions - fulfilledActions;
      assert missing == {} ==> forall a <- requiredActions :: a in fulfilledActions by {
        assert forall a <- requiredActions :: a in fulfilledActions || a in missing;
      }
      ok := missing == {};
      if ok {
        requiredActions, fulfilledActions := {}, {};
      }
    }

    // ----- the calls of a participant -----

    method ExchangeInitialData()
      requires Valid() && phase == Init && status.Running? && Exchange(cfg, env, State()).Done?
      modifies this`time, this`inbox, this`outbox, this`logs, this`pc, this`stamps, this`status,
               this`timeWindowSize, this`nextTimeWindowSize, this`hasDataBeenReceived, this`hasConverged
      ensures Valid() && Exchange(cfg, env, old(State())) == Done(State())
    {
      BlocksUseLinks(cfg, Init, isHub, links);
      assert CanRun(cfg, env, InitBlock(cfg, isHub, links), State());
      if cfg.kind == Parallel {
        ParallelInitialData();
      } else if cfg.kind == Multi {
        MultiInitialData();
      } else if isHub {
        SerialInitialDataOfSecond();
      } else {
        SerialInitialDataOfFirst();
      }
    }

    method InitializeScheme()
      requires Valid() && phase == Init && status.Running? && Exchange(cfg, env, State()).Done?
      modifies this`phase, this`time, this`inbox, this`outbox, this`logs, this`pc, this`stamps, this`status,
               this`timeWindowSize, this`nextTimeWindowSize, this`hasDataBeenReceived, this`hasConverged
      ensures Valid() && Initialize(cfg, env, old(State())) == Done(State())
    {
      ExchangeInitialData();
      if status.Running? {
        phase, pc := Rest, 0;
      }
    }

    method CouplingOngoing() returns (b: bool)
      ensures b == IsCouplingOngoing(cfg, View())
    {
      var timestepsLeft := cfg.maxWindows >= timeWindows || cfg.maxWindows == UNDEFINED;
      return timestepsLeft && !time.ReachedEnd(cfg.maxTime);
    }

    method EndOfTimeWindowReached() returns (b: bool)
      ensures b == ReachedEndOfTimeWindow(cfg, View())
    {
      return timeWindowSize == UNDEFINED || time.ReachedEndOfWindow(cfg.maxTime, timeWindowSize);
    }

    method GetNextTimeStepMaxSize() returns (m: Limit)
      ensures m == NextTimeStepMaxSize(cfg, View())
      ensures forall dt: int :: m.Allows(dt) <==>
                if IsCouplingOngoing(cfg, View())
                then && (timeWindowSize != UNDEFINED ==> time.progress + dt <= timeWindowSize)
                     && (cfg.maxTime != UNDEFINED ==> time.Time() + dt <= cfg.maxTime)
                else dt <= 0
    {
      var ongoing := CouplingOngoing();
      if !ongoing { return AtMost(0); }
      if timeWindowSize != UNDEFINED { return AtMost(time.UntilWindowEnd(cfg.maxTime, timeWindowSize)); }
      return if cfg.maxTime == UNDEFINED then Unlimited else AtMost(cfg.maxTime - time.Time());
    }

    method AddComputedTime(dt: int) returns (valid: bool, reachedEnd: bool)
      requires IsCouplingOngoing(cfg, View())
      modifies this`time
      ensures valid == NextTimeStepMaxSize(cfg, old(View())).Allows(dt)
      ensures valid <==> && (timeWindowSize != UNDEFINED ==> old(time.progress) + dt <= timeWindowSize)
                         && (cfg.maxTime != UNDEFINED ==> old(time.Time()) + dt <= cfg.maxTime)
      ensures time == Clock(old(time.start), old(time.progress) + if valid then dt else 0)
      ensures valid ==> reachedEnd == ReachedEndOfTimeWindow(cfg, View())
      ensures valid ==>
                (reachedEnd <==> || timeWindowSize == UNDEFINED || time.progress == timeWindowSize
                                 || (cfg.maxTime != UNDEFINED && time.Time() == cfg.maxTime))
      ensures valid && cfg.maxTime != UNDEFINED && old(time.Time()) <= cfg.maxTime ==> time.Time() <= cfg.maxTime
    {
      var limit := GetNextTimeStepMaxSize();
      valid, reachedEnd := limit.Allows(dt), false;
      if valid {
        time := time.ProgressBy(dt);
        reachedEnd := EndOfTimeWindowReached();
      }
    }

    method ExchangeFirstData(results: seq<bool>)
      requires Valid() && phase == First && status.Running? && results == Results(cfg, env, rounds)
      requires Exchange(cfg, env, State()).Done?
      modifies this`time, this`inbox, this`outbox, this`logs, this`pc, this`stamps, this`status,
               this`timeWindowSize, this`nextTimeWindowSize, this`hasDataBeenReceived, this`hasConverged
      ensures Valid() && Exchange(cfg, env, old(State())) == Done(State())
    {
      BlocksUseLinks(cfg, First, isHub, links);
      if cfg.kind == Serial { SerialFirstData(results); } else { StarFirstData(); }
    }

    method BeginFirstExchange() returns (reached: bool)
      requires requiredActions == {}
      modifies this`hasDataBeenReceived, this`isTimeWindowComplete, this`timeWindows, this`phase, this`pc
      ensures View() == BeginExchange(cfg, old(View())) && reached == ReachedEndOfTimeWindow(cfg, old(View()))
    {
      hasDataBeenReceived, isTimeWindowComplete := false, false;
      reached := EndOfTimeWindowReached();
      if reached {
        timeWindows := timeWindows + 1;
        phase, pc := First, 0;
      }
    }

    /** `firstExchange` once all required actions are fulfilled. */
    method ExchangeFirst(results: seq<bool>)
      requires Valid() && phase == Rest && status.Running? && results == Results(cfg, env, rounds)
      requires FirstExchange(cfg, env, State()).Done? && requiredActions == {}
      modifies this`phase, this`timeWindows, this`isTimeWindowComplete, this`time, this`inbox, this`outbox,
               this`logs, this`pc, this`stamps, this`status,
               this`timeWindowSize, this`nextTimeWindowSize, this`hasDataBeenReceived, this`hasConverged
      ensures Valid() && FirstExchange(cfg, env, old(State())) == Done(State())
    {
      var reached := BeginFirstExchange();
      if reached { ExchangeFirstData(results); }
    }

    method FirstExchangeCall(results: seq<bool>) returns (ok: bool)
      requires Valid() && phase == Rest && status.Running? && results == Results(cfg, env, rounds)
      requires FirstExchange(cfg, env, State()).Done?
      modifies this
      ensures ok == (old(requiredActions) <= old(fulfilledActions))
      ensures ok ==> Valid() && FirstExchange(cfg, env, old(State())) == Done(State()) && fulfilledActions == {}
      ensures !ok ==> State() == old(State()) && fulfilledActions == old(fulfilledActions)
    {
      ghost var s := State();
      ok := CheckCompletenessRequiredActions();
      if ok {
        FirstExchangeForgetsActions(cfg, env, s);
        assert State() == s.(p := s.p.(required := {}));
        ExchangeFirst(results);
      }
    }

    method ExchangeSecondData(results: seq<bool>)
      requires Valid() && phase == Second && status.Running? && results == Results(cfg, env, rounds)
      requires ExchangeSecond(cfg, env, State()).Done?
      modifies this`phase, this`time, this`inbox, this`outbox, this`logs, this`pc, this`stamps, this`status,
               this`timeWindowSize, this`nextTimeWindowSize, this`hasDataBeenReceived, this`hasConverged
      ensures Valid() && ExchangeSecond(cfg, env, old(State())) == Done(State())
    {
      BlocksUseLinks(cfg, Second, isHub, links);
      BlocksUseLinks(cfg, Look, isHub, links);
      if cfg.kind != Serial {
        StarSecondData(results);
      } else if !isHub {
        SerialSecondDataOfFirst();
      } else {
        var ongoing := CouplingOngoing();
        if ongoing || (cfg.implicitMode && !hasConverged) {
          phase, pc := Look, 0;
          SerialLookAhead();
        }
      }
    }

    /** Counts the window or the iteration and requires what the solver has to do next. */
    method CountWindowOrIteration() returns (ghost required: seq<Required>)
      requires status.Running? && !isTimeWindowComplete
      modifies this`requiredActions, this`timeWindows, this`iterations, this`isTimeWindowComplete, this`status
      ensures status == (if cfg.implicitMode && !hasConverged && time.progress <= 0 then Failed(Assertion) else Running)
      ensures status.Running? ==> View() == Counted(cfg, old(View())) && required == DemandedAt(cfg, View())
    {
      required := [];
      if cfg.implicitMode {
        if !hasConverged {
          requiredActions := requiredActions + {ReadCheckpoint};
          required := [Required(ReadCheckpoint, time.start)];
          if !(time.Time() > time.start) {
            status := Failed(Assertion);
            return;
          }
          timeWindows := timeWindows - 1;
          isTimeWindowComplete := false;
        } else {
          isTimeWindowComplete := true;
          var ongoing := CouplingOngoing();
          if ongoing {
            requiredActions := requiredActions + {WriteCheckpoint};
            required := [Required(WriteCheckpoint, time.Time())];
          }
        }
        iterations := if !hasConverged then iterations + 1 else 1;
      } else {
        isTimeWindowComplete := true;
      }
    }

    /** The assertions before the time is updated. */
    method CheckClosing()
      requires status.Running? && isTimeWindowComplete == (!cfg.implicitMode || hasConverged)
      modifies this`status
      ensures status == (if ClosingFails(cfg, old(View())) then Failed(Assertion) else Running)
      ensures status.Failed?
              <==> (IsCouplingOngoing(cfg, old(View())) && !hasDataBeenReceived)
                   || (isTimeWindowComplete && time.progress != timeWindowSize
                       && (cfg.maxTime == UNDEFINED || time.Time() != cfg.maxTime))
    {
      var ongoing := CouplingOngoing();
      if (ongoing && !hasDataBeenReceived)
         || (isTimeWindowComplete && time.progress != timeWindowSize && !time.ReachedEnd(cfg.maxTime)) {
        status := Failed(Assertion);
      }
    }

    method UpdateTime(ghost required: seq<Required>)
      requires required == DemandedAt(cfg, View()) && isTimeWindowComplete == (!cfg.implicitMode || hasConverged)
      modifies this`time, this`timeWindowSize, this`phase, this`pc, this`rounds, this`actions
      ensures View() == Closed(cfg, old(View()))
      ensures time == Clock(old(time.start) + if isTimeWindowComplete then old(time.progress) else 0, 0)
      ensures timeWindowSize == nextTimeWindowSize
    {
      if isTimeWindowComplete {
        time := time.CompleteTimeWindow(timeWindowSize);
      } else {
        time := time.ResetProgress();
      }
      timeWindowSize := nextTimeWindowSize;
      phase, pc, rounds, actions := Rest, 0, rounds + 1, actions + required;
    }

    /** What `secondExchange` does once all messages are exchanged. */
    method CompleteExchange()
      requires Valid() && status.Running? && !isTimeWindowComplete
      modifies this`requiredActions, this`timeWindows, this`iterations, this`isTimeWindowComplete, this`time,
               this`timeWindowSize, this`status, this`phase, this`pc, this`rounds, this`actions
      ensures status == Finish(cfg, old(View())).status
      ensures status.Running? ==> View() == Finish(cfg, old(View()))
    {
      FinishIsCountAndClose(cfg, View());
      ghost var required := CountWindowOrIteration();
      if status.Running? { CheckClosing(); }
      if status.Running? { UpdateTime(required); }
    }

    method ExchangeSecondDataAndComplete(results: seq<bool>)
      requires Valid() && phase == Second && status.Running? && results == Results(cfg, env, rounds)
      requires ExchangeSecond(cfg, env, State()).Done? && !isTimeWindowComplete
      modifies this`requiredActions, this`timeWindows, this`iterations, this`isTimeWindowComplete, this`rounds,
               this`actions,
               this`phase, this`time, this`inbox, this`outbox, this`logs, this`pc, this`stamps, this`status,
               this`timeWindowSize, this`nextTimeWindowSize, this`hasDataBeenReceived, this`hasConverged
      ensures status == SecondAndFinish(cfg, env, old(State())).io.p.status
      ensures status.Running? ==> Valid() && SecondAndFinish(cfg, env, old(State())) == Done(State())
    {
      ExchangeSecondData(results);
      ghost var t := State();
      if status.Running? {
        CompleteExchange();
        assert status.Running? ==> State() == t.(p := Finish(cfg, t.p));
      }
    }

    /** `secondExchange` once the actions were checked. */
    method ExchangeSecondAndComplete(results: seq<bool>)
      requires Valid() && FollowsFirst(cfg, View()) && status.Running? && results == Results(cfg, env, rounds)
      requires SecondExchange(cfg, env, State()).Done? && requiredActions == {}
      modifies this
      ensures fulfilledActions == old(fulfilledActions)
      ensures status == SecondExchange(cfg, env, old(State())).io.p.status
      ensures status.Running? ==> Valid() && SecondExchange(cfg, env, old(State())) == Done(State())
    {
      if isTimeWindowComplete {
        status := Failed(Assertion);
        return;
      }
      ghost var s := State();
      var reached := EndOfTimeWindowReached();
      if reached {
        phase, pc := Second, 0;
        assert State() == s.(p := BeginSecond(cfg, s.p));
        ExchangeSecondDataAndComplete(results);
      } else {
        phase, pc := Rest, 0;
        assert State() == s.(p := BeginSecond(cfg, s.p));
      }
    }

    method SecondExchangeCall(results: seq<bool>) returns (ok: bool)
      requires Valid() && FollowsFirst(cfg, View()) && status.Running? && results == Results(cfg, env, rounds)
      requires SecondExchange(cfg, env, State().(p := View().(required := {}))).Done?
      modifies this
      ensures ok == (old(requiredActions) <= old(fulfilledActions))
      ensures !ok ==> State() == old(State()) && fulfilledActions == old(fulfilledActions)
      ensures ok ==> fulfilledActions == {}
      ensures ok ==> status == SecondExchange(cfg, env, old(State().(p := View().(required := {})))).io.p.status
      ensures ok && status.Running? ==>
                Valid() && SecondExchange(cfg, env, old(State().(p := View().(required := {})))) == Done(State())
    {
      ghost var s := State();
      ok := CheckCompletenessRequiredActions();
      if ok {
        assert State() == s.(p := s.p.(required := {}));
        ExchangeSecondAndComplete(results);
      }
    }
  }
}
