/** One participant of a coupling scheme (serial, parallel or multi) as a state machine.

    A participant runs `initialize` and then loops over `addComputedTime`, `firstExchange` and
    `secondExchange`.  Each exchange is a straight line of operations on the communication
    channels, a `plan`; between two plans the scheme takes its decisions.  One step of the machine
    is one operation, one decision or one time step of the solver, so any interleaving of several
    participants is an interleaving of machine steps.

    Participants form a star.  The hub is the second participant of a two-participant scheme and
    the controller of a multi scheme: it never does the first step and it measures convergence.
    The spokes are the first participant or the other participants.  `up` is spoke to hub.

    Time is exact and counted in integer ticks. */
module Scheme {

  const UNDEFINED := -1
  const INFINITE_MAX_ITERATIONS := -2

  datatype Kind = Serial | Parallel | Multi

  /** What one pair of participants exchanges, as both were configured. */
  datatype Link = Link(upData: bool, downData: bool, upInit: bool, downInit: bool)

  datatype Measure = Measure(suffices: bool, strict: bool)

  datatype Config = Config(
    kind: Kind,
    implicitMode: bool,
    firstSetsSize: bool,
    windowSize: int,
    maxTime: int,
    maxWindows: int,
    minIterations: int,
    maxIterations: int,
    measures: seq<Measure>,
    links: seq<Link>)

  /** The limits enforced when a scheme is configured and constructed. */
  predicate ValidConfig(cfg: Config) {
    && |cfg.links| >= 1
    && (cfg.kind != Multi ==> |cfg.links| == 1)
    && (cfg.kind == Multi ==> cfg.implicitMode)
    && (cfg.firstSetsSize ==> cfg.kind == Serial && cfg.windowSize == UNDEFINED)
    && (!cfg.firstSetsSize ==> cfg.windowSize > 0)
    && (cfg.maxTime == UNDEFINED || cfg.maxTime > 0)
    && (cfg.maxWindows == UNDEFINED || cfg.maxWindows > 0)
    && (cfg.implicitMode ==> 0 < cfg.minIterations)
    && (cfg.implicitMode ==> cfg.maxIterations == INFINITE_MAX_ITERATIONS || cfg.minIterations <= cfg.maxIterations)
  }

  /** Everything the solvers decide that the partner can notice, indexed by the number of exchanges
      at a window end that came before: whether a convergence measure holds, and how long a window the first
      participant computes when it dictates the size.  A theorem for every `Env` is a theorem
      for every sequence of decisions. */
  datatype Env = Env(holds: (nat, nat) -> bool, size: nat -> int)

  datatype Message = Dt(size: int) | Converged(verdict: bool) | Data(sentAt: int)

  /** A message as one end of a link sees it go by. */
  datatype Event = Event(up: bool, msg: Message)

  datatype Action = ReadCheckpoint | WriteCheckpoint

  datatype Required = Required(action: Action, time: int)

  /** When data was sent, which time the receiver attached to it, by how much it looked ahead, and in which round
      it will be used. */
  datatype Stamp = Stamp(sentAt: int, storedAt: int, ahead: int, round: nat)

  datatype Failure = StrictMeasure | SizeChanged | Assertion

  datatype Status = Running | Failed(why: Failure)

  // ----- time (TimeHandler) -----

  datatype Clock = Clock(start: int, progress: int) {
    function Time(): int { start + progress }

    predicate ReachedEnd(maxTime: int) { maxTime != UNDEFINED && maxTime - Time() == 0 }

    /** Distance to the end of the window, truncated by the maximum time. */
    function UntilWindowEnd(maxTime: int, size: int): int {
      if maxTime == UNDEFINED then size - progress else Min(size - progress, maxTime - Time())
    }

    predicate ReachedEndOfWindow(maxTime: int, size: int) { UntilWindowEnd(maxTime, size) == 0 }

    function ProgressBy(dt: int): Clock { Clock(start, progress + dt) }

    function ResetProgress(): Clock { Clock(start, 0) }

    function CompleteTimeWindow(size: int): Clock {
      if progress == size then Clock(start + size, 0) else Clock(start + progress, 0)
    }
  }

  function Min(a: int, b: int): int { if a <= b then a else b }

  // ----- the rounds of a run, independently of any participant -----

  /** The state all participants share after a number of exchanges at a window end. */
  datatype Shared = Shared(windows: int, iterations: int, start: int)

  predicate SharedOngoing(cfg: Config, s: Shared) {
    && (cfg.maxWindows >= s.windows || cfg.maxWindows == UNDEFINED)
    && !(cfg.maxTime != UNDEFINED && cfg.maxTime == s.start)
  }

  /** The ticks a participant computes in round `k`; a dictated size is any legal one. */
  function Length(cfg: Config, env: Env, k: nat, s: Shared): int {
    if cfg.firstSetsSize then
      var atLeastOne := if env.size(k) < 1 then 1 else env.size(k);
      if cfg.maxTime == UNDEFINED then atLeastOne else Min(atLeastOne, cfg.maxTime - s.start)
    else if cfg.maxTime == UNDEFINED then cfg.windowSize
    else Min(cfg.windowSize, cfg.maxTime - s.start)
  }

  function Results(cfg: Config, env: Env, k: nat): (r: seq<bool>)
    ensures |r| == |cfg.measures|
  {
    seq(|cfg.measures|, m requires 0 <= m < |cfg.measures| => env.holds(k, m))
  }

  /** `measureConvergence`: all measures hold, or one that suffices does and no strict one fails. */
  predicate Measured(cfg: Config, iterations: int, results: seq<bool>)
    requires |results| == |cfg.measures|
  {
    && cfg.measures != []
    && iterations >= cfg.minIterations
    && ((forall m :: 0 <= m < |results| ==> results[m])
        || ((exists m :: 0 <= m < |results| && results[m] && cfg.measures[m].suffices)
            && forall m :: 0 <= m < |results| && cfg.measures[m].strict ==> results[m]))
  }

  /** A strict measure that fails when no further iteration is allowed ends the simulation. */
  predicate StrictFailure(cfg: Config, iterations: int, results: seq<bool>)
    requires |results| == |cfg.measures|
  {
    iterations >= cfg.maxIterations && exists m :: 0 <= m < |results| && cfg.measures[m].strict && !results[m]
  }

  /** `doImplicitStep`: the last allowed iteration always counts as converged. */
  predicate Verdict(cfg: Config, iterations: int, results: seq<bool>)
    requires |results| == |cfg.measures|
  {
    Measured(cfg, iterations, results) || iterations == cfg.maxIterations
  }

  predicate Completes(cfg: Config, env: Env, k: nat, s: Shared) {
    !cfg.implicitMode || Verdict(cfg, s.iterations, Results(cfg, env, k))
  }

  function After(cfg: Config, env: Env, k: nat): Shared {
    if k == 0 then Shared(1, 1, 0)
    else
      var s := After(cfg, env, k - 1);
      if Completes(cfg, env, k - 1, s)
      then Shared(s.windows + 1, 1, s.start + Length(cfg, env, k - 1, s))
      else s.(iterations := s.iterations + 1)
  }

  predicate Ongoing(cfg: Config, env: Env, k: nat) { SharedOngoing(cfg, After(cfg, env, k)) }

  function Len(cfg: Config, env: Env, k: nat): int { Length(cfg, env, k, After(cfg, env, k)) }

  function EndTime(cfg: Config, env: Env, k: nat): int { After(cfg, env, k).start + Len(cfg, env, k) }

  predicate Done(cfg: Config, env: Env, k: nat) { Completes(cfg, env, k, After(cfg, env, k)) }

  // ----- the participant -----

  datatype Op =
    | SendSize | SendConvergence(link: nat) | SendData(link: nat)
    | ReceiveSize | ReceiveConvergence | ReceiveData(link: nat) | ReceiveAhead
    | TakeSize | Notify | ImplicitStep

  datatype Phase = Init | Rest | First | Second | Look

  /** `rounds`, `logs`, `stamps` and `actions` record history and never influence a step,
      except that `rounds` selects the solver's decisions from `Env`. */
  datatype Participant = Participant(
    hub: bool,
    links: seq<Link>,
    phase: Phase,
    pc: nat,
    windows: int,
    iterations: int,
    size: int,
    nextSize: int,
    clock: Clock,
    converged: bool,
    complete: bool,
    received: bool,
    required: set<Action>,
    status: Status,
    rounds: nat,
    logs: seq<seq<Event>>,
    stamps: seq<Stamp>,
    actions: seq<Required>)

  /** What `initialize` leaves before the initial data is exchanged. */
  function Start(cfg: Config, hub: bool, links: seq<Link>): Participant {
    Participant(hub, links, Init, 0, 1, 1, cfg.windowSize, cfg.windowSize, Clock(0, 0), false, false, false,
                if cfg.implicitMode then {WriteCheckpoint} else {}, Running, 0, seq(|links|, _ => []), [],
                if cfg.implicitMode then [Required(WriteCheckpoint, 0)] else [])
  }

  /** The program text of an exchange. */
  datatype Block = Empty | One(op: Op) | Then(first: Block, second: Block)

  function Ops(b: Block): seq<Op> {
    match b
    case Empty => []
    case One(op) => [op]
    case Then(a, c) => Ops(a) + Ops(c)
  }

  function When(c: bool, op: Op): Block { if c then One(op) else Empty }

  function Three(a: Block, b: Block, c: Block): Block { Then(a, Then(b, c)) }

  function SendAll(links: seq<Link>, n: nat): Block
    requires n <= |links|
  {
    if n == 0 then Empty else Then(SendAll(links, n - 1), When(links[n-1].downData, SendData(n - 1)))
  }

  function ReceiveAll(links: seq<Link>, n: nat): Block
    requires n <= |links|
  {
    if n == 0 then Empty else Then(ReceiveAll(links, n - 1), When(links[n-1].upData, ReceiveData(n - 1)))
  }

  function SendInitials(links: seq<Link>, n: nat): Block
    requires n <= |links|
  {
    if n == 0 then Empty else Then(SendInitials(links, n - 1), When(links[n-1].downInit, SendData(n - 1)))
  }

  function ReceiveInitials(links: seq<Link>, n: nat): Block
    requires n <= |links|
  {
    if n == 0 then Empty else Then(ReceiveInitials(links, n - 1), When(links[n-1].upInit, ReceiveData(n - 1)))
  }

  function SendConvergences(n: nat): Block {
    if n == 0 then Empty else Then(SendConvergences(n - 1), One(SendConvergence(n - 1)))
  }

  /** `exchangeInitialData` */
  function InitBlock(cfg: Config, hub: bool, links: seq<Link>): Block
    requires |links| >= 1
  {
    var l := links[0];
    match (cfg.kind, hub)
    case (Serial, true) =>
      Then(Three(When(l.downInit, SendData(0)), When(l.upInit, ReceiveData(0)), When(cfg.firstSetsSize, ReceiveSize)),
           Three(One(TakeSize), When(l.upData, ReceiveAhead), One(Notify)))
    case (Serial, false) => Three(When(l.downInit, ReceiveData(0)), When(l.downInit, Notify),
                                  When(l.upInit, SendData(0)))
    case (Parallel, true) => Three(When(l.upInit, ReceiveData(0)), When(l.upInit, Notify),
                                   When(l.downInit, SendData(0)))
    case (Parallel, false) => Three(When(l.upInit, SendData(0)), When(l.downInit, ReceiveData(0)),
                                    When(l.downInit, Notify))
    case (Multi, true) => Three(ReceiveInitials(links, |links|), One(Notify), SendInitials(links, |links|))
    case (Multi, false) => Three(When(l.upInit, SendData(0)), When(l.downInit, ReceiveData(0)), One(Notify))
  }

  /** `exchangeFirstData` */
  function FirstBlock(cfg: Config, hub: bool, links: seq<Link>): Block
    requires |links| >= 1
  {
    var l := links[0];
    match (cfg.kind, hub)
    case (Serial, true) =>
      Three(When(cfg.implicitMode, ImplicitStep), When(cfg.implicitMode, SendConvergence(0)),
            When(l.downData, SendData(0)))
    case (Serial, false) => Then(When(cfg.firstSetsSize, SendSize), When(l.upData, SendData(0)))
    case (_, true) => Then(ReceiveAll(links, |links|), One(Notify))
    case (_, false) => When(l.upData, SendData(0))
  }

  /** `exchangeSecondData` up to the decision whether the window is complete */
  function SecondBlock(cfg: Config, hub: bool, links: seq<Link>): Block
    requires |links| >= 1
  {
    match (cfg.kind, hub)
    case (Serial, true) => Empty
    case (_, true) =>
      Three(When(cfg.implicitMode, ImplicitStep),
            if cfg.implicitMode then SendConvergences(|links|) else Empty,
            SendAll(links, |links|))
    case (_, false) => Three(When(cfg.implicitMode, ReceiveConvergence), When(links[0].downData, ReceiveData(0)),
                             One(Notify))
  }

  /** `receiveAndSetTimeWindowSize` and the data for the end of the next window or iteration */
  function LookBlock(cfg: Config, link: Link): Block {
    Three(When(cfg.firstSetsSize, ReceiveSize), When(link.upData, ReceiveAhead), One(Notify))
  }

  function BlockFor(cfg: Config, phase: Phase, hub: bool, links: seq<Link>): Block
    requires |links| >= 1
  {
    match phase
    case Init => InitBlock(cfg, hub, links)
    case Rest => Empty
    case First => FirstBlock(cfg, hub, links)
    case Second => SecondBlock(cfg, hub, links)
    case Look => LookBlock(cfg, links[0])
  }

  function PlanFor(cfg: Config, phase: Phase, hub: bool, links: seq<Link>): seq<Op>
    requires |links| >= 1
  {
    Ops(BlockFor(cfg, phase, hub, links))
  }

  function Plan(cfg: Config, p: Participant): seq<Op>
    requires |p.links| >= 1
  {
    PlanFor(cfg, p.phase, p.hub, p.links)
  }

  predicate IsCouplingOngoing(cfg: Config, p: Participant) {
    (cfg.maxWindows >= p.windows || cfg.maxWindows == UNDEFINED) && !p.clock.ReachedEnd(cfg.maxTime)
  }

  predicate HasTimeWindowSize(p: Participant) { p.size != UNDEFINED }

  predicate ReachedEndOfTimeWindow(cfg: Config, p: Participant) {
    !HasTimeWindowSize(p) || p.clock.ReachedEndOfWindow(cfg.maxTime, p.size)
  }

  /** The largest legal time step, or `None` when nothing limits it. */
  datatype Limit = Unlimited | AtMost(ticks: int) {
    predicate Allows(dt: int) { AtMost? ==> dt <= ticks }
  }

  function NextTimeStepMaxSize(cfg: Config, p: Participant): Limit {
    if !IsCouplingOngoing(cfg, p) then AtMost(0)
    else if HasTimeWindowSize(p) then AtMost(p.clock.UntilWindowEnd(cfg.maxTime, p.size))
    else if cfg.maxTime == UNDEFINED then Unlimited
    else AtMost(cfg.maxTime - p.clock.Time())
  }

  predicate LegalStep(cfg: Config, p: Participant, dt: int) {
    dt > 0 && NextTimeStepMaxSize(cfg, p).Allows(dt)
  }

  // ----- operations -----

  predicate IsSend(op: Op) { op.SendSize? || op.SendConvergence? || op.SendData? }

  predicate IsReceive(op: Op) { op.ReceiveSize? || op.ReceiveConvergence? || op.ReceiveData? || op.ReceiveAhead? }

  function LinkOf(op: Op): nat {
    if op.SendConvergence? || op.SendData? || op.ReceiveData? then op.link else 0
  }

  function Logged(p: Participant, link: nat, e: Event): Participant
    requires link < |p.logs|
  {
    p.(logs := p.logs[link := p.logs[link] + [e]])
  }

  function Outgoing(p: Participant, op: Op): Message
    requires IsSend(op)
  {
    match op
    case SendSize => Dt(p.clock.progress)
    case SendConvergence(_) => Converged(p.converged)
    case SendData(_) => Data(p.clock.Time())
  }

  function Send(p: Participant, op: Op): Participant
    requires IsSend(op) && LinkOf(op) < |p.logs|
  {
    var q := if op.SendSize? then p.(size := p.clock.progress, nextSize := UNDEFINED) else p;
    Logged(q, LinkOf(op), Event(!p.hub, Outgoing(p, op))).(pc := p.pc + 1)
  }

  function Fail(p: Participant, why: Failure): Participant { p.(status := Failed(why)) }

  /** The time by which the receiver's clock is advanced while it receives. */
  function LookAheadBy(cfg: Config, p: Participant, op: Op): int {
    if op.ReceiveAhead? && (!cfg.implicitMode || p.phase == Init || p.converged) then p.nextSize else 0
  }

  /** The round that received data is for. */
  function RoundOf(phase: Phase, rounds: nat): nat { if phase == Look then rounds + 1 else rounds }

  function Receive(cfg: Config, p: Participant, op: Op, m: Message): Participant
    requires IsReceive(op) && LinkOf(op) < |p.logs|
  {
    var q := Logged(p, LinkOf(op), Event(p.hub, m)).(pc := p.pc + 1);
    match op
    case ReceiveSize =>
      if !m.Dt? || p.hub == false || m.size == UNDEFINED then Fail(p, Assertion)
      else if HasTimeWindowSize(p) && cfg.implicitMode && !p.converged && m.size != p.size then Fail(q, SizeChanged)
      else q.(nextSize := m.size)
    case ReceiveConvergence => if m.Converged? && !p.hub then q.(converged := m.verdict) else Fail(p, Assertion)
    case _ =>
      if m.Data? then
        var ahead := LookAheadBy(cfg, p, op);
        q.(stamps := p.stamps + [Stamp(m.sentAt, p.clock.ProgressBy(ahead).Time(), ahead, RoundOf(p.phase, p.rounds))])
      else Fail(p, Assertion)
  }

  function Local(cfg: Config, env: Env, p: Participant, op: Op): Participant
    requires !IsSend(op) && !IsReceive(op)
  {
    match op
    case TakeSize => p.(size := p.nextSize, pc := p.pc + 1)
    case Notify => if p.received then Fail(p, Assertion) else p.(received := true, pc := p.pc + 1)
    case ImplicitStep =>
      var results := Results(cfg, env, p.rounds);
      if StrictFailure(cfg, p.iterations, results) then Fail(p, StrictMeasure)
      else p.(converged := Verdict(cfg, p.iterations, results), pc := p.pc + 1)
  }

  // ----- decisions between the exchanges -----

  /** `addComputedTime` and the beginning of `firstExchange`; the solver has done what was required. */
  function Advance(cfg: Config, p: Participant, dt: int): Participant {
    var q := p.(clock := p.clock.ProgressBy(dt), received := false, complete := false, required := {});
    if ReachedEndOfTimeWindow(cfg, q) then q.(windows := p.windows + 1, phase := First, pc := 0) else q
  }

  /** `secondExchange` from the end of `exchangeSecondData` on. */
  function Finish(cfg: Config, p: Participant): Participant {
    var repeat := cfg.implicitMode && !p.converged;
    var counted :=
      if repeat then p.(windows := p.windows - 1, iterations := p.iterations + 1)
      else if cfg.implicitMode then p.(complete := true, iterations := 1)
      else p.(complete := true);
    var ongoing := IsCouplingOngoing(cfg, counted);
    var clock := if repeat then p.clock.ResetProgress() else p.clock.CompleteTimeWindow(p.size);
    if (repeat && p.clock.progress <= 0)
       || (ongoing && !p.received)
       || (!repeat && p.clock.progress != p.size && !p.clock.ReachedEnd(cfg.maxTime))
    then Fail(p, Assertion)
    else
      var action := if repeat then {ReadCheckpoint} else if cfg.implicitMode && ongoing then {WriteCheckpoint} else {};
      counted.(required := p.required + action,
               clock := clock, size := p.nextSize, phase := Rest, pc := 0, rounds := p.rounds + 1,
               actions := p.actions +
               if repeat then [Required(ReadCheckpoint, clock.Time())]
               else if cfg.implicitMode && ongoing then [Required(WriteCheckpoint, clock.Time())] else [])
  }

  /** What follows when a plan is done. */
  function Turn(cfg: Config, p: Participant): Participant
    requires p.phase != Rest
  {
    match p.phase
    case Init => p.(phase := Rest, pc := 0)
    case First =>
      if p.complete then Fail(p, Assertion)
      else if ReachedEndOfTimeWindow(cfg, p) then p.(phase := Second, pc := 0, required := {})
      else p.(phase := Rest, pc := 0, required := {})
    case Second =>
      if cfg.kind == Serial && p.hub && (IsCouplingOngoing(cfg, p) || (cfg.implicitMode && !p.converged))
      then p.(phase := Look, pc := 0)
      else Finish(cfg, p)
    case Look => Finish(cfg, p)
    case Rest => p
  }
}
