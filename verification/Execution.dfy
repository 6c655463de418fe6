/** What an exchange of one participant does to its state and to its connections, executed in one go. */
module Execution {
  import opened Scheme

  /** A participant with the messages that have arrived and those it has sent, per link. */
  datatype IO = IO(p: Participant, inbox: seq<seq<Message>>, outbox: seq<seq<Message>>)

  /** A receive without a message blocks; nothing is known about what happens later. */
  datatype Effect = Done(io: IO) | Blocks

  predicate Connected(io: IO) { |io.p.links| == |io.p.logs| == |io.inbox| == |io.outbox| && |io.p.links| >= 1 }

  function ExecuteOp(cfg: Config, env: Env, op: Op, io: IO): (e: Effect)
    requires Connected(io) && LinkOf(op) < |io.inbox|
    ensures e.Done? ==> Connected(e.io) && e.io.p.links == io.p.links
  {
    var i := LinkOf(op);
    if io.p.status.Failed? then Done(io)
    else if IsSend(op) then
      Done(IO(Send(io.p, op), io.inbox, io.outbox[i := io.outbox[i] + [Outgoing(io.p, op)]]))
    else if IsReceive(op) then
      if io.inbox[i] == [] then Blocks
      else Done(IO(Receive(cfg, io.p, op, io.inbox[i][0]), io.inbox[i := io.inbox[i][1..]], io.outbox))
    else Done(IO(Local(cfg, env, io.p, op), io.inbox, io.outbox))
  }

  predicate LinksWithin(b: Block, n: nat) {
    match b
    case Empty => true
    case One(op) => LinkOf(op) < n
    case Then(a, c) => LinksWithin(a, n) && LinksWithin(c, n)
  }

  function Execute(cfg: Config, env: Env, b: Block, io: IO): (e: Effect)
    requires Connected(io) && LinksWithin(b, |io.inbox|)
    ensures e.Done? ==> Connected(e.io) && e.io.p.links == io.p.links
  {
    match b
    case Empty => Done(io)
    case One(op) => ExecuteOp(cfg, env, op, io)
    case Then(a, c) =>
      var e := Execute(cfg, env, a, io);
      if e.Done? then Execute(cfg, env, c, e.io) else Blocks
  }

  // ----- whole calls -----

  lemma InitUsesLinks(cfg: Config, hub: bool, links: seq<Link>)
    requires |links| >= 1
    ensures LinksWithin(InitBlock(cfg, hub, links), |links|)
  {
    LoopsUseLinks(links, |links|);
    ThreeUseLinks(|links|);
    var l := links[0];
    if cfg.kind == Serial && hub {
      assert LinksWithin(Three(When(l.downInit, SendData(0)), When(l.upInit, ReceiveData(0)),
                               When(cfg.firstSetsSize, ReceiveSize)), |links|);
    }
  }

  lemma BlocksUseLinks(cfg: Config, phase: Phase, hub: bool, links: seq<Link>)
    requires |links| >= 1
    ensures LinksWithin(BlockFor(cfg, phase, hub, links), |links|)
  {
    match phase
    case Init => InitUsesLinks(cfg, hub, links);
    case Rest =>
    case First => FirstUsesLinks(cfg, hub, links);
    case Second => SecondUsesLinks(cfg, hub, links);
    case Look => ThreeUseLinks(|links|);
  }

  lemma FirstUsesLinks(cfg: Config, hub: bool, links: seq<Link>)
    requires |links| >= 1
    ensures LinksWithin(FirstBlock(cfg, hub, links), |links|)
  {
    LoopsUseLinks(links, |links|);
    ThreeUseLinks(|links|);
  }

  lemma SecondUsesLinks(cfg: Config, hub: bool, links: seq<Link>)
    requires |links| >= 1
    ensures LinksWithin(SecondBlock(cfg, hub, links), |links|)
  {
    LoopsUseLinks(links, |links|);
    ThreeUseLinks(|links|);
  }

  lemma ThreeUseLinks(n: nat)
    ensures forall a, b, c :: LinksWithin(a, n) && LinksWithin(b, n) && LinksWithin(c, n) ==>
              LinksWithin(Three(a, b, c), n)
  {
  }

  lemma {:induction false} LoopsUseLinks(links: seq<Link>, n: nat)
    requires n <= |links|
    ensures LinksWithin(SendAll(links, n), |links|) && LinksWithin(ReceiveAll(links, n), |links|)
    ensures LinksWithin(SendInitials(links, n), |links|) && LinksWithin(ReceiveInitials(links, n), |links|)
    ensures LinksWithin(SendConvergences(n), |links|)
  {
    if n > 0 { LoopsUseLinks(links, n - 1); }
  }

  /** Executes the exchange of the current phase. */
  function Exchange(cfg: Config, env: Env, io: IO): (e: Effect)
    requires Connected(io)
    ensures e.Done? ==> Connected(e.io) && e.io.p.links == io.p.links
  {
    BlocksUseLinks(cfg, io.p.phase, io.p.hub, io.p.links);
    Execute(cfg, env, BlockFor(cfg, io.p.phase, io.p.hub, io.p.links), io)
  }

  function Initialize(cfg: Config, env: Env, io: IO): Effect
    requires Connected(io) && io.p.phase == Init
  {
    var e := Exchange(cfg, env, io);
    if e.Blocks? || e.io.p.status.Failed? then e else Done(e.io.(p := e.io.p.(phase := Rest, pc := 0)))
  }

  /** `firstExchange` after the time of the step was added. */
  function BeginExchange(cfg: Config, p: Participant): Participant {
    var q := p.(received := false, complete := false, required := {});
    if ReachedEndOfTimeWindow(cfg, q) then q.(windows := p.windows + 1, phase := First, pc := 0) else q
  }

  function FirstExchange(cfg: Config, env: Env, io: IO): Effect
    requires Connected(io) && io.p.phase == Rest
  {
    Exchange(cfg, env, io.(p := BeginExchange(cfg, io.p)))
  }

  /** The serial second participant waits for data unless this was the last iteration of the last window. */
  predicate WantsMoreData(cfg: Config, p: Participant) {
    cfg.kind == Serial && p.hub && (IsCouplingOngoing(cfg, p) || (cfg.implicitMode && !p.converged))
  }

  /** `exchangeSecondData`, with the data for the next window of the serial second participant. */
  function ExchangeSecond(cfg: Config, env: Env, io: IO): Effect
    requires Connected(io) && io.p.phase == Second
  {
    var e := Exchange(cfg, env, io);
    if e.Blocks? || e.io.p.status.Failed? || !WantsMoreData(cfg, e.io.p) then e
    else Exchange(cfg, env, e.io.(p := e.io.p.(phase := Look, pc := 0)))
  }

  function SecondAndFinish(cfg: Config, env: Env, io: IO): Effect
    requires Connected(io) && io.p.phase == Second
  {
    var e := ExchangeSecond(cfg, env, io);
    if e.Blocks? || e.io.p.status.Failed? then e else Done(e.io.(p := Finish(cfg, e.io.p)))
  }

  /** `secondExchange` follows the first exchange of a window end, or one in the middle of a window. */
  predicate FollowsFirst(cfg: Config, p: Participant) {
    p.phase == First || (p.phase == Rest && !ReachedEndOfTimeWindow(cfg, p))
  }

  function BeginSecond(cfg: Config, p: Participant): Participant {
    if p.complete then Fail(p, Assertion)
    else if ReachedEndOfTimeWindow(cfg, p) then p.(phase := Second, pc := 0, required := {})
    else p.(phase := Rest, pc := 0, required := {})
  }

  function SecondExchange(cfg: Config, env: Env, io: IO): Effect
    requires Connected(io) && FollowsFirst(cfg, io.p)
  {
    var t := BeginSecond(cfg, io.p);
    if t.status.Failed? || t.phase != Second then Done(io.(p := t)) else SecondAndFinish(cfg, env, io.(p := t))
  }

  // ----- `Finish` in the two parts the code has -----

  /** The action the solver has to take next, and the time the scheme shows when it does. */
  function DemandedAt(cfg: Config, counted: Participant): seq<Required> {
    if cfg.implicitMode && !counted.converged then [Required(ReadCheckpoint, counted.clock.start)]
    else if cfg.implicitMode && IsCouplingOngoing(cfg, counted) then [Required(WriteCheckpoint, counted.clock.Time())]
    else []
  }

  /** The window counts as repeated until it converges. */
  function Counted(cfg: Config, p: Participant): Participant {
    if cfg.implicitMode && !p.converged then
      p.(windows := p.windows - 1, iterations := p.iterations + 1, required := p.required + {ReadCheckpoint})
    else if cfg.implicitMode then
      p.(complete := true, iterations := 1,
         required := p.required + if IsCouplingOngoing(cfg, p) then {WriteCheckpoint} else {})
    else p.(complete := true)
  }

  predicate ClosingFails(cfg: Config, c: Participant) {
    || (IsCouplingOngoing(cfg, c) && !c.received)
    || (!(cfg.implicitMode && !c.converged) && c.clock.progress != c.size && !c.clock.ReachedEnd(cfg.maxTime))
  }

  function Closed(cfg: Config, c: Participant): Participant {
    c.(clock := if cfg.implicitMode && !c.converged then c.clock.ResetProgress()
                else c.clock.CompleteTimeWindow(c.size),
       size := c.nextSize, phase := Rest, pc := 0, rounds := c.rounds + 1, actions := c.actions + DemandedAt(cfg, c))
  }

  lemma FinishIsCountAndClose(cfg: Config, p: Participant)
    ensures Finish(cfg, p) ==
            if (cfg.implicitMode && !p.converged && p.clock.progress <= 0) || ClosingFails(cfg, Counted(cfg, p))
            then Fail(p, Assertion) else Closed(cfg, Counted(cfg, p))
  {
  }

  /** Adding the time and beginning the exchange is one decision of the state machine. */
  lemma AdvanceIsBegin(cfg: Config, p: Participant, dt: int)
    ensures Advance(cfg, p, dt) == BeginExchange(cfg, p.(clock := p.clock.ProgressBy(dt)))
  {
  }

  /** The decisions between the exchanges are those of the state machine. */
  lemma TurnsAreCalls(cfg: Config, p: Participant)
    ensures p.phase == Init ==> Turn(cfg, p) == p.(phase := Rest, pc := 0)
    ensures p.phase == First ==> Turn(cfg, p) == BeginSecond(cfg, p)
    ensures p.phase == Second ==>
              Turn(cfg, p) == if WantsMoreData(cfg, p) then p.(phase := Look, pc := 0) else Finish(cfg, p)
    ensures p.phase == Look ==> Turn(cfg, p) == Finish(cfg, p)
  {
  }

  /** The actions of the last exchange are forgotten when the next one begins. */
  lemma FirstExchangeForgetsActions(cfg: Config, env: Env, io: IO)
    requires Connected(io) && io.p.phase == Rest
    ensures FirstExchange(cfg, env, io.(p := io.p.(required := {}))) == FirstExchange(cfg, env, io)
  {
    assert BeginExchange(cfg, io.p.(required := {})) == BeginExchange(cfg, io.p);
  }

  // ----- prefixes of the loops over all partners -----

  predicate BeginsWith(loop: Block, b: Block) { loop == b || (loop.Then? && BeginsWith(loop.first, b)) }

  lemma {:induction false} ReceivesBegin(links: seq<Link>, i: nat, n: nat)
    requires i <= n <= |links|
    ensures BeginsWith(ReceiveAll(links, n), ReceiveAll(links, i))
    ensures BeginsWith(ReceiveInitials(links, n), ReceiveInitials(links, i))
  {
    if i < n { ReceivesBegin(links, i, n - 1); }
  }
}
