/** The messages of one link, written down once for both of its ends, and the proof that every
    plan of a participant performs exactly its part of them on each of its links. */
module Choreography {
  import opened Scheme

  /** What is decided in one round: its length, its end and whether it completes the window. */
  datatype Round = Round(len: int, end: int, done: bool)

  function RoundAt(cfg: Config, env: Env, k: nat): Round {
    Round(Len(cfg, env, k), EndTime(cfg, env, k), Done(cfg, env, k))
  }

  // ----- the messages of a link in the order of the protocol -----

  function EventWhen(c: bool, e: Event): seq<Event> { if c then [e] else [] }

  function UpEvents(cfg: Config, link: Link, r: Round): seq<Event> {
    EventWhen(cfg.firstSetsSize, Event(true, Dt(r.len))) + EventWhen(link.upData, Event(true, Data(r.end)))
  }

  function DownEvents(cfg: Config, link: Link, r: Round): seq<Event> {
    EventWhen(cfg.implicitMode, Event(false, Converged(r.done))) + EventWhen(link.downData, Event(false, Data(r.end)))
  }

  function InitialEvents(cfg: Config, link: Link): seq<Event> {
    var up := EventWhen(link.upInit, Event(true, Data(0)));
    var down := EventWhen(link.downInit, Event(false, Data(0)));
    if cfg.kind == Serial then down + up else up + down
  }

  /** All messages before round `k`. */
  function Stream(cfg: Config, env: Env, link: Link, k: nat): seq<Event> {
    if k == 0 then InitialEvents(cfg, link)
    else
      var r := RoundAt(cfg, env, k - 1);
      Stream(cfg, env, link, k - 1) + UpEvents(cfg, link, r) + DownEvents(cfg, link, r)
  }

  lemma {:induction false} StreamGrows(cfg: Config, env: Env, link: Link, j: nat, k: nat)
    requires j <= k
    ensures Stream(cfg, env, link, j) <= Stream(cfg, env, link, k)
  {
    if j < k { StreamGrows(cfg, env, link, j, k - 1); }
  }

  // ----- the messages of a plan -----

  /** The event of an operation on `link`, if it has one; `r` is the round it belongs to. */
  function EventOf(hub: bool, phase: Phase, link: nat, r: Round, op: Op): seq<Event> {
    if LinkOf(op) != link then [] else
    match op
    case SendSize => [Event(!hub, Dt(r.len))]
    case ReceiveSize => [Event(hub, Dt(r.len))]
    case SendConvergence(_) => [Event(!hub, Converged(r.done))]
    case ReceiveConvergence => [Event(hub, Converged(r.done))]
    case SendData(_) => [Event(!hub, Data(if phase == Init then 0 else r.end))]
    case ReceiveData(_) => [Event(hub, Data(if phase == Init then 0 else r.end))]
    case ReceiveAhead => [Event(hub, Data(r.end))]
    case _ => []
  }

  function FlatMap<A, B>(f: A -> seq<B>, s: seq<A>): seq<B> {
    if s == [] then [] else FlatMap(f, s[..|s|-1]) + f(s[|s|-1])
  }

  lemma {:induction false} FlatMapConcat<A, B>(f: A -> seq<B>, a: seq<A>, b: seq<A>)
    ensures FlatMap(f, a + b) == FlatMap(f, a) + FlatMap(f, b)
    decreases |b|
  {
    if b == [] {
      assert a + b == a;
    } else {
      FlatMapConcat(f, a, b[..|b|-1]);
      assert (a + b)[..|a + b| - 1] == a + b[..|b|-1];
    }
  }

  lemma FlatMapOne<A, B>(f: A -> seq<B>, x: A)
    ensures FlatMap(f, [x]) == f(x)
  {
    assert [x][..0] == [];
  }

  lemma {:induction false} FlatMapPrefix<A, B>(f: A -> seq<B>, s: seq<A>, n: nat)
    requires n < |s|
    ensures FlatMap(f, s[..n + 1]) == FlatMap(f, s[..n]) + f(s[n])
    ensures FlatMap(f, s[..n + 1]) <= FlatMap(f, s)
  {
    var t := s[..n + 1];
    assert t[..n] == s[..n] && t[n] == s[n];
    assert s == t + s[n + 1..];
    FlatMapConcat(f, t, s[n + 1..]);
  }

  /** The events of a block, read off its program text. */
  function EventsOfBlock(f: Op -> seq<Event>, b: Block): seq<Event> {
    match b
    case Empty => []
    case One(op) => f(op)
    case Then(a, c) => EventsOfBlock(f, a) + EventsOfBlock(f, c)
  }

  lemma {:induction false} BlockIsItsOps(f: Op -> seq<Event>, b: Block)
    ensures FlatMap(f, Ops(b)) == EventsOfBlock(f, b)
  {
    match b
    case Empty =>
    case One(op) => FlatMapOne(f, op);
    case Then(a, c) =>
      BlockIsItsOps(f, a);
      BlockIsItsOps(f, c);
      FlatMapConcat(f, Ops(a), Ops(c));
  }

  // ----- loops over all links -----

  lemma ThenWhen(f: Op -> seq<Event>, a: Block, c: bool, op: Op)
    ensures EventsOfBlock(f, Then(a, When(c, op))) == EventsOfBlock(f, a) + if c then f(op) else []
  {
  }

  lemma {:induction false} ReceiveAllEvents(f: Op -> seq<Event>, links: seq<Link>, n: nat, link: nat)
    requires n <= |links| && link < |links| && forall j: nat :: j != link ==> f(ReceiveData(j)) == []
    ensures EventsOfBlock(f, ReceiveAll(links, n)) == if link < n
            && links[link].upData then f(ReceiveData(link)) else []
  {
    if n > 0 {
      ReceiveAllEvents(f, links, n - 1, link);
      ThenWhen(f, ReceiveAll(links, n - 1), links[n-1].upData, ReceiveData(n - 1));
    }
  }

  lemma {:induction false} SendAllEvents(f: Op -> seq<Event>, links: seq<Link>, n: nat, link: nat)
    requires n <= |links| && link < |links| && forall j: nat :: j != link ==> f(SendData(j)) == []
    ensures EventsOfBlock(f, SendAll(links, n)) == if link < n && links[link].downData then f(SendData(link)) else []
  {
    if n > 0 {
      SendAllEvents(f, links, n - 1, link);
      ThenWhen(f, SendAll(links, n - 1), links[n-1].downData, SendData(n - 1));
    }
  }

  lemma {:induction false} ReceiveInitialsEvents(f: Op -> seq<Event>, links: seq<Link>, n: nat, link: nat)
    requires n <= |links| && link < |links| && forall j: nat :: j != link ==> f(ReceiveData(j)) == []
    ensures EventsOfBlock(f, ReceiveInitials(links, n)) == if link < n
            && links[link].upInit then f(ReceiveData(link)) else []
  {
    if n > 0 {
      ReceiveInitialsEvents(f, links, n - 1, link);
      ThenWhen(f, ReceiveInitials(links, n - 1), links[n-1].upInit, ReceiveData(n - 1));
    }
  }

  lemma {:induction false} SendInitialsEvents(f: Op -> seq<Event>, links: seq<Link>, n: nat, link: nat)
    requires n <= |links| && link < |links| && forall j: nat :: j != link ==> f(SendData(j)) == []
    ensures EventsOfBlock(f, SendInitials(links, n)) == if link < n
            && links[link].downInit then f(SendData(link)) else []
  {
    if n > 0 {
      SendInitialsEvents(f, links, n - 1, link);
      ThenWhen(f, SendInitials(links, n - 1), links[n-1].downInit, SendData(n - 1));
    }
  }

  lemma {:induction false} SendConvergencesEvents(f: Op -> seq<Event>, n: nat, link: nat)
    requires forall j: nat :: j != link ==> f(SendConvergence(j)) == []
    ensures EventsOfBlock(f, SendConvergences(n)) == if link < n then f(SendConvergence(link)) else []
  {
    if n > 0 {
      SendConvergencesEvents(f, n - 1, link);
      ThenWhen(f, SendConvergences(n - 1), true, SendConvergence(n - 1));
    }
  }

  // ----- each plan performs its part of the protocol on each of its links -----

  /** The links of a participant: all for the hub, its own for a spoke. */
  predicate LinksOf(cfg: Config, hub: bool, links: seq<Link>) {
    |links| >= 1 && (cfg.kind != Multi || !hub ==> |links| == 1)
  }

  /** The messages a plan has to perform on a link. */
  function Duty(cfg: Config, hub: bool, phase: Phase, link: Link, r: Round): seq<Event> {
    match phase
    case Init => InitialEvents(cfg, link) + if cfg.kind == Serial && hub then UpEvents(cfg, link, r) else []
    case Rest => []
    case First => if cfg.kind == Serial && hub then DownEvents(cfg, link, r) else UpEvents(cfg, link, r)
    case Second => if cfg.kind == Serial && hub then [] else DownEvents(cfg, link, r)
    case Look => UpEvents(cfg, link, r)
  }

  /** An optional operation causes its event when it happens. */
  lemma WhenEvent(f: Op -> seq<Event>, c: bool, op: Op, e: Event)
    requires f(op) == [e]
    ensures EventsOfBlock(f, When(c, op)) == EventWhen(c, e)
  {
  }

  lemma NoEvent(f: Op -> seq<Event>, c: bool, op: Op)
    requires f(op) == []
    ensures EventsOfBlock(f, When(c, op)) == []
  {
  }

  lemma Regroup<T>(a: seq<T>, b: seq<T>, c: seq<T>, d: seq<T>)
    ensures (a + (b + c)) + ([] + (d + [])) == (a + b) + (c + d)
  {
  }

  lemma SerialHubInit(cfg: Config, links: seq<Link>, r: Round, f: Op -> seq<Event>)
    requires ValidConfig(cfg) && LinksOf(cfg, true, links) && cfg.kind == Serial
    requires forall op :: f(op) == EventOf(true, Init, 0, r, op)
    ensures EventsOfBlock(f, InitBlock(cfg, true, links)) == Duty(cfg, true, Init, links[0], r)
  {
    var l := links[0];
    var down := When(l.downInit, SendData(0));
    var up := When(l.upInit, ReceiveData(0));
    var size := When(cfg.firstSetsSize, ReceiveSize);
    var ahead := When(l.upData, ReceiveAhead);
    WhenEvent(f, l.downInit, SendData(0), Event(false, Data(0)));
    WhenEvent(f, l.upInit, ReceiveData(0), Event(true, Data(0)));
    WhenEvent(f, cfg.firstSetsSize, ReceiveSize, Event(true, Dt(r.len)));
    WhenEvent(f, l.upData, ReceiveAhead, Event(true, Data(r.end)));
    Regroup(EventsOfBlock(f, down), EventsOfBlock(f, up), EventsOfBlock(f, size), EventsOfBlock(f, ahead));
    ThreeBlocks(f, down, up, size);
    ThreeBlocks(f, One(TakeSize), ahead, One(Notify));
  }

  lemma ThreeBlocks(f: Op -> seq<Event>, a: Block, b: Block, c: Block)
    ensures EventsOfBlock(f, Three(a, b, c)) == EventsOfBlock(f, a) + (EventsOfBlock(f, b) + EventsOfBlock(f, c))
  {
  }

  lemma SerialHubBlocks(cfg: Config, phase: Phase, links: seq<Link>, r: Round, f: Op -> seq<Event>)
    requires ValidConfig(cfg) && LinksOf(cfg, true, links) && cfg.kind == Serial
    requires forall op :: f(op) == EventOf(true, phase, 0, r, op)
    ensures EventsOfBlock(f, BlockFor(cfg, phase, true, links)) == Duty(cfg, true, phase, links[0], r)
  {
    var l := links[0];
    match phase
    case Init => SerialHubInit(cfg, links, r, f);
    case Rest =>
    case First =>
      NoEvent(f, cfg.implicitMode, ImplicitStep);
      WhenEvent(f, cfg.implicitMode, SendConvergence(0), Event(false, Converged(r.done)));
      WhenEvent(f, l.downData, SendData(0), Event(false, Data(r.end)));
    case Second =>
    case Look =>
      WhenEvent(f, cfg.firstSetsSize, ReceiveSize, Event(true, Dt(r.len)));
      WhenEvent(f, l.upData, ReceiveAhead, Event(true, Data(r.end)));
  }

  lemma SpokeBlocks(cfg: Config, phase: Phase, links: seq<Link>, r: Round, f: Op -> seq<Event>)
    requires ValidConfig(cfg) && LinksOf(cfg, false, links) && phase != Look
    requires forall op :: f(op) == EventOf(false, phase, 0, r, op)
    ensures EventsOfBlock(f, BlockFor(cfg, phase, false, links)) == Duty(cfg, false, phase, links[0], r)
  {
    var l := links[0];
    match phase
    case Init =>
      NoEvent(f, l.downInit, Notify);
      WhenEvent(f, l.upInit, SendData(0), Event(true, Data(0)));
      WhenEvent(f, l.downInit, ReceiveData(0), Event(false, Data(0)));
    case Rest =>
    case First =>
      WhenEvent(f, cfg.firstSetsSize, SendSize, Event(true, Dt(r.len)));
      WhenEvent(f, l.upData, SendData(0), Event(true, Data(r.end)));
    case Second =>
      WhenEvent(f, cfg.implicitMode, ReceiveConvergence, Event(false, Converged(r.done)));
      WhenEvent(f, l.downData, ReceiveData(0), Event(false, Data(r.end)));
  }

  lemma InitialsInOrder(f: Op -> seq<Event>, cfg: Config, links: seq<Link>, up: seq<Event>, down: seq<Event>)
    requires LinksOf(cfg, true, links) && cfg.kind == Multi && f(Notify) == []
    requires EventsOfBlock(f, ReceiveInitials(links, |links|)) == up
    requires EventsOfBlock(f, SendInitials(links, |links|)) == down
    ensures EventsOfBlock(f, InitBlock(cfg, true, links)) == up + down + []
  {
    ThreeBlocks(f, ReceiveInitials(links, |links|), One(Notify), SendInitials(links, |links|));
    assert up + ([] + down) == up + down + [];
  }

  lemma HubReceivesInitials(links: seq<Link>, link: nat, r: Round, f: Op -> seq<Event>)
    requires link < |links|
    requires forall op :: f(op) == EventOf(true, Init, link, r, op)
    ensures EventsOfBlock(f, ReceiveInitials(links, |links|)) == EventWhen(links[link].upInit, Event(true, Data(0)))
  {
    ReceiveInitialsEvents(f, links, |links|, link);
  }

  lemma HubSendsInitials(links: seq<Link>, link: nat, r: Round, f: Op -> seq<Event>)
    requires link < |links|
    requires forall op :: f(op) == EventOf(true, Init, link, r, op)
    ensures EventsOfBlock(f, SendInitials(links, |links|)) == EventWhen(links[link].downInit, Event(false, Data(0)))
  {
    SendInitialsEvents(f, links, |links|, link);
  }

  lemma MultiHubInit(cfg: Config, links: seq<Link>, link: nat, r: Round, f: Op -> seq<Event>)
    requires LinksOf(cfg, true, links) && link < |links| && cfg.kind == Multi
    requires forall op :: f(op) == EventOf(true, Init, link, r, op)
    ensures EventsOfBlock(f, InitBlock(cfg, true, links)) == Duty(cfg, true, Init, links[link], r)
  {
    HubReceivesInitials(links, link, r, f);
    HubSendsInitials(links, link, r, f);
    var l := links[link];
    InitialsInOrder(f, cfg, links, EventWhen(l.upInit, Event(true, Data(0))),
                    EventWhen(l.downInit, Event(false, Data(0))));
  }

  lemma ParallelHubInit(cfg: Config, links: seq<Link>, r: Round, f: Op -> seq<Event>)
    requires LinksOf(cfg, true, links) && |links| >= 1 && cfg.kind == Parallel
    requires forall op :: f(op) == EventOf(true, Init, 0, r, op)
    ensures EventsOfBlock(f, InitBlock(cfg, true, links)) == Duty(cfg, true, Init, links[0], r)
  {
    var l := links[0];
    NoEvent(f, l.upInit, Notify);
    WhenEvent(f, l.upInit, ReceiveData(0), Event(true, Data(0)));
    WhenEvent(f, l.downInit, SendData(0), Event(false, Data(0)));
  }

  lemma StarHubFirst(cfg: Config, links: seq<Link>, link: nat, r: Round, f: Op -> seq<Event>)
    requires ValidConfig(cfg) && LinksOf(cfg, true, links) && link < |links| && cfg.kind != Serial
    requires forall op :: f(op) == EventOf(true, First, link, r, op)
    ensures EventsOfBlock(f, FirstBlock(cfg, true, links)) == Duty(cfg, true, First, links[link], r)
  {
    ReceiveAllEvents(f, links, |links|, link);
  }

  lemma StarHubSecond(cfg: Config, links: seq<Link>, link: nat, r: Round, f: Op -> seq<Event>)
    requires ValidConfig(cfg) && LinksOf(cfg, true, links) && link < |links| && cfg.kind != Serial
    requires forall op :: f(op) == EventOf(true, Second, link, r, op)
    ensures EventsOfBlock(f, SecondBlock(cfg, true, links)) == Duty(cfg, true, Second, links[link], r)
  {
    var a, c := When(cfg.implicitMode, ImplicitStep), SendAll(links, |links|);
    var b := if cfg.implicitMode then SendConvergences(|links|) else Empty;
    ThreeBlocks(f, a, b, c);
    NoEvent(f, cfg.implicitMode, ImplicitStep);
    SendAllEvents(f, links, |links|, link);
    HubTellsAll(f, cfg.implicitMode, links, link, r);
  }

  lemma HubTellsAll(f: Op -> seq<Event>, implicitMode: bool, links: seq<Link>, link: nat, r: Round)
    requires link < |links| && forall op :: f(op) == EventOf(true, Second, link, r, op)
    ensures EventsOfBlock(f, if implicitMode then SendConvergences(|links|) else Empty)
            == EventWhen(implicitMode, Event(false, Converged(r.done)))
  {
    SendConvergencesEvents(f, |links|, link);
  }

  lemma StarHubBlocks(cfg: Config, phase: Phase, links: seq<Link>, link: nat, r: Round, f: Op -> seq<Event>)
    requires ValidConfig(cfg) && LinksOf(cfg, true, links) && link < |links| && cfg.kind != Serial && phase != Look
    requires forall op :: f(op) == EventOf(true, phase, link, r, op)
    ensures EventsOfBlock(f, BlockFor(cfg, phase, true, links)) == Duty(cfg, true, phase, links[link], r)
  {
    match phase
    case Init =>
      if cfg.kind == Parallel { ParallelHubInit(cfg, links, r, f); } else { MultiHubInit(cfg, links, link, r, f); }
    case Rest =>
    case First => StarHubFirst(cfg, links, link, r, f);
    case Second => StarHubSecond(cfg, links, link, r, f);
  }

  function EventsOf(hub: bool, phase: Phase, link: nat, r: Round, ops: seq<Op>): seq<Event> {
    FlatMap((op: Op) => EventOf(hub, phase, link, r, op), ops)
  }

  lemma BlocksPerform(cfg: Config, hub: bool, phase: Phase, links: seq<Link>, link: nat, r: Round, f: Op -> seq<Event>)
    requires ValidConfig(cfg) && LinksOf(cfg, hub, links) && link < |links|
    requires phase == Look ==> cfg.kind == Serial && hub
    requires forall op :: f(op) == EventOf(hub, phase, link, r, op)
    ensures EventsOfBlock(f, BlockFor(cfg, phase, hub, links)) == Duty(cfg, hub, phase, links[link], r)
  {
    if !hub {
      SpokeBlocks(cfg, phase, links, r, f);
    } else if cfg.kind == Serial {
      SerialHubBlocks(cfg, phase, links, r, f);
    } else {
      StarHubBlocks(cfg, phase, links, link, r, f);
    }
  }

  /** Every plan performs exactly its part of the protocol on each of its links. */
  lemma PlansPerformProtocol(cfg: Config, hub: bool, phase: Phase, links: seq<Link>, link: nat, r: Round)
    requires ValidConfig(cfg) && LinksOf(cfg, hub, links) && link < |links|
    requires phase == Look ==> cfg.kind == Serial && hub
    ensures EventsOf(hub, phase, link, r, PlanFor(cfg, phase, hub, links)) == Duty(cfg, hub, phase, links[link], r)
  {
    var f := (op: Op) => EventOf(hub, phase, link, r, op);
    BlockIsItsOps(f, BlockFor(cfg, phase, hub, links));
    BlocksPerform(cfg, hub, phase, links, link, r, f);
  }
}
