/** Where each operation can stand in the plans of a participant. */
module Places {
  import opened Scheme
  import opened Choreography

  /** Number of operations of the initial exchange of a serial hub before the window size. */
  function SizeIndex(link: Link): nat { (if link.downInit then 1 else 0) + (if link.upInit then 1 else 0) }

  /** Operation `op` stands at position `pc` of the plan. */
  predicate Place(cfg: Config, hub: bool, links: seq<Link>, phase: Phase, pc: nat, op: Op)
    requires |links| >= 1
  {
    LinkOf(op) < |links| &&
    match op
    case SendSize => phase == First && !hub && cfg.firstSetsSize && pc == 0
    case ReceiveSize =>
      && cfg.kind == Serial && hub && cfg.firstSetsSize
      && ((phase == Init && pc == SizeIndex(links[0])) || (phase == Look && pc == 0))
    case TakeSize =>
      && cfg.kind == Serial && hub && phase == Init
      && pc == SizeIndex(links[0]) + if cfg.firstSetsSize then 1 else 0
    case ReceiveAhead =>
      && cfg.kind == Serial && hub
      && ((phase == Init && pc == SizeIndex(links[0]) + if cfg.firstSetsSize then 2 else 1)
          || (phase == Look && (cfg.firstSetsSize ==> pc == 1)))
    case ImplicitStep => hub && cfg.implicitMode && pc == 0 && phase == if cfg.kind == Serial then First else Second
    case SendConvergence(_) =>
      && hub && cfg.implicitMode && pc > 0
      && phase == if cfg.kind == Serial then First else Second
    case ReceiveConvergence => !hub && cfg.implicitMode && pc == 0 && phase == Second
    case SendData(_) =>
      || (phase == Init && (cfg.kind == Serial && hub ==> pc < SizeIndex(links[0])))
      || (hub && phase == (if cfg.kind == Serial then First else Second) && (cfg.implicitMode ==> pc > 0))
      || (!hub && phase == First && (cfg.firstSetsSize ==> pc > 0))
    case ReceiveData(_) =>
      || (phase == Init && (cfg.kind == Serial && hub ==> pc < SizeIndex(links[0])))
      || (hub && cfg.kind != Serial && phase == First)
      || (!hub && phase == Second && (cfg.implicitMode ==> pc > 0))
    case Notify =>
      || (phase == Init
          && (cfg.kind == Serial && hub ==> pc > SizeIndex(links[0]) + if cfg.firstSetsSize then 1 else 0))
      || (hub && phase == (if cfg.kind == Serial then Look else First) && (cfg.firstSetsSize ==> pc > 0))
      || (!hub && phase == Second && (cfg.implicitMode ==> pc > 0))
  }

  predicate Placed(cfg: Config, hub: bool, links: seq<Link>, phase: Phase, from: nat, b: Block)
    requires |links| >= 1
    decreases b
  {
    match b
    case Empty => true
    case One(op) => Place(cfg, hub, links, phase, from, op)
    case Then(a, c) => Placed(cfg, hub, links, phase, from, a) && Placed(cfg, hub, links, phase, from + |Ops(a)|, c)
  }

  lemma {:induction false} PlacedAt(cfg: Config, hub: bool, links: seq<Link>, phase: Phase, from: nat, b: Block, i: nat)
    requires |links| >= 1 && Placed(cfg, hub, links, phase, from, b) && i < |Ops(b)|
    ensures Place(cfg, hub, links, phase, from + i, Ops(b)[i])
    decreases b
  {
    if b.Then? {
      if i < |Ops(b.first)| {
        PlacedAt(cfg, hub, links, phase, from, b.first, i);
      } else {
        PlacedAt(cfg, hub, links, phase, from + |Ops(b.first)|, b.second, i - |Ops(b.first)|);
      }
    }
  }

  lemma {:induction false} LoopsPlaced(cfg: Config, links: seq<Link>, phase: Phase, from: nat, n: nat)
    requires n <= |links| && 1 <= |links| && cfg.kind != Serial
    ensures phase == First ==> Placed(cfg, true, links, phase, from, ReceiveAll(links, n))
    ensures phase == Second && (cfg.implicitMode ==> from > 0) ==>
              Placed(cfg, true, links, phase, from, SendAll(links, n))
    ensures phase == Init ==> Placed(cfg, true, links, phase, from, ReceiveInitials(links, n))
    ensures phase == Init ==> Placed(cfg, true, links, phase, from, SendInitials(links, n))
    ensures phase == Second && cfg.implicitMode && from > 0 ==>
              Placed(cfg, true, links, phase, from, SendConvergences(n))
  {
    if n > 0 { LoopsPlaced(cfg, links, phase, from, n - 1); }
  }

  function Width(c: bool): nat { if c then 1 else 0 }

  lemma ThreePlaced(cfg: Config, hub: bool, links: seq<Link>, phase: Phase, from: nat,
                    c0: bool, op0: Op, c1: bool, op1: Op, c2: bool, op2: Op)
    requires |links| >= 1
    requires c0 ==> Place(cfg, hub, links, phase, from, op0)
    requires c1 ==> Place(cfg, hub, links, phase, from + Width(c0), op1)
    requires c2 ==> Place(cfg, hub, links, phase, from + Width(c0) + Width(c1), op2)
    ensures Placed(cfg, hub, links, phase, from, Three(When(c0, op0), When(c1, op1), When(c2, op2)))
    ensures |Ops(Three(When(c0, op0), When(c1, op1), When(c2, op2)))| == Width(c0) + Width(c1) + Width(c2)
  {
    var a, b, c := When(c0, op0), When(c1, op1), When(c2, op2);
    assert |Ops(a)| == Width(c0) && |Ops(b)| == Width(c1) && |Ops(c)| == Width(c2);
    assert Placed(cfg, hub, links, phase, from + Width(c0) + Width(c1), c);
    assert Placed(cfg, hub, links, phase, from + Width(c0) + |Ops(b)|, c);
    assert Placed(cfg, hub, links, phase, from + Width(c0), Then(b, c));
  }

  lemma SerialHubInitPlaced(cfg: Config, links: seq<Link>)
    requires ValidConfig(cfg) && LinksOf(cfg, true, links) && cfg.kind == Serial
    ensures Placed(cfg, true, links, Init, 0, InitBlock(cfg, true, links))
  {
    var l := links[0];
    ThreePlaced(cfg, true, links, Init, 0, l.downInit, SendData(0), l.upInit, ReceiveData(0), cfg.firstSetsSize,
                ReceiveSize);
    var from := SizeIndex(l) + Width(cfg.firstSetsSize);
    ThreePlaced(cfg, true, links, Init, from, true, TakeSize, l.upData, ReceiveAhead, true, Notify);
  }

  lemma SerialHubPlaced(cfg: Config, links: seq<Link>, phase: Phase)
    requires ValidConfig(cfg) && LinksOf(cfg, true, links) && cfg.kind == Serial
    ensures Placed(cfg, true, links, phase, 0, BlockFor(cfg, phase, true, links))
  {
    var l := links[0];
    match phase
    case Init => SerialHubInitPlaced(cfg, links);
    case Rest =>
    case First =>
      ThreePlaced(cfg, true, links, phase, 0, cfg.implicitMode, ImplicitStep, cfg.implicitMode, SendConvergence(0),
                  l.downData, SendData(0));
    case Second =>
    case Look => ThreePlaced(cfg, true, links, phase, 0, cfg.firstSetsSize, ReceiveSize, l.upData, ReceiveAhead, true,
                             Notify);
  }

  lemma SpokePlaced(cfg: Config, links: seq<Link>, phase: Phase)
    requires ValidConfig(cfg) && LinksOf(cfg, false, links) && phase != Look
    ensures Placed(cfg, false, links, phase, 0, BlockFor(cfg, phase, false, links))
  {
    var l := links[0];
    match phase
    case Init =>
      if cfg.kind == Serial {
        ThreePlaced(cfg, false, links, phase, 0, l.downInit, ReceiveData(0), l.downInit, Notify, l.upInit, SendData(0));
      } else {
        ThreePlaced(cfg, false, links, phase, 0, l.upInit, SendData(0), l.downInit, ReceiveData(0),
                    cfg.kind == Multi || l.downInit, Notify);
      }
    case Rest =>
    case First =>
    case Second => ThreePlaced(cfg, false, links, phase, 0, cfg.implicitMode, ReceiveConvergence, l.downData,
                               ReceiveData(0), true, Notify);
  }

  lemma StarHubPlaced(cfg: Config, links: seq<Link>, phase: Phase)
    requires ValidConfig(cfg) && LinksOf(cfg, true, links) && phase != Look && cfg.kind != Serial
    ensures Placed(cfg, true, links, phase, 0, BlockFor(cfg, phase, true, links))
  {
    var n := |links|;
    match phase
    case Init =>
      var l := links[0];
      ThreePlaced(cfg, true, links, phase, 0, l.upInit, ReceiveData(0), l.upInit, Notify, l.downInit, SendData(0));
      LoopsPlaced(cfg, links, phase, 0, n);
      LoopsPlaced(cfg, links, phase, |Ops(ReceiveInitials(links, n))| + 1, n);
    case Rest =>
    case First => LoopsPlaced(cfg, links, phase, 0, n);
    case Second =>
      if cfg.implicitMode {
        LoopsPlaced(cfg, links, phase, 1, n);
        LoopsPlaced(cfg, links, phase, 1 + |Ops(SendConvergences(n))|, n);
      } else {
        LoopsPlaced(cfg, links, phase, 0, n);
      }
  }

  lemma OpPlace(cfg: Config, hub: bool, links: seq<Link>, phase: Phase, pc: nat)
    requires ValidConfig(cfg) && LinksOf(cfg, hub, links)
    requires phase == Look ==> cfg.kind == Serial && hub
    requires pc < |PlanFor(cfg, phase, hub, links)|
    ensures Place(cfg, hub, links, phase, pc, PlanFor(cfg, phase, hub, links)[pc])
  {
    if !hub {
      SpokePlaced(cfg, links, phase);
    } else if cfg.kind == Serial {
      SerialHubPlaced(cfg, links, phase);
    } else {
      StarHubPlaced(cfg, links, phase);
    }
    PlacedAt(cfg, hub, links, phase, 0, BlockFor(cfg, phase, hub, links), pc);
  }

  // ----- the receive notification -----

  function Notifications(b: Block): nat {
    match b
    case Empty => 0
    case One(op) => if op == Notify then 1 else 0
    case Then(a, c) => Notifications(a) + Notifications(c)
  }

  lemma {:induction false} NotificationsAreOps(b: Block)
    ensures multiset(Ops(b))[Notify] == Notifications(b)
  {
    if b.Then? {
      NotificationsAreOps(b.first);
      NotificationsAreOps(b.second);
    }
  }

  lemma {:induction false} LoopsDoNotNotify(links: seq<Link>, n: nat)
    requires n <= |links|
    ensures Notifications(ReceiveAll(links, n)) == Notifications(SendAll(links, n)) == 0
    ensures Notifications(ReceiveInitials(links, n)) == Notifications(SendInitials(links, n)) == 0
    ensures Notifications(SendConvergences(n)) == 0
  {
    if n > 0 { LoopsDoNotNotify(links, n - 1); }
  }

  /** Whether the plan of a phase contains the notification that data was received. */
  predicate Notifies(cfg: Config, hub: bool, links: seq<Link>, phase: Phase)
    requires |links| >= 1
  {
    Notifications(BlockFor(cfg, phase, hub, links)) > 0
  }

  /** Whether the initial exchange counts as having brought data. */
  predicate InitialDataArrives(cfg: Config, hub: bool, links: seq<Link>)
    requires |links| >= 1
  {
    match cfg.kind
    case Serial => hub || links[0].downInit
    case Parallel => if hub then links[0].upInit else links[0].downInit
    case Multi => true
  }

  lemma ThreeNotify(a: Block, b: Block, c: Block)
    ensures Notifications(Three(a, b, c)) == Notifications(a) + Notifications(b) + Notifications(c)
  {
  }

  lemma SerialHubNotifies(cfg: Config, links: seq<Link>)
    requires |links| >= 1 && cfg.kind == Serial
    ensures Notifications(InitBlock(cfg, true, links)) == 1
  {
    var l := links[0];
    ThreeNotify(When(l.downInit, SendData(0)), When(l.upInit, ReceiveData(0)), When(cfg.firstSetsSize, ReceiveSize));
    ThreeNotify(One(TakeSize), When(l.upData, ReceiveAhead), One(Notify));
  }

  /** No plan notifies twice, and of the two exchanges exactly one notifies, unless a serial hub looks ahead. */
  lemma NotifiedOnceInit(cfg: Config, hub: bool, links: seq<Link>)
    requires |links| >= 1
    ensures Notifications(InitBlock(cfg, hub, links)) == if InitialDataArrives(cfg, hub, links) then 1 else 0
  {
    var l := links[0];
    LoopsDoNotNotify(links, |links|);
    if hub && cfg.kind == Serial {
      SerialHubNotifies(cfg, links);
    } else {
      ThreeNotify(When(l.downInit, ReceiveData(0)), When(l.downInit, Notify), When(l.upInit, SendData(0)));
      ThreeNotify(When(l.upInit, ReceiveData(0)), When(l.upInit, Notify), When(l.downInit, SendData(0)));
      ThreeNotify(When(l.upInit, SendData(0)), When(l.downInit, ReceiveData(0)), When(l.downInit, Notify));
      ThreeNotify(When(l.upInit, SendData(0)), When(l.downInit, ReceiveData(0)), One(Notify));
      ThreeNotify(ReceiveInitials(links, |links|), One(Notify), SendInitials(links, |links|));
    }
  }

  lemma NotifiedOnceSecond(cfg: Config, hub: bool, links: seq<Link>)
    requires |links| >= 1
    ensures Notifications(SecondBlock(cfg, hub, links)) == if hub then 0 else 1
  {
    var l := links[0];
    LoopsDoNotNotify(links, |links|);
    ThreeNotify(When(cfg.implicitMode, ImplicitStep), if cfg.implicitMode then SendConvergences(|links|) else Empty,
                SendAll(links, |links|));
    ThreeNotify(When(cfg.implicitMode, ReceiveConvergence), When(l.downData, ReceiveData(0)), One(Notify));
  }

  lemma NotifiedOnce(cfg: Config, hub: bool, links: seq<Link>, phase: Phase)
    requires |links| >= 1
    ensures Notifications(BlockFor(cfg, phase, hub, links)) <= 1
    ensures phase == Init ==> (Notifies(cfg, hub, links, Init) <==> InitialDataArrives(cfg, hub, links))
    ensures phase == First ==> (Notifies(cfg, hub, links, First) <==> hub && cfg.kind != Serial)
    ensures phase == Second ==> (Notifies(cfg, hub, links, Second) <==> !hub)
    ensures phase == Look ==> Notifies(cfg, hub, links, Look)
  {
    var l := links[0];
    match phase
    case Init => NotifiedOnceInit(cfg, hub, links);
    case Rest =>
    case First =>
      LoopsDoNotNotify(links, |links|);
      ThreeNotify(When(cfg.implicitMode, ImplicitStep), When(cfg.implicitMode, SendConvergence(0)),
                  When(l.downData, SendData(0)));
    case Second => NotifiedOnceSecond(cfg, hub, links);
    case Look => ThreeNotify(When(cfg.firstSetsSize, ReceiveSize), When(l.upData, ReceiveAhead), One(Notify));
  }

  lemma UniqueElement<T>(s: seq<T>, x: T, i: nat)
    requires i < |s| && s[i] == x && multiset(s)[x] <= 1
    ensures x !in s[..i]
  {
    assert s == s[..i] + ([x] + s[i + 1..]);
    assert multiset(s) == multiset(s[..i]) + multiset([x] + s[i + 1..]);
  }

  predicate Executed(cfg: Config, p: Participant, op: Op)
    requires |p.links| >= 1 && p.pc <= |Plan(cfg, p)|
  {
    op in Plan(cfg, p)[..p.pc]
  }

  lemma NotifyIsNew(cfg: Config, p: Participant)
    requires |p.links| >= 1 && p.pc < |Plan(cfg, p)| && Plan(cfg, p)[p.pc] == Notify
    ensures !Executed(cfg, p, Notify)
  {
    NotifiedOnce(cfg, p.hub, p.links, p.phase);
    NotificationsAreOps(BlockFor(cfg, p.phase, p.hub, p.links));
    UniqueElement(Plan(cfg, p), Notify, p.pc);
  }

  lemma NotifyExecutedAtEnd(cfg: Config, p: Participant)
    requires |p.links| >= 1 && p.pc == |Plan(cfg, p)|
    ensures Executed(cfg, p, Notify) <==> Notifies(cfg, p.hub, p.links, p.phase)
  {
    NotificationsAreOps(BlockFor(cfg, p.phase, p.hub, p.links));
    assert Plan(cfg, p)[..p.pc] == Plan(cfg, p);
  }
}
