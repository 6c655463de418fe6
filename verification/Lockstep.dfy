/** The invariant of one participant: its whole state is a function of the number of completed
    rounds, the position in its plan and the progress of its solver in the window. */
module Lockstep {
  import opened Scheme
  import opened Choreography
  import opened Places

  // ----- what is known about a round -----

  /** `last` is the verdict of the round before, `next` the round after this one. */
  datatype Here = Here(s: Shared, ongoing: bool, last: bool, r: Round, next: Round)

  function HereAt(cfg: Config, env: Env, k: nat): Here {
    Here(After(cfg, env, k), Ongoing(cfg, env, k), k > 0 && Done(cfg, env, k - 1), RoundAt(cfg, env, k),
         RoundAt(cfg, env, k + 1))
  }

  function Truncated(cfg: Config, t: int): int { if cfg.maxTime == UNDEFINED then t else Min(t, cfg.maxTime) }

  function NextShared(s: Shared, r: Round): Shared {
    if r.done then Shared(s.windows + 1, 1, r.end) else s.(iterations := s.iterations + 1)
  }

  predicate Facts(cfg: Config, h: Here) {
    && h.s.windows >= 1 && h.s.iterations >= 1
    && (cfg.maxTime != UNDEFINED ==> h.s.start <= cfg.maxTime)
    && h.r.end == h.s.start + h.r.len
    && h.ongoing == SharedOngoing(cfg, h.s)
    && (h.ongoing ==> h.r.len > 0 && h.r.end == Truncated(cfg, h.r.end))
    && (!cfg.firstSetsSize ==> h.r.end == Truncated(cfg, h.s.start + cfg.windowSize))
    && (!cfg.implicitMode ==> h.r.done && h.s.iterations == 1)
    && var n := NextShared(h.s, h.r);
       h.next.end == n.start + h.next.len
       && (!cfg.firstSetsSize ==> h.next.end == Truncated(cfg, n.start + cfg.windowSize))
       && (SharedOngoing(cfg, n) ==> h.next.len > 0 && h.next.end == Truncated(cfg, h.next.end))
  }

  lemma {:induction false} StartIsBounded(cfg: Config, env: Env, k: nat)
    requires ValidConfig(cfg)
    ensures var s := After(cfg, env, k);
            s.windows >= 1 && s.iterations >= 1 && s.start >= 0 && (cfg.maxTime != UNDEFINED ==> s.start <= cfg.maxTime)
            && (!cfg.implicitMode ==> s.iterations == 1)
  {
    if k > 0 { StartIsBounded(cfg, env, k - 1); }
  }

  lemma HereHolds(cfg: Config, env: Env, k: nat)
    requires ValidConfig(cfg)
    ensures Facts(cfg, HereAt(cfg, env, k))
    ensures HereAt(cfg, env, k + 1).s == NextShared(After(cfg, env, k), RoundAt(cfg, env, k))
  {
    StartIsBounded(cfg, env, k);
    StartIsBounded(cfg, env, k + 1);
  }

  // ----- checkpoints -----

  function LastWrite(a: seq<Required>): int {
    if a == [] then UNDEFINED
    else if a[|a|-1].action == WriteCheckpoint then a[|a|-1].time
    else LastWrite(a[..|a|-1])
  }

  function ReadsSinceWrite(a: seq<Required>): nat {
    if a == [] || a[|a|-1].action == WriteCheckpoint then 0 else 1 + ReadsSinceWrite(a[..|a|-1])
  }

  /** The required actions form write, read*, write, read*, ...; every read returns to the time of
      the latest write, and every write but the first lies later than the one before. */
  predicate SoundCheckpoints(a: seq<Required>) {
    a == [] ||
    (var front, last := a[..|a|-1], a[|a|-1];
     SoundCheckpoints(front)
     && if last.action == WriteCheckpoint then front == [] || last.time > LastWrite(front)
        else front != [] && last.time == LastWrite(front))
  }

  // ----- the invariant -----

  predicate SizeInv(cfg: Config, h: Here, p: Participant)
    requires |p.links| >= 1
  {
    if !cfg.firstSetsSize then p.size == p.nextSize == cfg.windowSize
    else if !p.hub then
      && p.nextSize == UNDEFINED
      && p.size == if p.phase == Second || (p.phase == First && p.pc > 0) then h.r.len else UNDEFINED
    else
      var n := SizeIndex(p.links[0]);
      match p.phase
      case Init =>
        && p.nextSize == (if p.pc > n then h.r.len else UNDEFINED)
        && p.size == if p.pc > n + 1 then h.r.len else UNDEFINED
      case Rest => h.ongoing ==> p.size == p.nextSize == h.r.len
      case Look =>
        && p.size == h.r.len
        && p.nextSize == (if p.pc > 0 then h.next.len else h.r.len)
        && (p.pc > 0 && !h.r.done ==> h.next.len == h.r.len)
      case _ => p.size == p.nextSize == h.r.len
  }

  predicate ClockInv(cfg: Config, h: Here, p: Participant) {
    && p.clock.start == h.s.start
    && p.iterations == h.s.iterations
    && match p.phase
       case Init => p.windows == h.s.windows && p.clock.progress == 0 && h.ongoing
       case Rest =>
         && p.windows == h.s.windows
         && 0 <= p.clock.progress
         && (if h.ongoing then p.clock.progress < h.r.len else p.clock.progress == 0)
         && (cfg.firstSetsSize && !p.hub ==> p.clock.progress == 0)
       case _ =>
         && h.ongoing && p.windows == h.s.windows + 1 && p.clock.progress == h.r.len
         && (p.phase == Look ==> SharedOngoing(cfg, NextShared(h.s, h.r)))
  }

  /** The verdict of the current round is known to the participant. */
  predicate Decided(cfg: Config, p: Participant) {
    if p.hub && cfg.kind == Serial then p.phase == Second || p.phase == Look || (p.phase == First && p.pc > 0)
    else p.phase == Second && p.pc > 0
  }

  predicate VerdictInv(cfg: Config, h: Here, p: Participant) {
    cfg.implicitMode ==> p.converged == if Decided(cfg, p) then h.r.done else h.last
  }

  predicate ReceivedInv(cfg: Config, p: Participant)
    requires |p.links| >= 1 && p.pc <= |Plan(cfg, p)|
  {
    p.received <==>
      if p.phase == Rest then p.clock.progress == 0 && ReceivedBefore(cfg, p)
      else Executed(cfg, p, Notify) || (p.phase == Second && Notifies(cfg, p.hub, p.links, First))
  }

  /** The latest exchange of a participant has brought the data for its window; the serial second participant waits for
      it only if it goes on. */
  predicate ReceivedBefore(cfg: Config, p: Participant)
    requires |p.links| >= 1
  {
    if p.rounds == 0 then Notifies(cfg, p.hub, p.links, Init) else cfg.kind == Serial && p.hub ==> IsCouplingOngoing(cfg, p)
  }

  /** A window counts as complete until the next time step. */
  predicate CompleteInv(h: Here, p: Participant) {
    p.complete <==> p.phase == Rest && p.clock.progress == 0 && h.last
  }

  /** The solver has to write or read a checkpoint before its next time step. */
  predicate MustCheckpoint(cfg: Config, h: Here, p: Participant) {
    cfg.implicitMode && h.ongoing && (p.phase == Init || (p.phase == Rest && p.clock.progress == 0))
  }

  /** The action of the latest requirement, as long as it is pending. */
  function Demanded(pending: bool, actions: seq<Required>): set<Action> {
    if pending && actions != [] then {actions[|actions|-1].action} else {}
  }

  predicate ActionsInv(cfg: Config, h: Here, p: Participant) {
    && SoundCheckpoints(p.actions)
    && (cfg.implicitMode <==> p.actions != [])
    && (cfg.implicitMode && h.ongoing ==>
          LastWrite(p.actions) == h.s.start && ReadsSinceWrite(p.actions) == h.s.iterations - 1)
    && p.required == Demanded(MustCheckpoint(cfg, h, p), p.actions)
  }

  predicate StampOk(cfg: Config, s: Stamp) {
    s.sentAt == Truncated(cfg, s.storedAt) && (s.ahead == 0 || cfg.firstSetsSize ==> s.sentAt == s.storedAt)
  }

  predicate StampsInv(cfg: Config, p: Participant) {
    forall i :: 0 <= i < |p.stamps| ==> StampOk(cfg, p.stamps[i])
  }

  predicate StateInv(cfg: Config, h: Here, p: Participant)
    requires |p.links| >= 1
  {
    SizeInv(cfg, h, p) && ClockInv(cfg, h, p) && VerdictInv(cfg, h, p) && ActionsInv(cfg, h, p) && CompleteInv(h, p)
  }

  /** The messages of a link that precede a plan. */
  function Before(cfg: Config, hub: bool, phase: Phase, link: Link, h: Here, seen: seq<Event>): seq<Event> {
    var ahead := cfg.kind == Serial && hub;
    var all := seen + UpEvents(cfg, link, h.r) + DownEvents(cfg, link, h.r);
    match phase
    case Init => []
    case Rest => if ahead && h.ongoing then seen + UpEvents(cfg, link, h.r) else seen
    case First => if ahead then seen + UpEvents(cfg, link, h.r) else seen
    case Second => if ahead then all else seen + UpEvents(cfg, link, h.r)
    case Look => all
  }

  /** The round whose messages a plan exchanges. */
  function Current(phase: Phase, h: Here): Round { if phase == Look then h.next else h.r }

  predicate LogInv(cfg: Config, h: Here, seen: seq<Event>, p: Participant, link: nat)
    requires |p.links| >= 1 && p.pc <= |Plan(cfg, p)| && link < |p.links| == |p.logs|
  {
    p.logs[link] == Before(cfg, p.hub, p.phase, p.links[link], h, seen)
                    + EventsOf(p.hub, p.phase, link, Current(p.phase, h), Plan(cfg, p)[..p.pc])
  }

  predicate Shape(cfg: Config, p: Participant) {
    && LinksOf(cfg, p.hub, p.links)
    && |p.logs| == |p.links|
    && p.pc <= |Plan(cfg, p)|
    && (p.phase == Init ==> p.rounds == 0)
    && (p.phase == Rest ==> p.pc == 0)
    && (p.phase == Look ==> cfg.kind == Serial && p.hub)
    && p.status != Failed(Assertion)
  }

  /** The invariant of a participant in the round `h`, whose links have seen the messages `seen` before. */
  predicate InvAt(cfg: Config, h: Here, seen: seq<seq<Event>>, p: Participant) {
    && Shape(cfg, p)
    && |seen| == |p.links|
    && (p.status.Running? ==> StateInv(cfg, h, p) && ReceivedInv(cfg, p))
    && StampsInv(cfg, p)
    && forall link: nat :: link < |p.links| ==> LogInv(cfg, h, seen[link], p, link)
  }

  function Seen(cfg: Config, env: Env, links: seq<Link>, k: nat): seq<seq<Event>> {
    seq(|links|, i requires 0 <= i < |links| => Stream(cfg, env, links[i], k))
  }

  predicate Inv(cfg: Config, env: Env, p: Participant) {
    && InvAt(cfg, HereAt(cfg, env, p.rounds), Seen(cfg, env, p.links, p.rounds), p)
    && (p.rounds > 0 ==> Ongoing(cfg, env, p.rounds - 1))
  }

  lemma StartState(cfg: Config, h: Here, hub: bool, links: seq<Link>)
    requires ValidConfig(cfg) && LinksOf(cfg, hub, links) && h.s == Shared(1, 1, 0) && h.ongoing && !h.last
    ensures StateInv(cfg, h, Start(cfg, hub, links))
  {
    var p := Start(cfg, hub, links);
    if cfg.implicitMode { assert p.actions[..0] == []; }
  }

  lemma StartShape(cfg: Config, h: Here, seen: seq<seq<Event>>, hub: bool, links: seq<Link>)
    requires ValidConfig(cfg) && LinksOf(cfg, hub, links) && |seen| == |links|
    ensures var p := Start(cfg, hub, links);
            && Shape(cfg, p) && ReceivedInv(cfg, p) && StampsInv(cfg, p)
            && forall link: nat :: link < |links| ==> LogInv(cfg, h, seen[link], p, link)
  {
    assert Plan(cfg, Start(cfg, hub, links))[..0] == [];
  }

  lemma StartInv(cfg: Config, env: Env, hub: bool, links: seq<Link>)
    requires ValidConfig(cfg) && LinksOf(cfg, hub, links)
    ensures Inv(cfg, env, Start(cfg, hub, links))
  {
    StartState(cfg, HereAt(cfg, env, 0), hub, links);
    StartShape(cfg, HereAt(cfg, env, 0), Seen(cfg, env, links, 0), hub, links);
  }

  // ----- operations -----

  lemma NextEvent(cfg: Config, p: Participant, link: nat, r: Round)
    requires LinksOf(cfg, p.hub, p.links) && p.pc < |Plan(cfg, p)|
    ensures EventsOf(p.hub, p.phase, link, r, Plan(cfg, p)[..p.pc + 1])
         == EventsOf(p.hub, p.phase, link, r, Plan(cfg, p)[..p.pc])
         + EventOf(p.hub, p.phase, link, r, Plan(cfg, p)[p.pc])
  {
    FlatMapPrefix((op: Op) => EventOf(p.hub, p.phase, link, r, op), Plan(cfg, p), p.pc);
  }

  lemma Appended<T>(log: seq<T>, front: seq<T>, done: seq<T>, x: seq<T>)
    requires log == front + done
    ensures log + x == front + (done + x)
  {
  }

  /** Advancing by one operation keeps the log of a link if exactly the event of the operation is logged. */
  lemma LogKeeps(cfg: Config, h: Here, seen: seq<Event>, p: Participant, q: Participant, link: nat)
    requires Shape(cfg, p) && link < |p.links| && p.pc < |Plan(cfg, p)| && LogInv(cfg, h, seen, p, link)
    requires q.hub == p.hub && q.links == p.links && q.phase == p.phase && q.pc == p.pc + 1 && |q.logs| == |p.logs|
    requires q.logs[link] == p.logs[link] + EventOf(p.hub, p.phase, link, Current(p.phase, h), Plan(cfg, p)[p.pc])
    ensures LogInv(cfg, h, seen, q, link)
  {
    var r := Current(p.phase, h);
    NextEvent(cfg, p, link, r);
    Appended(p.logs[link], Before(cfg, p.hub, p.phase, p.links[link], h, seen),
             EventsOf(p.hub, p.phase, link, r, Plan(cfg, p)[..p.pc]),
             EventOf(p.hub, p.phase, link, r, Plan(cfg, p)[p.pc]));
  }

  lemma ReceivedKeeps(cfg: Config, p: Participant, q: Participant)
    requires Shape(cfg, p) && p.pc < |Plan(cfg, p)| && ReceivedInv(cfg, p)
    requires q.hub == p.hub && q.links == p.links && q.phase == p.phase && q.pc == p.pc + 1 && q.complete == p.complete
    requires q.received == (p.received || Plan(cfg, p)[p.pc] == Notify)
    ensures ReceivedInv(cfg, q)
  {
    var ops := Plan(cfg, p);
    assert ops[..q.pc] == ops[..p.pc] + [ops[p.pc]];
  }

  /** What every operation may rely on. */
  predicate Ready(cfg: Config, h: Here, p: Participant, op: Op) {
    && ValidConfig(cfg) && Facts(cfg, h) && LinksOf(cfg, p.hub, p.links) && p.status.Running? && StateInv(cfg, h, p)
    && Place(cfg, p.hub, p.links, p.phase, p.pc, op)
    && |p.logs| == |p.links|
    && (p.phase == Init ==> h.s.start == 0)
  }

  lemma ReadyHere(cfg: Config, h: Here, seen: seq<seq<Event>>, p: Participant)
    requires ValidConfig(cfg) && Facts(cfg, h) && InvAt(cfg, h, seen, p) && p.status.Running? && p.pc < |Plan(cfg, p)|
    requires p.phase == Init ==> h.s.start == 0
    ensures Ready(cfg, h, p, Plan(cfg, p)[p.pc])
  {
    OpPlace(cfg, p.hub, p.links, p.phase, p.pc);
  }

  /** The event the protocol foresees for an operation. */
  function EventHere(h: Here, p: Participant, op: Op): seq<Event> {
    EventOf(p.hub, p.phase, LinkOf(op), Current(p.phase, h), op)
  }

  /** The only failure of a receive: the first participant repeats a window with another size. */
  predicate RepeatsWithOtherSize(cfg: Config, h: Here, p: Participant, op: Op) {
    op.ReceiveSize? && cfg.implicitMode && p.phase == Look && !h.r.done && h.next.len != h.r.len
  }

  /** What one operation changes, whatever it is. */
  predicate Stepped(cfg: Config, h: Here, p: Participant, q: Participant, op: Op) {
    && q.hub == p.hub && q.links == p.links && q.phase == p.phase && q.pc == p.pc + 1 && q.status == p.status
    && q.windows == p.windows && q.iterations == p.iterations && q.clock == p.clock && q.rounds == p.rounds
    && q.actions == p.actions && q.required == p.required && q.complete == p.complete
    && q.size == (match op case SendSize => h.r.len case TakeSize => p.nextSize case _ => p.size)
    && q.nextSize == (match op
                      case SendSize => UNDEFINED
                      case ReceiveSize => Current(p.phase, h).len
                      case _ => p.nextSize)
    && q.converged == (if op.ImplicitStep? || op.ReceiveConvergence? then h.r.done else p.converged)
    && q.received == (p.received || op == Notify)
    && (op.ReceiveSize? ==> !RepeatsWithOtherSize(cfg, h, p, op))
  }

  /** Exactly the event of the operation is logged. */
  predicate LogsEvent(h: Here, p: Participant, q: Participant, op: Op) {
    && |q.logs| == |p.logs|
    && forall link: nat :: link < |p.logs| ==>
         (q.logs[link] == p.logs[link] + EventOf(p.hub, p.phase, link, Current(p.phase, h), op))
  }

  lemma SteppedSize(cfg: Config, h: Here, p: Participant, q: Participant, op: Op)
    requires LinksOf(cfg, p.hub, p.links) && ValidConfig(cfg) && Facts(cfg, h)
    requires Place(cfg, p.hub, p.links, p.phase, p.pc, op)
    requires SizeInv(cfg, h, p) && Stepped(cfg, h, p, q, op)
    ensures SizeInv(cfg, h, q)
  {
  }

  lemma SteppedVerdict(cfg: Config, h: Here, p: Participant, q: Participant, op: Op)
    requires |p.links| >= 1 && Place(cfg, p.hub, p.links, p.phase, p.pc, op)
    requires VerdictInv(cfg, h, p) && Stepped(cfg, h, p, q, op)
    ensures VerdictInv(cfg, h, q)
  {
  }

  lemma SteppedClock(cfg: Config, h: Here, p: Participant, q: Participant, op: Op)
    requires ClockInv(cfg, h, p) && Stepped(cfg, h, p, q, op)
    ensures ClockInv(cfg, h, q)
  {
  }

  lemma SteppedActions(cfg: Config, h: Here, p: Participant, q: Participant, op: Op)
    requires ActionsInv(cfg, h, p) && Stepped(cfg, h, p, q, op)
    ensures ActionsInv(cfg, h, q)
  {
  }

  lemma SteppedState(cfg: Config, h: Here, p: Participant, q: Participant, op: Op)
    requires Ready(cfg, h, p, op) && Stepped(cfg, h, p, q, op)
    ensures StateInv(cfg, h, q)
  {
    SteppedSize(cfg, h, p, q, op);
    SteppedVerdict(cfg, h, p, q, op);
    SteppedClock(cfg, h, p, q, op);
    SteppedActions(cfg, h, p, q, op);
  }

  /** A participant sends what the protocol asks for. */
  lemma SendEvent(cfg: Config, h: Here, p: Participant, op: Op)
    requires Ready(cfg, h, p, op) && IsSend(op)
    ensures EventHere(h, p, op) == [Event(!p.hub, Outgoing(p, op))]
  {
  }

  lemma SendStep(cfg: Config, h: Here, p: Participant, op: Op)
    requires Ready(cfg, h, p, op) && IsSend(op)
    ensures Stepped(cfg, h, p, Send(p, op), op) && LogsEvent(h, p, Send(p, op), op)
  {
    SendEvent(cfg, h, p, op);
  }

  /** The message the protocol foresees for a receive. */
  function Expected(h: Here, p: Participant, op: Op): Message
    requires IsReceive(op)
  {
    EventHere(h, p, op)[0].msg
  }

  lemma ReceiveLogs(cfg: Config, h: Here, p: Participant, op: Op, q: Participant)
    requires Ready(cfg, h, p, op) && IsReceive(op)
    requires q.logs == p.logs[LinkOf(op) := p.logs[LinkOf(op)] + [Event(p.hub, Expected(h, p, op))]]
    ensures EventHere(h, p, op) == [Event(p.hub, Expected(h, p, op))] && LogsEvent(h, p, q, op)
  {
    forall link: nat | link < |p.logs|
      ensures q.logs[link] == p.logs[link] + EventOf(p.hub, p.phase, link, Current(p.phase, h), op)
    {
      if link != LinkOf(op) { assert p.logs[link] + [] == p.logs[link]; }
    }
  }

  lemma ReceiveSizeStep(cfg: Config, h: Here, p: Participant)
    requires ValidConfig(cfg) && Facts(cfg, h) && LinksOf(cfg, p.hub, p.links) && p.status.Running?
    requires |p.logs| == |p.links|
    requires SizeInv(cfg, h, p) && VerdictInv(cfg, h, p) && ClockInv(cfg, h, p)
    requires Place(cfg, p.hub, p.links, p.phase, p.pc, Op.ReceiveSize)
    ensures var op := Op.ReceiveSize;
            var q := Receive(cfg, p, op, Expected(h, p, op));
            && q.logs == p.logs[0 := p.logs[0] + [Event(p.hub, Expected(h, p, op))]]
            && if RepeatsWithOtherSize(cfg, h, p, op)
               then q == Fail(q, SizeChanged) && SamePlan(p, q) && q.pc == p.pc + 1 && q.stamps == p.stamps
               else Stepped(cfg, h, p, q, op)
  {
  }

  lemma ReceiveConvergenceStep(cfg: Config, h: Here, p: Participant)
    requires Ready(cfg, h, p, Op.ReceiveConvergence)
    ensures var op := Op.ReceiveConvergence;
            var q := Receive(cfg, p, op, Expected(h, p, op));
            q.logs == p.logs[0 := p.logs[0] + [Event(p.hub, Expected(h, p, op))]] && Stepped(cfg, h, p, q, op)
  {
  }

  lemma ReceiveDataStep(cfg: Config, h: Here, p: Participant, op: Op)
    requires Ready(cfg, h, p, op) && (op.ReceiveData? || op.ReceiveAhead?)
    ensures var q := Receive(cfg, p, op, Expected(h, p, op));
            q.logs == p.logs[LinkOf(op) := p.logs[LinkOf(op)] + [Event(p.hub, Expected(h, p, op))]]
            && Stepped(cfg, h, p, q, op)
  {
  }

  lemma ReceiveStep(cfg: Config, h: Here, p: Participant, op: Op)
    requires Ready(cfg, h, p, op) && IsReceive(op)
    ensures EventHere(h, p, op) == [Event(p.hub, Expected(h, p, op))]
    ensures var q := Receive(cfg, p, op, Expected(h, p, op));
            if RepeatsWithOtherSize(cfg, h, p, op)
            then && q == Fail(q, SizeChanged) && SamePlan(p, q) && q.pc == p.pc + 1
                 && LogsEvent(h, p, q, op) && q.stamps == p.stamps
            else Stepped(cfg, h, p, q, op) && LogsEvent(h, p, q, op)
  {
    if op.ReceiveSize? { ReceiveSizeStep(cfg, h, p); }
    else if op.ReceiveConvergence? { ReceiveConvergenceStep(cfg, h, p); }
    else { ReceiveDataStep(cfg, h, p, op); }
    ReceiveLogs(cfg, h, p, op, Receive(cfg, p, op, Expected(h, p, op)));
  }

  lemma LocalStep(cfg: Config, env: Env, h: Here, p: Participant, op: Op)
    requires Ready(cfg, h, p, op) && !IsSend(op) && !IsReceive(op)
    requires cfg.implicitMode ==> h.r.done == Verdict(cfg, h.s.iterations, Results(cfg, env, p.rounds))
    requires op == Notify ==> !p.received
    ensures EventHere(h, p, op) == []
    ensures var q := Local(cfg, env, p, op);
            if op.ImplicitStep? && StrictFailure(cfg, h.s.iterations, Results(cfg, env, p.rounds))
            then q == Fail(p, StrictMeasure)
            else Stepped(cfg, h, p, q, op) && LogsEvent(h, p, q, op) && q.stamps == p.stamps
  {
  }

  /** When data is received without look-ahead the clock shows the end of the window, or the beginning of the run. */
  lemma ClockAtData(cfg: Config, h: Here, p: Participant)
    requires Facts(cfg, h) && ClockInv(cfg, h, p) && (p.phase == Init ==> h.s.start == 0)
    requires p.phase == Init || p.phase == First || p.phase == Second
    ensures p.clock.Time() == if p.phase == Init then 0 else h.r.end
    ensures Truncated(cfg, p.clock.Time()) == p.clock.Time()
  {
  }

  lemma DataExpected(cfg: Config, h: Here, p: Participant, op: Op)
    requires |p.links| >= 1 && Place(cfg, p.hub, p.links, p.phase, p.pc, op) && op.ReceiveData?
    ensures p.phase == Init || p.phase == First || p.phase == Second
    ensures Expected(h, p, op) == Data(if p.phase == Init then 0 else h.r.end)
  {
  }

  /** Data that is received without look-ahead is stored under the time at which it was sent. */
  lemma DataStamp(cfg: Config, h: Here, p: Participant, op: Op)
    requires |p.links| >= 1 && Facts(cfg, h) && ClockInv(cfg, h, p) && Place(cfg, p.hub, p.links, p.phase, p.pc, op)
    requires op.ReceiveData? && (p.phase == Init ==> h.s.start == 0)
    ensures Expected(h, p, op).Data?
    ensures StampOk(cfg, Stamp(Expected(h, p, op).sentAt, p.clock.ProgressBy(0).Time(), 0, RoundOf(p.phase, p.rounds)))
  {
    DataExpected(cfg, h, p, op);
    ClockAtData(cfg, h, p);
    assert p.clock.ProgressBy(0) == p.clock;
  }

  /** With look-ahead this holds unless the maximum time cuts the window short. */
  lemma AheadStamp(cfg: Config, h: Here, p: Participant)
    requires ValidConfig(cfg) && Facts(cfg, h) && LinksOf(cfg, p.hub, p.links)
    requires SizeInv(cfg, h, p) && ClockInv(cfg, h, p) && VerdictInv(cfg, h, p)
    requires Place(cfg, p.hub, p.links, p.phase, p.pc, Op.ReceiveAhead)
    ensures Expected(h, p, Op.ReceiveAhead).Data?
    ensures var ahead := LookAheadBy(cfg, p, Op.ReceiveAhead);
            StampOk(cfg, Stamp(Expected(h, p, Op.ReceiveAhead).sentAt, p.clock.ProgressBy(ahead).Time(), ahead,
                               RoundOf(p.phase, p.rounds)))
  {
    assert Expected(h, p, Op.ReceiveAhead) == Data(Current(p.phase, h).end);
  }

  lemma ReceiveStamp(cfg: Config, h: Here, p: Participant, op: Op)
    requires Ready(cfg, h, p, op) && (op.ReceiveData? || op.ReceiveAhead?)
    ensures Expected(h, p, op).Data?
    ensures var ahead := LookAheadBy(cfg, p, op);
            StampOk(cfg, Stamp(Expected(h, p, op).sentAt, p.clock.ProgressBy(ahead).Time(), ahead,
                               RoundOf(p.phase, p.rounds)))
  {
    if op.ReceiveData? { DataStamp(cfg, h, p, op); } else { AheadStamp(cfg, h, p); }
  }

  // ----- every operation keeps the invariant -----

  /** An operation keeps the invariant if it changes what it should and logs its event. */
  lemma OperationKeeps(cfg: Config, h: Here, seen: seq<seq<Event>>, p: Participant, q: Participant, op: Op)
    requires InvAt(cfg, h, seen, p) && p.status.Running? && p.pc < |Plan(cfg, p)| && op == Plan(cfg, p)[p.pc]
    requires Ready(cfg, h, p, op) && Stepped(cfg, h, p, q, op) && LogsEvent(h, p, q, op) && StampsInv(cfg, q)
    ensures InvAt(cfg, h, seen, q)
  {
    SteppedState(cfg, h, p, q, op);
    ReceivedKeeps(cfg, p, q);
    forall link: nat | link < |q.links| ensures LogInv(cfg, h, seen[link], q, link) {
      LogKeeps(cfg, h, seen[link], p, q, link);
    }
  }

  predicate SamePlan(p: Participant, q: Participant) {
    q.hub == p.hub && q.links == p.links && q.phase == p.phase && q.rounds == p.rounds
  }

  lemma FailedOperationKeeps(cfg: Config, h: Here, seen: seq<seq<Event>>, p: Participant, q: Participant, op: Op)
    requires InvAt(cfg, h, seen, p) && p.status.Running? && p.pc < |Plan(cfg, p)| && op == Plan(cfg, p)[p.pc]
    requires SamePlan(p, q) && q.pc == p.pc + 1 && LogsEvent(h, p, q, op) && q.stamps == p.stamps
    requires q.status == Failed(SizeChanged)
    ensures InvAt(cfg, h, seen, q)
  {
    forall link: nat | link < |q.links| ensures LogInv(cfg, h, seen[link], q, link) {
      LogKeeps(cfg, h, seen[link], p, q, link);
    }
  }

  lemma FailKeeps(cfg: Config, h: Here, seen: seq<seq<Event>>, p: Participant, why: Failure)
    requires InvAt(cfg, h, seen, p) && why != Assertion
    ensures InvAt(cfg, h, seen, Fail(p, why))
  {
    var q := Fail(p, why);
    assert Plan(cfg, q) == Plan(cfg, p);
    forall link: nat | link < |q.links| ensures LogInv(cfg, h, seen[link], q, link) {
      assert LogInv(cfg, h, seen[link], p, link);
    }
  }

  lemma SendKeeps(cfg: Config, h: Here, seen: seq<seq<Event>>, p: Participant, op: Op)
    requires InvAt(cfg, h, seen, p) && p.pc < |Plan(cfg, p)| && op == Plan(cfg, p)[p.pc] && Ready(cfg, h, p, op)
    requires IsSend(op)
    ensures InvAt(cfg, h, seen, Send(p, op))
  {
    SendStep(cfg, h, p, op);
    OperationKeeps(cfg, h, seen, p, Send(p, op), op);
  }

  lemma StampsKept(cfg: Config, h: Here, p: Participant, op: Op)
    requires Ready(cfg, h, p, op) && IsReceive(op) && StampsInv(cfg, p)
    ensures StampsInv(cfg, Receive(cfg, p, op, Expected(h, p, op)))
  {
    if op.ReceiveData? || op.ReceiveAhead? { ReceiveStamp(cfg, h, p, op); }
  }

  lemma ReceiveKeeps(cfg: Config, h: Here, seen: seq<seq<Event>>, p: Participant, op: Op)
    requires InvAt(cfg, h, seen, p) && p.pc < |Plan(cfg, p)| && op == Plan(cfg, p)[p.pc] && Ready(cfg, h, p, op)
    requires IsReceive(op)
    ensures InvAt(cfg, h, seen, Receive(cfg, p, op, Expected(h, p, op)))
  {
    ReceiveStep(cfg, h, p, op);
    StampsKept(cfg, h, p, op);
    if RepeatsWithOtherSize(cfg, h, p, op) {
      FailedOperationKeeps(cfg, h, seen, p, Receive(cfg, p, op, Expected(h, p, op)), op);
    } else {
      OperationKeeps(cfg, h, seen, p, Receive(cfg, p, op, Expected(h, p, op)), op);
    }
  }

  lemma LocalKeeps(cfg: Config, env: Env, h: Here, seen: seq<seq<Event>>, p: Participant, op: Op)
    requires InvAt(cfg, h, seen, p) && p.pc < |Plan(cfg, p)| && op == Plan(cfg, p)[p.pc] && Ready(cfg, h, p, op)
    requires !IsSend(op) && !IsReceive(op)
    requires cfg.implicitMode ==> h.r.done == Verdict(cfg, h.s.iterations, Results(cfg, env, p.rounds))
    ensures InvAt(cfg, h, seen, Local(cfg, env, p, op))
  {
    if op == Notify { NotReceivedYet(cfg, p); }
    LocalStep(cfg, env, h, p, op);
    if op.ImplicitStep? && StrictFailure(cfg, h.s.iterations, Results(cfg, env, p.rounds)) {
      FailKeeps(cfg, h, seen, p, StrictMeasure);
    } else {
      OperationKeeps(cfg, h, seen, p, Local(cfg, env, p, op), op);
    }
  }

  lemma NotReceivedYet(cfg: Config, p: Participant)
    requires Shape(cfg, p) && p.pc < |Plan(cfg, p)| && Plan(cfg, p)[p.pc] == Notify && ReceivedInv(cfg, p)
    ensures !p.received
  {
    NotifyIsNew(cfg, p);
    if p.phase == Second { OnlySecondNotifies(cfg, p); }
  }

  lemma OnlySecondNotifies(cfg: Config, p: Participant)
    requires Shape(cfg, p) && p.pc < |Plan(cfg, p)| && Plan(cfg, p)[p.pc] == Notify && p.phase == Second
    ensures !Notifies(cfg, p.hub, p.links, First)
  {
    NotifiedOnce(cfg, p.hub, p.links, First);
    NotifiedOnce(cfg, p.hub, p.links, Second);
    NotificationsAreOps(BlockFor(cfg, Second, p.hub, p.links));
  }
}
