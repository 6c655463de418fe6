/** A hub and its spokes connected by FIFO channels, running in any order. */
module Star {
  import opened Scheme
  import opened Choreography
  import opened Lockstep
  import opened Turns

  datatype Who = Hub | Spoke(index: nat)

  /** `up[i]` and `down[i]` hold the messages under way between the hub and spoke `i`. */
  datatype System = System(hub: Participant, spokes: seq<Participant>, up: seq<seq<Message>>, down: seq<seq<Message>>)

  function Initial(cfg: Config): System {
    var n := |cfg.links|;
    System(Start(cfg, true, cfg.links),
           seq(n, i requires 0 <= i < n => Start(cfg, false, [cfg.links[i]])),
           seq(n, _ => []), seq(n, _ => []))
  }

  predicate Sized(cfg: Config, s: System) { |s.spokes| == |s.up| == |s.down| == |cfg.links| }

  predicate Exists(s: System, who: Who) { who.Spoke? ==> who.index < |s.spokes| }

  function Get(s: System, who: Who): Participant
    requires Exists(s, who)
  {
    if who.Hub? then s.hub else s.spokes[who.index]
  }

  function Put(s: System, who: Who, p: Participant): System
    requires Exists(s, who)
  {
    if who.Hub? then s.(hub := p) else s.(spokes := s.spokes[who.index := p])
  }

  /** The channel behind a link of a participant. */
  function ChannelOf(who: Who, link: nat): nat { if who.Hub? then link else who.index }

  function Inbox(s: System, who: Who, link: nat): seq<Message>
    requires ChannelOf(who, link) < |s.up| && |s.up| == |s.down|
  {
    if who.Hub? then s.up[link] else s.down[who.index]
  }

  function Sent(s: System, who: Who, link: nat, m: Message): System
    requires ChannelOf(who, link) < |s.up| && |s.up| == |s.down|
  {
    if who.Hub? then s.(down := s.down[link := s.down[link] + [m]])
    else s.(up := s.up[who.index := s.up[who.index] + [m]])
  }

  function Taken(s: System, who: Who, link: nat): System
    requires ChannelOf(who, link) < |s.up| && |s.up| == |s.down| && Inbox(s, who, link) != []
  {
    if who.Hub? then s.(up := s.up[link := s.up[link][1..]])
    else s.(down := s.down[who.index := s.down[who.index][1..]])
  }

  /** A participant can take a step unless it is finished, failed or waits for a message. */
  predicate Enabled(cfg: Config, env: Env, s: System, who: Who, dt: int)
    requires Sized(cfg, s)
  {
    Exists(s, who) &&
    var p := Get(s, who);
    p.status.Running? && |p.links| >= 1 &&
    if p.phase == Rest then
      IsCouplingOngoing(cfg, p) && LegalStep(cfg, p, dt) && FollowsEnv(cfg, HereAt(cfg, env, p.rounds), p, dt)
    else
      var ops := Plan(cfg, p);
      p.pc < |ops| ==>
        LinkOf(ops[p.pc]) < |p.logs| && ChannelOf(who, LinkOf(ops[p.pc])) < |s.up|
        && (IsReceive(ops[p.pc]) ==> Inbox(s, who, LinkOf(ops[p.pc])) != [])
  }

  function Step(cfg: Config, env: Env, s: System, who: Who, dt: int): System
    requires Sized(cfg, s) && Enabled(cfg, env, s, who, dt)
  {
    var p := Get(s, who);
    if p.phase == Rest then Put(s, who, Advance(cfg, p, dt))
    else if p.pc >= |Plan(cfg, p)| then Put(s, who, Turn(cfg, p))
    else
      var op := Plan(cfg, p)[p.pc];
      if IsSend(op) then Sent(Put(s, who, Send(p, op)), who, LinkOf(op), Outgoing(p, op))
      else if IsReceive(op) then Taken(Put(s, who, Receive(cfg, p, op, Inbox(s, who, LinkOf(op))[0])), who, LinkOf(op))
      else Put(s, who, Local(cfg, env, p, op))
  }

  // ----- one direction of a log -----

  function Side(log: seq<Event>, up: bool): seq<Message> {
    if log == [] then []
    else Side(log[..|log|-1], up) + if log[|log|-1].up == up then [log[|log|-1].msg] else []
  }

  lemma SideSnoc(log: seq<Event>, e: Event, up: bool)
    ensures Side(log + [e], up) == Side(log, up) + if e.up == up then [e.msg] else []
  {
    assert (log + [e])[..|log|] == log;
  }

  lemma {:induction false} SidePrefix(a: seq<Event>, b: seq<Event>, up: bool)
    requires a <= b
    ensures Side(a, up) <= Side(b, up)
    decreases |b|
  {
    if |a| < |b| {
      SidePrefix(a, b[..|b|-1], up);
    } else {
      assert a == b;
    }
  }

  lemma PrefixesOfOne<T>(a: seq<T>, b: seq<T>, c: seq<T>)
    requires a <= c && b <= c && |a| <= |b|
    ensures a <= b
  {
    assert a == c[..|a|];
  }

  /** If both ends of a link follow the same stream, the next message in the channel is the one the receiver expects. */
  lemma NextMessage(mine: seq<Event>, other: seq<Event>, stream: seq<Event>, e: Event, inbox: seq<Message>)
    requires mine + [e] <= stream && other <= stream && inbox != []
    requires Side(other, e.up) == Side(mine, e.up) + inbox
    ensures inbox[0] == e.msg
  {
    SenderIsAhead(mine, other, stream, e, inbox);
    PrefixesOfOne(mine + [e], other, stream);
    SidePrefix(mine + [e], other, e.up);
    SideSnoc(mine, e, e.up);
    assert inbox[0] == Side(other, e.up)[|Side(mine, e.up)|];
  }

  lemma SenderIsAhead(mine: seq<Event>, other: seq<Event>, stream: seq<Event>, e: Event, inbox: seq<Message>)
    requires mine + [e] <= stream && other <= stream && inbox != []
    requires Side(other, e.up) == Side(mine, e.up) + inbox
    ensures |mine| < |other|
  {
    if |other| <= |mine| {
      PrefixesOfOne(mine, mine + [e], mine + [e]);
      PrefixesOfOne(other, mine, stream);
      SidePrefix(other, mine, e.up);
    }
  }

  // ----- the invariant of the system -----

  /** The participants are the configured ones. */
  predicate Wired(cfg: Config, s: System) {
    && Sized(cfg, s)
    && s.hub.hub && s.hub.links == cfg.links && |s.hub.logs| == |cfg.links|
    && forall i: nat :: i < |s.spokes| ==>
         !s.spokes[i].hub && s.spokes[i].links == [cfg.links[i]] && |s.spokes[i].logs| == 1
  }

  /** A channel holds what one end has sent and the other has not received yet, in order. */
  predicate ChannelInv(hubLog: seq<Event>, spokeLog: seq<Event>, up: seq<Message>, down: seq<Message>) {
    && Side(spokeLog, true) == Side(hubLog, true) + up
    && Side(hubLog, false) == Side(spokeLog, false) + down
  }

  predicate Channels(s: System)
    requires |s.spokes| == |s.up| == |s.down| == |s.hub.logs|
    requires forall i: nat :: i < |s.spokes| ==> |s.spokes[i].logs| == 1
  {
    forall i: nat :: i < |s.spokes| ==> ChannelInv(s.hub.logs[i], s.spokes[i].logs[0], s.up[i], s.down[i])
  }

  predicate Locals(cfg: Config, env: Env, s: System) {
    Inv(cfg, env, s.hub) && forall i: nat :: i < |s.spokes| ==> Inv(cfg, env, s.spokes[i])
  }

  // ----- errors -----

  /** A round that ends with an error: a strict measure fails in the last allowed iteration, or the
      first participant repeats a window with another size. */
  predicate BadRound(cfg: Config, env: Env, k: nat) {
    cfg.implicitMode
    && (StrictFailure(cfg, After(cfg, env, k).iterations, Results(cfg, env, k))
        || (cfg.firstSetsSize && !Done(cfg, env, k) && Len(cfg, env, k + 1) != Len(cfg, env, k)))
  }

  /** The hub completes every good round and fails in the first bad one. */
  predicate FailureInv(cfg: Config, env: Env, hub: Participant) {
    && (forall k: nat :: k < hub.rounds ==> !BadRound(cfg, env, k))
    && (hub.status.Failed? ==> BadRound(cfg, env, hub.rounds))
    && (hub.status.Running? && cfg.implicitMode && Decided(cfg, hub) ==>
          !StrictFailure(cfg, After(cfg, env, hub.rounds).iterations, Results(cfg, env, hub.rounds)))
  }

  predicate SpokesRun(s: System) { forall i: nat :: i < |s.spokes| ==> s.spokes[i].status.Running? }

  predicate SystemInv(cfg: Config, env: Env, s: System) {
    Wired(cfg, s) && Locals(cfg, env, s) && Channels(s) && SpokesRun(s) && FailureInv(cfg, env, s.hub)
  }

  lemma StartFails(cfg: Config, env: Env)
    ensures FailureInv(cfg, env, Start(cfg, true, cfg.links))
  {
  }

  lemma InitialChannels(cfg: Config)
    requires ValidConfig(cfg)
    ensures Wired(cfg, Initial(cfg)) && Channels(Initial(cfg)) && SpokesRun(Initial(cfg))
  {
  }

  lemma InitialLocals(cfg: Config, env: Env)
    requires ValidConfig(cfg)
    ensures Locals(cfg, env, Initial(cfg))
  {
    StartInv(cfg, env, true, cfg.links);
    var s := Initial(cfg);
    forall i: nat | i < |s.spokes| ensures Inv(cfg, env, s.spokes[i]) {
      StartInv(cfg, env, false, [cfg.links[i]]);
      assert s.spokes[i] == Start(cfg, false, [cfg.links[i]]);
    }
  }

  lemma InitialInv(cfg: Config, env: Env)
    requires ValidConfig(cfg)
    ensures SystemInv(cfg, env, Initial(cfg))
  {
    InitialChannels(cfg);
    InitialLocals(cfg, env);
    StartFails(cfg, env);
  }

  // ----- both ends follow the stream of their link -----

  lemma Within<T>(seen: seq<T>, u: seq<T>, d: seq<T>, u': seq<T>, d': seq<T>)
    ensures var all := seen + u + d + u' + d';
            seen <= all && seen + u <= all && seen + u + d <= all && seen + u + d + u' <= all
  {
  }

  /** What a link has seen at the end of a plan belongs to the current or to the next round. */
  lemma SeenWithin(cfg: Config, hub: bool, phase: Phase, link: Link, h: Here, seen: seq<Event>)
    requires phase == Init ==> seen == InitialEvents(cfg, link)
    ensures Before(cfg, hub, phase, link, h, seen) + Duty(cfg, hub, phase, link, Current(phase, h))
         <= seen + UpEvents(cfg, link, h.r) + DownEvents(cfg, link, h.r) + UpEvents(cfg, link, h.next)
         + DownEvents(cfg, link, h.next)
  {
    var u, d := UpEvents(cfg, link, h.r), DownEvents(cfg, link, h.r);
    Within(seen, u, d, UpEvents(cfg, link, h.next), DownEvents(cfg, link, h.next));
    match phase
    case Init => assert [] + (seen + u) == seen + u && [] + (seen + []) == seen;
    case Rest => assert (seen + u) + [] == seen + u && seen + [] == seen;
    case First =>
    case Second => assert (seen + u + d) + [] == seen + u + d;
    case Look =>
  }
}
