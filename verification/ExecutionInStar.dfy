/** What a call of one participant does is what consecutive steps of that participant do to the whole star. */
module ExecutionInStar {
  import opened Scheme
  import opened Star
  import opened StarSafety
  import opened StarSteps
  import opened StarTheorems
  import opened StarWork
  import opened Execution

  /** A participant of the star with the contents of its channels. */
  function IOof(s: System, who: Who): IO
    requires Exists(s, who) && |s.up| == |s.down| && (who.Spoke? ==> who.index < |s.up|)
  {
    if who.Hub? then IO(s.hub, s.up, s.down) else IO(s.spokes[who.index], [s.down[who.index]], [s.up[who.index]])
  }

  lemma StepIsOperation(cfg: Config, env: Env, s: System, who: Who, dt: int)
    requires Wired(cfg, s) && Enabled(cfg, env, s, who, dt)
    requires Get(s, who).phase != Rest && Get(s, who).pc < |Plan(cfg, Get(s, who))|
    ensures Connected(IOof(s, who))
    ensures var op := Plan(cfg, Get(s, who))[Get(s, who).pc];
            LinkOf(op) < |IOof(s, who).inbox|
            && Exists(Step(cfg, env, s, who, dt), who)
               && |Step(cfg, env, s, who, dt).up| == |Step(cfg, env, s, who, dt).down|
            && ExecuteOp(cfg, env, op, IOof(s, who)) == Done(IOof(Step(cfg, env, s, who, dt), who))
  {
    var p := Get(s, who);
    var op := Plan(cfg, p)[p.pc];
    if IsSend(op) {
      PutAndSent(s, who, Send(p, op), LinkOf(op), Outgoing(p, op));
    } else if IsReceive(op) {
      PutAndTaken(s, who, Receive(cfg, p, op, Inbox(s, who, LinkOf(op))[0]), LinkOf(op));
    }
  }

  /** A message that is sent appears in the outbox of the participant. */
  lemma PutAndSent(s: System, who: Who, q: Participant, link: nat, m: Message)
    requires |s.spokes| == |s.up| == |s.down| && Exists(s, who) && ChannelOf(who, link) < |s.up|
    requires who.Spoke? ==> link == 0
    ensures var io, t := IOof(s, who), Sent(Put(s, who, q), who, link, m);
            Exists(t, who) && |t.up| == |t.down| == |s.up| && link < |io.outbox|
            && IOof(t, who) == IO(q, io.inbox, io.outbox[link := io.outbox[link] + [m]])
  {
  }

  lemma PutAndTaken(s: System, who: Who, q: Participant, link: nat)
    requires |s.spokes| == |s.up| == |s.down| && Exists(s, who) && ChannelOf(who, link) < |s.up|
    requires (who.Spoke? ==> link == 0) && Inbox(s, who, link) != []
    ensures var io, t := IOof(s, who), Taken(Put(s, who, q), who, link);
            Exists(t, who) && |t.up| == |t.down| == |s.up| && link < |io.inbox| && io.inbox[link] == Inbox(s, who, link)
            && IOof(t, who) == IO(q, io.inbox[link := io.inbox[link][1..]], io.outbox)
  {
  }

  // ----- consecutive steps of one participant -----

  function Once(cfg: Config, env: Env, s: System, who: Who): Outcome {
    if Sized(cfg, s) && Enabled(cfg, env, s, who, 0) then Reached(Step(cfg, env, s, who, 0)) else Impossible
  }

  function AndOnce(cfg: Config, env: Env, who: Who): Outcome -> Outcome {
    (t: Outcome) => if t.Reached? then Once(cfg, env, t.s, who) else Impossible
  }

  function Iterate<T>(f: T -> T, x: T, n: nat): T {
    if n == 0 then x else f(Iterate(f, x, n - 1))
  }

  lemma {:induction false} IterateTwice<T>(f: T -> T, x: T, n: nat, m: nat)
    ensures Iterate(f, x, n + m) == Iterate(f, Iterate(f, x, n), m)
  {
    if m > 0 { IterateTwice(f, x, n, m - 1); }
  }

  /** The system after `n` steps of one participant, if all of them are possible. */
  function Alone(cfg: Config, env: Env, s: System, who: Who, n: nat): Outcome {
    Iterate(AndOnce(cfg, env, who), Reached(s), n)
  }

  lemma AloneMore(cfg: Config, env: Env, s: System, who: Who, n: nat)
    ensures Alone(cfg, env, s, who, n + 1) == AndOnce(cfg, env, who)(Alone(cfg, env, s, who, n))
  {
  }

  lemma AloneTwice(cfg: Config, env: Env, s: System, who: Who, n: nat, m: nat, t: System)
    requires Alone(cfg, env, s, who, n) == Reached(t)
    ensures Alone(cfg, env, s, who, n + m) == Alone(cfg, env, t, who, m)
  {
    IterateTwice(AndOnce(cfg, env, who), Reached(s), n, m);
  }

  lemma OnceContinues(cfg: Config, env: Env, choices: seq<Choice>, s: System, who: Who)
    requires Run(cfg, env, choices) == Reached(s) && Once(cfg, env, s, who).Reached?
    ensures Run(cfg, env, choices + [Choice(who, 0)]) == Once(cfg, env, s, who)
  {
    assert (choices + [Choice(who, 0)])[..|choices|] == choices;
  }

  lemma OnceKeeps(cfg: Config, env: Env, s: System, who: Who, t: System)
    requires ValidConfig(cfg) && SystemInv(cfg, env, s) && Once(cfg, env, s, who) == Reached(t)
    ensures SystemInv(cfg, env, t)
  {
    StepKeeps(cfg, env, s, who, 0);
  }

  lemma {:induction false} IterateKeeps<T>(f: T -> T, x: T, n: nat, holds: T -> bool)
    requires holds(x) && forall y :: holds(y) ==> holds(f(y))
    ensures holds(Iterate(f, x, n))
  {
    if n > 0 { IterateKeeps(f, x, n - 1, holds); }
  }

  lemma AloneKeeps(cfg: Config, env: Env, s: System, who: Who, n: nat, t: System)
    requires ValidConfig(cfg) && SystemInv(cfg, env, s) && Alone(cfg, env, s, who, n) == Reached(t)
    ensures SystemInv(cfg, env, t)
  {
    var holds := (o: Outcome) => o.Reached? ==> SystemInv(cfg, env, o.s);
    forall o | holds(o) ensures holds(AndOnce(cfg, env, who)(o)) {
      if o.Reached? && Once(cfg, env, o.s, who).Reached? {
        OnceKeeps(cfg, env, o.s, who, Once(cfg, env, o.s, who).s);
      }
    }
    IterateKeeps(AndOnce(cfg, env, who), Reached(s), n, holds);
  }

  /** Steps of one participant continue a run. */
  lemma {:induction false} AloneContinues(cfg: Config, env: Env, choices: seq<Choice>, s: System, who: Who, n: nat)
    returns (more: seq<Choice>)
    requires Run(cfg, env, choices) == Reached(s) && Alone(cfg, env, s, who, n).Reached?
    ensures |more| == |choices| + n && choices <= more
    ensures Run(cfg, env, more) == Alone(cfg, env, s, who, n)
  {
    more := choices;
    if n > 0 {
      var front := AloneContinues(cfg, env, choices, s, who, n - 1);
      OnceContinues(cfg, env, front, Alone(cfg, env, s, who, n - 1).s, who);
      more := front + [Choice(who, 0)];
    }
  }

  // ----- the operations of a block, one after another -----

  predicate OpsWithin(ops: seq<Op>, n: nat) { forall i :: 0 <= i < |ops| ==> LinkOf(ops[i]) < n }

  function ExecuteAll(cfg: Config, env: Env, ops: seq<Op>, io: IO): (e: Effect)
    requires Connected(io) && OpsWithin(ops, |io.inbox|)
    ensures e.Done? ==> Connected(e.io) && e.io.p.links == io.p.links
  {
    if ops == [] then Done(io)
    else
      var e := ExecuteOp(cfg, env, ops[0], io);
      if e.Done? then ExecuteAll(cfg, env, ops[1..], e.io) else Blocks
  }

  lemma {:induction false} OpsWithinLinks(b: Block, n: nat)
    requires LinksWithin(b, n)
    ensures OpsWithin(Ops(b), n)
  {
    if b.Then? {
      OpsWithinLinks(b.first, n);
      OpsWithinLinks(b.second, n);
    }
  }

  lemma {:induction false} ExecuteBoth(cfg: Config, env: Env, a: seq<Op>, b: seq<Op>, io: IO)
    requires Connected(io) && OpsWithin(a, |io.inbox|) && OpsWithin(b, |io.inbox|)
    ensures OpsWithin(a + b, |io.inbox|)
    ensures var e := ExecuteAll(cfg, env, a, io);
            ExecuteAll(cfg, env, a + b, io) == if e.Done? then ExecuteAll(cfg, env, b, e.io) else Blocks
    decreases |a|
  {
    if a == [] {
      assert a + b == b;
    } else {
      assert (a + b)[1..] == a[1..] + b;
      var e := ExecuteOp(cfg, env, a[0], io);
      if e.Done? { ExecuteBoth(cfg, env, a[1..], b, e.io); }
    }
  }

  /** Executing a block is executing its operations. */
  lemma {:induction false} BlockIsAllOps(cfg: Config, env: Env, b: Block, io: IO)
    requires Connected(io) && LinksWithin(b, |io.inbox|)
    ensures OpsWithin(Ops(b), |io.inbox|) && Execute(cfg, env, b, io) == ExecuteAll(cfg, env, Ops(b), io)
  {
    OpsWithinLinks(b, |io.inbox|);
    match b
    case Empty =>
    case One(op) => assert Ops(b)[1..] == [];
    case Then(a, c) =>
      BlockIsAllOps(cfg, env, a, io);
      OpsWithinLinks(c, |io.inbox|);
      var e := Execute(cfg, env, a, io);
      ExecuteBoth(cfg, env, Ops(a), Ops(c), io);
      if e.Done? { BlockIsAllOps(cfg, env, c, e.io); }
  }

  lemma {:induction false} NothingAfterFailure(cfg: Config, env: Env, ops: seq<Op>, io: IO)
    requires Connected(io) && OpsWithin(ops, |io.inbox|) && io.p.status.Failed?
    ensures ExecuteAll(cfg, env, ops, io) == Done(io)
    decreases |ops|
  {
    if ops != [] { NothingAfterFailure(cfg, env, ops[1..], io); }
  }

  // ----- an exchange -----

  /** A participant in front of a receive with an empty channel. */
  predicate Waiting(cfg: Config, s: System, who: Who) {
    && Sized(cfg, s) && Exists(s, who)
    && var p := Get(s, who);
       p.status.Running? && |p.links| >= 1 && p.phase != Rest && p.pc < |Plan(cfg, p)|
       && IsReceive(Plan(cfg, p)[p.pc]) && ChannelOf(who, LinkOf(Plan(cfg, p)[p.pc])) < |s.up|
       && Inbox(s, who, LinkOf(Plan(cfg, p)[p.pc])) == []
  }

  /** The participant alone takes `n` steps; then it waits if the call blocks, and otherwise its state and its
      channels are what the call leaves. */
  predicate Does(cfg: Config, env: Env, s: System, who: Who, e: Effect, n: nat) {
    Alone(cfg, env, s, who, n).Reached?
    && var t := Alone(cfg, env, s, who, n).s;
       if e.Blocks? then Waiting(cfg, t, who) else Sized(cfg, t) && Exists(t, who) && IOof(t, who) == e.io
  }

  lemma OnceIsAlone(cfg: Config, env: Env, s: System, who: Who)
    requires Sized(cfg, s) && Enabled(cfg, env, s, who, 0)
    ensures Alone(cfg, env, s, who, 1) == Reached(Step(cfg, env, s, who, 0))
  {
    AloneMore(cfg, env, s, who, 0);
  }

  /** The call goes on where the steps have led. */
  lemma Continued(cfg: Config, env: Env, s: System, who: Who, n: nat, t: System, e: Effect, m: nat)
    requires Alone(cfg, env, s, who, n) == Reached(t) && Does(cfg, env, t, who, e, m)
    ensures Does(cfg, env, s, who, e, n + m)
    ensures Alone(cfg, env, s, who, n + m) == Alone(cfg, env, t, who, m)
  {
    AloneTwice(cfg, env, s, who, n, m, t);
  }

  lemma NoStepNeeded(cfg: Config, env: Env, s: System, who: Who)
    requires Sized(cfg, s) && Exists(s, who)
    ensures Does(cfg, env, s, who, Done(IOof(s, who)), 0) && Alone(cfg, env, s, who, 0) == Reached(s)
  {
  }

  lemma RestOfPlan(ops: seq<Op>, pc: nat)
    requires pc < |ops|
    ensures ops[pc..] == [ops[pc]] + ops[pc + 1..] && ops[pc..][0] == ops[pc] && ops[pc..][1..] == ops[pc + 1..]
  {
  }

  /** Unless it blocks or the participant fails, the call takes `left` steps to the end of the plan. */
  predicate EndsPlan(cfg: Config, p: Participant, q: Participant, e: Effect, left: nat, n: nat) {
    && n <= left
    && (e.Done? && q.status.Running? ==>
          n == left && q.phase == p.phase && |q.links| >= 1 && q.pc == |Plan(cfg, q)|)
  }

  /** The call takes the participant in `n` steps to its place in `t`. */
  predicate Performs(cfg: Config, env: Env, s: System, who: Who, e: Effect, left: nat, n: nat, t: System) {
    && Does(cfg, env, s, who, e, n) && Alone(cfg, env, s, who, n) == Reached(t)
    && Exists(s, who) && Exists(t, who) && EndsPlan(cfg, Get(s, who), Get(t, who), e, left, n)
  }

  /** What the operations left in the plan do. */
  function RestOf(cfg: Config, env: Env, p: Participant, io: IO): Effect
    requires |p.links| >= 1 && p.pc <= |Plan(cfg, p)|
    requires Connected(io) && OpsWithin(Plan(cfg, p), |io.inbox|)
  {
    ExecuteAll(cfg, env, Plan(cfg, p)[p.pc..], io)
  }

  // ----- one operation after another, for one participant with its channels -----

  /** What is left of an exchange while its operations are executed one by one. */
  datatype Progress = Going(io: IO) | Stuck

  /** The participant is about to execute an operation. */
  predicate AboutTo(cfg: Config, io: IO) {
    && Connected(io) && io.p.status.Running? && io.p.phase != Rest && io.p.pc < |Plan(cfg, io.p)|
    && LinkOf(Plan(cfg, io.p)[io.p.pc]) < |io.inbox|
  }

  function NextOp(cfg: Config, env: Env, io: IO): Effect
    requires AboutTo(cfg, io)
  {
    ExecuteOp(cfg, env, Plan(cfg, io.p)[io.p.pc], io)
  }

  function Operate(cfg: Config, env: Env): Progress -> Progress {
    (o: Progress) =>
      if o.Going? && AboutTo(cfg, o.io) && NextOp(cfg, env, o.io).Done? then Going(NextOp(cfg, env, o.io).io) else Stuck
  }

  /** A participant within a plan whose operations use its own links. */
  predicate InPlan(cfg: Config, io: IO) {
    && Connected(io) && io.p.phase != Rest && io.p.pc <= |Plan(cfg, io.p)| && OpsWithin(Plan(cfg, io.p), |io.inbox|)
  }

  function FirstOf(messages: seq<Message>): Message { if messages == [] then Data(0) else messages[0] }

  lemma OperationMovesOn(cfg: Config, env: Env, io: IO)
    requires InPlan(cfg, io) && AboutTo(cfg, io)
    ensures var e := NextOp(cfg, env, io);
            e.Done? ==>
              && MovesOn(io.p, e.io.p) && |e.io.inbox| == |io.inbox| && e.io.p.links == io.p.links
              && (e.io.p.status.Running? ==> InPlan(cfg, e.io) && Plan(cfg, e.io.p) == Plan(cfg, io.p))
  {
    var op := Plan(cfg, io.p)[io.p.pc];
    OperationMoves(cfg, env, io.p, op, FirstOf(io.inbox[LinkOf(op)]));
  }

  /** The rest of the plan is its next operation and what follows. */
  lemma NextOfRest(cfg: Config, env: Env, io: IO)
    requires InPlan(cfg, io) && AboutTo(cfg, io)
    ensures var e, all := NextOp(cfg, env, io), RestOf(cfg, env, io.p, io);
            if e.Blocks? then all == Blocks
            else if e.io.p.status.Failed? then all == e
            else InPlan(cfg, e.io) && all == RestOf(cfg, env, e.io.p, e.io)
  {
    RestOfPlan(Plan(cfg, io.p), io.p.pc);
    OperationMovesOn(cfg, env, io);
    var e := NextOp(cfg, env, io);
    if e.Done? && e.io.p.status.Failed? { NothingAfterFailure(cfg, env, Plan(cfg, io.p)[io.p.pc + 1..], e.io); }
  }

  lemma OneOperation(cfg: Config, env: Env, io: IO, m: nat)
    requires AboutTo(cfg, io) && NextOp(cfg, env, io).Done?
    ensures Iterate(Operate(cfg, env), Going(io), 1 + m)
            == Iterate(Operate(cfg, env), Going(NextOp(cfg, env, io).io), m)
  {
    var f := Operate(cfg, env);
    IterateTwice(f, Going(io), 1, m);
    assert Iterate(f, Going(io), 1) == f(Iterate(f, Going(io), 0));
  }

  /** Where the operations end: in front of one that blocks, or with what the rest of the plan does. */
  predicate Ends(cfg: Config, env: Env, io: IO, e: Effect, left: nat, n: nat, last: IO) {
    && Iterate(Operate(cfg, env), Going(io), n) == Going(last)
    && (e.Blocks? ==> AboutTo(cfg, last) && NextOp(cfg, env, last).Blocks?)
    && (e.Done? ==> last == e.io)
    && EndsPlan(cfg, io.p, last.p, e, left, n)
  }

  ghost predicate EndsSomewhere(cfg: Config, env: Env, io: IO, e: Effect, left: nat) {
    exists n: nat, last: IO :: Ends(cfg, env, io, e, left, n, last)
  }

  lemma EndsLater(cfg: Config, env: Env, io: IO, e: Effect, left: nat, n: nat, last: IO)
    requires AboutTo(cfg, io) && NextOp(cfg, env, io).Done? && NextOp(cfg, env, io).io.p.phase == io.p.phase
    requires Ends(cfg, env, NextOp(cfg, env, io).io, e, left, n, last)
    ensures Ends(cfg, env, io, e, left + 1, 1 + n, last)
  {
    OneOperation(cfg, env, io, n);
  }

  lemma EndsAfterNext(cfg: Config, env: Env, io: IO, e: Effect, left: nat)
    requires AboutTo(cfg, io) && NextOp(cfg, env, io).Done? && NextOp(cfg, env, io).io.p.phase == io.p.phase
    requires EndsSomewhere(cfg, env, NextOp(cfg, env, io).io, e, left)
    ensures EndsSomewhere(cfg, env, io, e, left + 1)
  {
    var n: nat, last: IO :| Ends(cfg, env, NextOp(cfg, env, io).io, e, left, n, last);
    EndsLater(cfg, env, io, e, left, n, last);
  }

  lemma EndsHere(cfg: Config, env: Env, io: IO)
    requires InPlan(cfg, io) && io.p.pc == |Plan(cfg, io.p)|
    ensures EndsSomewhere(cfg, env, io, RestOf(cfg, env, io.p, io), 0)
  {
    assert Ends(cfg, env, io, Done(io), 0, 0, io);
  }

  lemma EndsBlocked(cfg: Config, env: Env, io: IO, left: nat)
    requires InPlan(cfg, io) && AboutTo(cfg, io) && NextOp(cfg, env, io).Blocks?
    ensures EndsSomewhere(cfg, env, io, Blocks, left)
  {
    assert Ends(cfg, env, io, Blocks, left, 0, io);
  }

  lemma EndsFailed(cfg: Config, env: Env, io: IO, left: nat)
    requires InPlan(cfg, io) && AboutTo(cfg, io) && NextOp(cfg, env, io).Done? && left > 0
    requires NextOp(cfg, env, io).io.p.status.Failed?
    ensures EndsSomewhere(cfg, env, io, NextOp(cfg, env, io), left)
  {
    OneOperation(cfg, env, io, 0);
    assert Ends(cfg, env, io, NextOp(cfg, env, io), left, 1, NextOp(cfg, env, io).io);
  }

  function Left(cfg: Config, io: IO): nat
    requires InPlan(cfg, io)
  {
    |Plan(cfg, io.p)| - io.p.pc
  }

  /** What an operation that succeeds leaves of the plan. */
  lemma OneLeft(cfg: Config, env: Env, io: IO)
    requires InPlan(cfg, io) && AboutTo(cfg, io) && NextOp(cfg, env, io).Done?
    requires NextOp(cfg, env, io).io.p.status.Running?
    ensures var next := NextOp(cfg, env, io).io;
            && InPlan(cfg, next) && next.p.phase == io.p.phase && Left(cfg, next) + 1 == Left(cfg, io)
            && RestOf(cfg, env, next.p, next) == RestOf(cfg, env, io.p, io)
  {
    OperationMovesOn(cfg, env, io);
    NextOfRest(cfg, env, io);
  }

  /** Executing the rest of a plan is executing its operations one by one. */
  lemma {:induction false} RestIsOperations(cfg: Config, env: Env, io: IO)
    requires InPlan(cfg, io) && io.p.status.Running?
    ensures EndsSomewhere(cfg, env, io, RestOf(cfg, env, io.p, io), Left(cfg, io))
    decreases Left(cfg, io), 1
  {
    if io.p.pc == |Plan(cfg, io.p)| {
      EndsHere(cfg, env, io);
    } else {
      var e := NextOp(cfg, env, io);
      if e.Done? && e.io.p.status.Running? {
        NextAndRest(cfg, env, io);
      } else {
        NextOfRest(cfg, env, io);
        if e.Blocks? { EndsBlocked(cfg, env, io, Left(cfg, io)); } else { EndsFailed(cfg, env, io, Left(cfg, io)); }
      }
    }
  }

  lemma {:induction false} NextAndRest(cfg: Config, env: Env, io: IO)
    requires InPlan(cfg, io) && AboutTo(cfg, io) && NextOp(cfg, env, io).Done?
    requires NextOp(cfg, env, io).io.p.status.Running?
    ensures EndsSomewhere(cfg, env, io, RestOf(cfg, env, io.p, io), Left(cfg, io))
    decreases Left(cfg, io), 0
  {
    var next := NextOp(cfg, env, io).io;
    OneLeft(cfg, env, io);
    RestIsOperations(cfg, env, next);
    EndsAfterNext(cfg, env, io, RestOf(cfg, env, next.p, next), Left(cfg, next));
  }

  // ----- operations are steps -----

  /** The system after steps and the participant after operations: as long as the operations go on, the steps do,
      and the participant with its channels is the same. */
  predicate Same(cfg: Config, who: Who, x: Outcome, y: Progress) {
    y.Going? ==> x.Reached? && Wired(cfg, x.s) && Exists(x.s, who) && IOof(x.s, who) == y.io
  }

  lemma {:induction false} Simulates<S, T>(f: S -> S, g: T -> T, same: (S, T) -> bool, x: S, y: T, n: nat)
    requires same(x, y) && forall a, b :: same(a, b) ==> same(f(a), g(b))
    ensures same(Iterate(f, x, n), Iterate(g, y, n))
  {
    if n > 0 { Simulates(f, g, same, x, y, n - 1); }
  }

  lemma StepStaysWired(cfg: Config, env: Env, s: System, who: Who)
    requires Wired(cfg, s) && Enabled(cfg, env, s, who, 0)
    requires Get(s, who).phase != Rest && Get(s, who).pc < |Plan(cfg, Get(s, who))|
    ensures Wired(cfg, Step(cfg, env, s, who, 0))
  {
    var p := Get(s, who);
    var op := Plan(cfg, p)[p.pc];
    OperationKeepsPlace(cfg, env, p, op, FirstOf(Inbox(s, who, LinkOf(op))));
  }

  lemma OperationKeepsPlace(cfg: Config, env: Env, p: Participant, op: Op, m: Message)
    requires LinkOf(op) < |p.logs|
    ensures SamePlace(p, if IsSend(op) then Send(p, op) else if IsReceive(op) then Receive(cfg, p, op, m)
                         else Local(cfg, env, p, op))
  {
  }

  lemma CanStep(cfg: Config, env: Env, s: System, who: Who)
    requires Wired(cfg, s) && Exists(s, who) && AboutTo(cfg, IOof(s, who)) && NextOp(cfg, env, IOof(s, who)).Done?
    ensures Enabled(cfg, env, s, who, 0)
  {
  }

  lemma OperationIsStep(cfg: Config, env: Env, who: Who, x: Outcome, y: Progress)
    requires Same(cfg, who, x, y)
    ensures Same(cfg, who, AndOnce(cfg, env, who)(x), Operate(cfg, env)(y))
  {
    if y.Going? && AboutTo(cfg, y.io) && NextOp(cfg, env, y.io).Done? {
      CanStep(cfg, env, x.s, who);
      StepIsOperation(cfg, env, x.s, who, 0);
      StepStaysWired(cfg, env, x.s, who);
    }
  }

  lemma OperationsAreSteps(cfg: Config, env: Env, s: System, who: Who, n: nat, last: IO)
    requires Wired(cfg, s) && Exists(s, who) && Iterate(Operate(cfg, env), Going(IOof(s, who)), n) == Going(last)
    ensures Same(cfg, who, Alone(cfg, env, s, who, n), Going(last))
  {
    var same := (x: Outcome, y: Progress) => Same(cfg, who, x, y);
    forall x, y | same(x, y) ensures same(AndOnce(cfg, env, who)(x), Operate(cfg, env)(y)) {
      OperationIsStep(cfg, env, who, x, y);
    }
    Simulates(AndOnce(cfg, env, who), Operate(cfg, env), same, Reached(s), Going(IOof(s, who)), n);
  }

  lemma BlockedIsWaiting(cfg: Config, env: Env, s: System, who: Who)
    requires Wired(cfg, s) && Exists(s, who) && AboutTo(cfg, IOof(s, who)) && NextOp(cfg, env, IOof(s, who)).Blocks?
    ensures Waiting(cfg, s, who)
  {
  }

  /** What the operations left in the plan do is what that many steps of the participant do. */
  lemma PlanIsSteps(cfg: Config, env: Env, s: System, who: Who) returns (n: nat, t: System)
    requires Wired(cfg, s) && Exists(s, who) && InPlan(cfg, IOof(s, who)) && Get(s, who).status.Running?
    ensures var p := Get(s, who);
            Performs(cfg, env, s, who, RestOf(cfg, env, p, IOof(s, who)), |Plan(cfg, p)| - p.pc, n, t)
    ensures Wired(cfg, t)
  {
    var io := IOof(s, who);
    RestIsOperations(cfg, env, io);
    var last: IO;
    n, last :| Ends(cfg, env, io, RestOf(cfg, env, io.p, io), Left(cfg, io), n, last);
    OperationsAreSteps(cfg, env, s, who, n, last);
    t := Alone(cfg, env, s, who, n).s;
    if RestOf(cfg, env, Get(s, who), IOof(s, who)).Blocks? { BlockedIsWaiting(cfg, env, t, who); }
  }
}
