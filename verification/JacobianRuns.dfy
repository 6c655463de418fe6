/** Whole runs of the multi-vector method: which steps and which stored Jacobians are the explicit ones, and when the
    filter's assertion holds. */
module JacobianRuns {
  import opened Matrices
  import opened ColumnMatrices
  import opened Jacobian
  import opened JacobianUpdates

  /** The Jacobian is multiplied out in every step, only at the end of a time window, or never. */
  datatype Mode = AlwaysBuild | Efficient | Restart

  /** `reused` past time windows keep their columns; `force` asks for relaxation at the beginning of every window. */
  datatype Setup = Setup(p: nat, n: nat, mode: Mode, maxColumns: nat, rows: nat, reused: nat, force: bool)

  /** `stepColumns` and `stale` record history: how many columns V had in the last step that built the Jacobian, and
      how many time windows have converged since Wtil was W - J V. */
  datatype State = State(
    V: Matrix,
    W: Matrix,
    Wtil: Matrix,
    reset: bool,
    kept: Matrix,
    built: Matrix,
    chunks: seq<Chunk>,
    first: bool,
    firstWindow: bool,
    stepColumns: nat,
    stale: nat)

  function Zeros(n: nat, p: nat): (m: Matrix)
    ensures |m| == n && Sized(m, p) && forall i, j :: 0 <= i < n && 0 <= j < p ==> m[i][j] == 0.0
  {
    seq(n, i => seq(p, j => 0.0))
  }

  function Initial(l: Setup): State {
    State([], [], [], false, Zeros(l.n, l.p), Zeros(l.n, l.p), [], true, true, 0, 0)
  }

  /** The Jacobian of the previous time window, stored or factored. */
  function Previous(l: Setup, s: State): (int, int) -> real {
    if l.mode == Restart then ChunkJacobian(s.chunks) else Entries(s.kept)
  }

  /** W - J V */
  function Explicit(l: Setup, s: State): (m: Matrix)
    requires |s.V| == |s.W|
    ensures |m| == |s.V| && Sized(m, l.n)
  {
    WtilOf(Previous(l, s), l.p, l.n, s.V, s.W)
  }

  // ----- one operation at a time -----

  /** A new first column, or a shift when the matrix may not grow. */
  function SetFirst(l: Setup, A: Matrix, v: Vector): Matrix {
    [v] + if |A| != l.maxColumns && |A| <= l.rows then A else DropLast(A)
  }

  function Add(l: Setup, s: State, v: Vector, w: Vector): State {
    s.(V := SetFirst(l, s.V, v), W := SetFirst(l, s.W, w),
       Wtil := if l.mode == AlwaysBuild then s.Wtil
               else SetFirst(l, s.Wtil, WtilColumn(Previous(l, s), l.p, l.n, v, w)))
  }

  /** A column that the filter has found; an outdated Wtil keeps its columns. */
  function Remove(l: Setup, s: State, k: nat): State {
    s.(V := RemoveAt(s.V, k), W := RemoveAt(s.W, k),
       Wtil := if s.reset || l.mode == AlwaysBuild then s.Wtil else RemoveAt(s.Wtil, k))
  }

  /** Removes the columns at the given positions, the last one first. */
  function RemoveAll(l: Setup, s: State, del: seq<nat>): State
    decreases |del|
  {
    if del == [] then s else RemoveAll(l, Remove(l, s, del[|del|-1]), del[..|del|-1])
  }

  /** Before each removal Wtil must have more than one column. */
  predicate RemovalsAsserted(l: Setup, s: State, del: seq<nat>)
    decreases |del|
  {
    del != [] ==> |s.Wtil| > 1 && RemovalsAsserted(l, Remove(l, s, del[|del|-1]), del[..|del|-1])
  }

  /** The Wtil that a step uses. */
  function Used(l: Setup, s: State): Matrix
    requires |s.V| == |s.W|
  {
    if s.reset || l.mode == AlwaysBuild then Explicit(l, s) else s.Wtil
  }

  /** The step from the given negative residuals. */
  function StepOf(l: Setup, s: State, Z: Matrix, negative: Vector): Vector
    requires |s.V| == |s.W|
  {
    StepWith(Previous(l, s), l.p, l.n, Used(l, s), Z, negative)
  }

  /** Wtil Z + J, multiplied out. */
  function Built(l: Setup, s: State, Wtil: Matrix, Z: Matrix): (m: Matrix)
    ensures |m| == l.n && Sized(m, l.p)
    ensures SameJacobian(Entries(m), Updated(Previous(l, s), Wtil, Z), l.n, l.p)
  {
    var J := Updated(Previous(l, s), Wtil, Z);
    seq(l.n, i => seq(l.p, j => J(i, j)))
  }

  function AfterStep(l: Setup, s: State, Z: Matrix): State
    requires |s.V| == |s.W|
  {
    var t := s.(Wtil := Used(l, s), reset := false);
    if l.mode == AlwaysBuild then t.(built := Built(l, s, Used(l, s), Z), stepColumns := |s.V|) else t
  }

  /** Without reuse the columns serve the first step of the next window and are deleted then. */
  predicate DeletionPending(l: Setup, s: State) { s.first && l.reused == 0 && !l.force }

  function PendingDeletion(l: Setup, s: State): State {
    if DeletionPending(l, s)
    then s.(V := [], W := [], Wtil := if l.mode == AlwaysBuild then s.Wtil else [], reset := true)
    else s
  }

  /** After convergence the Jacobian has changed; only these settings mark Wtil as outdated. */
  predicate Outdates(l: Setup) { l.reused > 0 || l.force }

  /** The windows converged since Wtil was W - J V, with the one that converges now. */
  function Staleness(l: Setup, s: State, Wtil: Matrix): nat
    requires |s.V| == |s.W|
  {
    if Wtil == Explicit(l, s) then 1 else s.stale + 1
  }

  /** The Jacobian for the next window: as it was built last, built now, or one more pair of factors. */
  function Store(l: Setup, s: State, Z: Matrix): State
    requires |s.V| == |s.W|
  {
    match l.mode
    case AlwaysBuild => s.(kept := s.built)
    case Efficient =>
      var J := Built(l, s, Used(l, s), Z);
      s.(Wtil := Used(l, s), reset := Outdates(l), built := J, kept := J, stale := Staleness(l, s, Used(l, s)))
    case Restart => s.(chunks := s.chunks + [Chunk(s.Wtil, Z)], reset := s.reset || Outdates(l),
                         stale := Staleness(l, s, s.Wtil))
  }

  function DropColumns(l: Setup, s: State, count: nat): State {
    if l.reused == 0 then (if l.force then s.(V := [], W := []) else s)
    else if count <= |s.V| && count <= |s.W| then s.(V := s.V[..|s.V| - count], W := s.W[..|s.W| - count])
    else s
  }

  // ----- what the acceleration is called for -----

  /** An iteration that did not converge, or one that did: the new differences, the positions the filter reports, the
      pseudo inverse of what is left of V, and the residuals or the number of columns of windows no longer reused. */
  datatype Event =
    | Iterate(v: Vector, w: Vector, del: seq<nat>, Z: Matrix, residuals: Vector)
    | Converges(v: Vector, w: Vector, del: seq<nat>, Z: Matrix, drop: nat)

  predicate Relaxes(l: Setup, s: State) { s.first && (s.firstWindow || l.force) }

  /** The first iteration of a window adds no column. */
  function Grown(l: Setup, s: State, e: Event): State { if s.first then s else Add(l, s, e.v, e.w) }

  /** The positions that are filtered out. */
  function Filtered(l: Setup, s: State, e: Event): seq<nat> {
    if (e.Iterate? && Relaxes(l, s)) || (e.Converges? && l.mode == AlwaysBuild) then [] else e.del
  }

  /** The columns with which the step is taken or the Jacobian stored. */
  function System(l: Setup, s: State, e: Event): State { RemoveAll(l, Grown(l, s, e), Filtered(l, s, e)) }

  function After(l: Setup, s: State, e: Event): State
    requires |System(l, s, e).V| == |System(l, s, e).W|
  {
    var a := System(l, s, e);
    match e
    case Iterate(v, w, del, Z, residuals) =>
      if Relaxes(l, s) then a.(first := false)
      else PendingDeletion(l, AfterStep(l, a, Z)).(first := false)
    case Converges(v, w, del, Z, drop) =>
      DropColumns(l, Store(l, a, Z), drop).(first := true, firstWindow := s.firstWindow && s.first)
  }

  /** The positions a filter reports are ascending, and it keeps at least one column. */
  predicate LeavesOne(del: seq<nat>, count: nat) {
    && (del != [] ==> |del| < count) && (forall i :: 0 <= i < |del| ==> del[i] < count)
    && forall i, j :: 0 <= i < j < |del| ==> del[i] < del[j]
  }

  predicate NeedsInverse(l: Setup, s: State, e: Event) {
    if e.Iterate? then !Relaxes(l, s) else l.mode != AlwaysBuild
  }

  /** What the solvers and the decomposition provide: Z is a left inverse of what is left of V. */
  predicate Legal(l: Setup, s: State, e: Event) {
    var a := System(l, s, e);
    && |e.v| == l.p && |e.w| == l.n
    && LeavesOne(Filtered(l, s, e), |Grown(l, s, e).V|)
    && (NeedsInverse(l, s, e) ==> |e.Z| == |a.V| && Sized(e.Z, l.p) && LeftInverseOf(e.Z, a.V, l.p))
    && (e.Iterate? ==> |e.residuals| == l.p)
    && (e.Converges? ==> e.drop <= |a.V|)
  }

  function Run(l: Setup, events: seq<Event>): State {
    if events == [] then Initial(l)
    else
      var s, e := Run(l, events[..|events|-1]), events[|events|-1];
      if |System(l, s, e).V| == |System(l, s, e).W| then After(l, s, e) else s
  }

  predicate LegalRun(l: Setup, events: seq<Event>) {
    l.maxColumns > 0 && forall i :: 0 <= i < |events| ==> Legal(l, Run(l, events[..i]), events[i])
  }
}
