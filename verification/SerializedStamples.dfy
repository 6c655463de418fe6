/** Several time steps of a field stacked into one buffer, and what becomes of them when the buffer is exchanged. */
module SerializedStamples {
  import opened Sums
  import opened CommunicationMaps
  import opened Blocks
  import opened MToN

  datatype Stample = Stample(time: real, values: seq<real>)

  /** Entry `v` of time step `t` is at position `v * T + t` of the buffer. */
  predicate Stacked(stamples: seq<Stample>, n: nat, buffer: seq<real>) {
    && |buffer| >= n * |stamples|
    && forall v, t {:trigger Slot(v, t, |stamples|)} :: 0 <= v < n && 0 <= t < |stamples| ==>
         At(buffer, Slot(v, t, |stamples|)) == At(stamples[t].values, v)
  }

  /** The values of all time steps have the same size. */
  predicate Uniform(stamples: seq<Stample>, n: nat) { forall t :: 0 <= t < |stamples| ==> |stamples[t].values| == n }

  /** `length` is what was allocated, which may be more than needed. */
  method Serialize(stamples: seq<Stample>, n: nat, length: nat) returns (buffer: array<real>)
    requires stamples != [] && Uniform(stamples, n) && length >= n * |stamples|
    ensures fresh(buffer) && buffer.Length == length && Stacked(stamples, n, buffer[..])
  {
    var steps := |stamples|;
    buffer := new real[length];
    for t := 0 to steps
      invariant forall v, u {:trigger Slot(v, u, steps)} :: 0 <= v < n && 0 <= u < t ==>
        At(buffer[..], Slot(v, u, steps)) == stamples[u].values[v]
    {
      for v := 0 to n
        invariant forall w, u {:trigger Slot(w, u, steps)} ::
          0 <= w < n && 0 <= u < steps && (u < t || (u == t && w < v)) ==>
          At(buffer[..], Slot(w, u, steps)) == stamples[u].values[w]
      {
        SlotsApart(v, t, n, steps);
        buffer[v * steps + t] := stamples[t].values[v];
      }
    }
  }

  lemma SlotsApart(v: nat, t: nat, n: nat, steps: nat)
    requires v < n && t < steps
    ensures 0 <= Slot(v, t, steps) < n * steps
    ensures forall w, u {:trigger Slot(w, u, steps)} ::
              0 <= u < steps && Slot(w, u, steps) == Slot(v, t, steps) ==> w == v && u == t
  {
    BlockFits(v, n, steps);
    forall w, u | 0 <= u < steps && Slot(w, u, steps) == Slot(v, t, steps) ensures w == v && u == t {
      BlockOf(v, steps, Slot(v, t, steps));
      BlockOf(w, steps, Slot(w, u, steps));
    }
  }

  // ----- the storage of the receiver -----

  class Storage {
    var stamples: seq<Stample>

    constructor ()
      ensures stamples == []
    {
      stamples := [];
    }

    method Clear()
      modifies this
      ensures stamples == []
    {
      stamples := [];
    }

    /** Appends a sample with a new time, or replaces the sample of an existing time. */
    method SetSampleAtTime(time: real, values: seq<real>)
      requires || stamples == [] || stamples[|stamples|-1].time < time
               || exists t :: 0 <= t < |stamples| && stamples[t].time == time
      modifies this
      ensures (forall t :: 0 <= t < |old(stamples)| ==> old(stamples)[t].time != time) ==>
                stamples == old(stamples) + [Stample(time, values)]
      ensures forall t :: 0 <= t < |old(stamples)| && old(stamples)[t].time == time
                          && (forall u :: 0 <= u < t ==> old(stamples)[u].time != time) ==>
                stamples == old(stamples)[t := Stample(time, values)]
    {
      for t := 0 to |stamples|
        invariant stamples == old(stamples) && forall u :: 0 <= u < t ==> stamples[u].time != time
      {
        if stamples[t].time == time {
          stamples := stamples[t := Stample(time, values)];
          return;
        }
      }
      stamples := stamples + [Stample(time, values)];
    }

    method Deserialize(times: seq<real>, buffer: seq<real>, n: nat)
      requires forall t, u :: 0 <= t < u < |times| ==> times[t] < times[u]
      requires |buffer| >= n * |times|
      modifies this
      ensures |stamples| == |times| && Uniform(stamples, n) && Stacked(stamples, n, buffer)
      ensures forall t :: 0 <= t < |times| ==> stamples[t].time == times[t]
    {
      var steps := |times|;
      Clear();
      for t := 0 to steps
        invariant |stamples| == t
        invariant forall u :: 0 <= u < t ==> stamples[u] == Stample(times[u], Slice(buffer, n, steps, u))
      {
        var slice := ReadSlice(buffer, n, steps, t);
        SetSampleAtTime(times[t], slice);
      }
    }
  }

  /** Time step `t` of a stacked buffer. */
  function Slice(buffer: seq<real>, n: nat, steps: nat, t: nat): (s: seq<real>)
    ensures |s| == n
  {
    seq(n, v => At(buffer, Slot(v, t, steps)))
  }

  method ReadSlice(buffer: seq<real>, n: nat, steps: nat, t: nat) returns (slice: seq<real>)
    requires t < steps && |buffer| >= n * steps
    ensures slice == Slice(buffer, n, steps, t)
  {
    slice := [];
    for v := 0 to n
      invariant slice == Slice(buffer, v, steps, t)
    {
      BlockFits(v, n, steps);
      slice := slice + [buffer[v * steps + t]];
    }
  }

  // ----- round trip -----

  lemma RoundTrip(stamples: seq<Stample>, n: nat, buffer: seq<real>, received: seq<Stample>)
    requires Uniform(stamples, n) && Stacked(stamples, n, buffer)
    requires |received| == |stamples| && Uniform(received, n) && Stacked(received, n, buffer)
    requires forall t :: 0 <= t < |stamples| ==> received[t].time == stamples[t].time
    ensures received == stamples
  {
    forall t | 0 <= t < |stamples| ensures received[t] == stamples[t] {
      forall v | 0 <= v < n ensures received[t].values[v] == stamples[t].values[v] {
        assert At(buffer, Slot(v, t, |stamples|)) == At(stamples[t].values, v);
        assert At(buffer, Slot(v, t, |received|)) == At(received[t].values, v);
      }
    }
  }

  // ----- stacking commutes with the exchange -----

  /** The values all ranks have at time step `t`. */
  function AtStep(stamples: seq<seq<Stample>>, t: nat): (items: seq<seq<real>>)
    ensures |items| == |stamples|
  {
    seq(|stamples|, r requires 0 <= r < |stamples| => if t < |stamples[r]| then stamples[r][t].values else [])
  }

  /** Every rank stacks its `steps` time steps into its buffer. */
  predicate AllStacked(d: Distribution, stamples: seq<seq<Stample>>, dim: nat, steps: nat, buffers: seq<seq<real>>) {
    && |buffers| == |stamples|
    && forall r :: 0 <= r < |stamples| ==>
         && |stamples[r]| == steps && Uniform(stamples[r], |Vertices(d, r)| * dim)
         && Stacked(stamples[r], |Vertices(d, r)| * dim, buffers[r])
  }

  lemma Interleaved(i: int, dim: nat, k: int, steps: nat, t: int)
    ensures i * (dim * steps) + Slot(k, t, steps) == Slot(i * dim + k, t, steps)
  {
    assert i * (dim * steps) == i * dim * steps;
    assert (i * dim + k) * steps == i * dim * steps + k * steps;
  }

  lemma GlobalOfStep(d: Distribution, stamples: seq<seq<Stample>>, dim: nat, steps: nat, buffers: seq<seq<real>>,
                     g: int, k: nat, t: nat)
    requires AllStacked(d, stamples, dim, steps, buffers) && k < dim && t < steps
    ensures Global(d, buffers, dim * steps, g, Slot(k, t, steps)) == Global(d, AtStep(stamples, t), dim, g, k)
  {
    forall r | 0 <= r < |stamples|
      ensures RankShare(d, buffers, dim * steps, g, Slot(k, t, steps))(r)
              == RankShare(d, AtStep(stamples, t), dim, g, k)(r)
    {
      SpreadOfStep(stamples[r], Vertices(d, r), dim, buffers[r], g, k, t);
    }
    SumSame(RankShare(d, buffers, dim * steps, g, Slot(k, t, steps)), RankShare(d, AtStep(stamples, t), dim, g, k), 0,
            |stamples|);
  }

  lemma SpreadOfStep(stamples: seq<Stample>, vertices: seq<int>, dim: nat, buffer: seq<real>, g: int, k: nat, t: nat)
    requires t < |stamples| && k < dim && Uniform(stamples, |vertices| * dim)
    requires Stacked(stamples, |vertices| * dim, buffer)
    ensures Spread(buffer, vertices, dim * |stamples|, g, Slot(k, t, |stamples|))
            == Spread(stamples[t].values, vertices, dim, g, k)
  {
    var steps := |stamples|;
    var f := Share(buffer, vertices, dim * steps, g, Slot(k, t, steps));
    var h := Share(stamples[t].values, vertices, dim, g, k);
    forall i | 0 <= i < |vertices| ensures f(i) == h(i) {
      Interleaved(i, dim, k, steps, t);
      BlockFits(i, |vertices|, dim);
    }
    SumSame(f, h, 0, |vertices|);
  }

  /** Exchanging all time steps in one buffer delivers at every time step what exchanging that
      time step alone would deliver. */
  lemma StepsAreDelivered(d: Distribution, stamples: seq<seq<Stample>>, dim: nat, steps: nat, buffers: seq<seq<real>>,
                          b: seq<int>, result: seq<real>, received: seq<Stample>, t: nat)
    requires dim > 0 && t < steps && dim * steps > 0 && AllStacked(d, stamples, dim, steps, buffers)
    requires Delivered(d, buffers, dim * steps, b, result)
    requires |received| == steps && Uniform(received, |b| * dim) && Stacked(received, |b| * dim, result)
    ensures Delivered(d, AtStep(stamples, t), dim, b, received[t].values)
  {
    forall v, k | 0 <= v < |b| && 0 <= k < dim
      ensures At(received[t].values, Slot(v, k, dim)) == Global(d, AtStep(stamples, t), dim, b[v], k)
    {
      GlobalOfStep(d, stamples, dim, steps, buffers, b[v], k, t);
      Interleaved(v, dim, k, steps, t);
      BlockFits(v, |b|, dim);
      BlockFits(k, dim, steps);
      assert At(result, Slot(Slot(v, k, dim), t, steps)) == At(received[t].values, Slot(v, k, dim));
      assert At(result, Slot(v, Slot(k, t, steps), dim * steps))
             == Global(d, buffers, dim * steps, b[v], Slot(k, t, steps));
    }
  }

  // ----- the size of the gradient buffer -----

  /** What `allocate` reserves for gradients; `size` is the number of values, not of vertices. */
  function GradientLength(steps: nat, size: nat, meshDims: nat, dims: nat): nat { steps * size * meshDims * dims }

  /** The buffer has a block of `dims * meshDims * steps` entries per vertex exactly for scalar data;
      for vectors it is larger than what is exchanged. */
  lemma GradientBuffer(steps: nat, vertices: nat, meshDims: nat, dims: nat)
    requires steps > 0 && vertices > 0 && meshDims > 0 && dims > 0
    ensures GradientLength(steps, vertices * dims, meshDims, dims) == dims * (vertices * (dims * meshDims * steps))
    ensures GradientLength(steps, vertices * dims, meshDims, dims) >= vertices * (dims * meshDims * steps)
    ensures GradientLength(steps, vertices * dims, meshDims, dims) == vertices * (dims * meshDims * steps)
            <==> dims == 1
  {
    var needed := vertices * (dims * meshDims * steps);
    assert needed > 0;
    assert GradientLength(steps, vertices * dims, meshDims, dims) == dims * needed;
    assert dims > 1 ==> dims * needed > needed;
  }

  /** The buffers of all ranks are allocated for gradients. */
  predicate HoldGradients(d: Distribution, items: seq<seq<real>>, steps: nat, meshDims: nat, dims: nat) {
    forall r :: 0 <= r < |items| ==> |items[r]| == GradientLength(steps, |Vertices(d, r)| * dims, meshDims, dims)
  }

  lemma GradientOfNone(steps: nat, meshDims: nat, dims: nat)
    ensures GradientLength(steps, 0 * dims, meshDims, dims) == 0
  {
  }

  /** The primary rank reads what the secondary ranks send exactly if the data is scalar or no secondary rank has
      vertices; its own buffer is always long enough. */
  lemma GradientMessagesFit(d: Distribution, items: seq<seq<real>>, steps: nat, meshDims: nat, dims: nat)
    requires steps > 0 && meshDims > 0 && dims > 0 && HoldGradients(d, items, steps, meshDims, dims)
    ensures MessagesFit(d, items, dims * meshDims * steps)
            <==> dims == 1 || forall r: nat :: 0 < r < |items| ==> Vertices(d, r) == []
    ensures items != [] ==> |items[0]| >= |Vertices(d, 0)| * (dims * meshDims * steps)
  {
    forall r: nat | r < |items|
      ensures MessageFits(d, items, dims * meshDims * steps, r) <==> dims == 1 || Vertices(d, r) == []
      ensures |items[r]| >= |Vertices(d, r)| * (dims * meshDims * steps)
    {
      if Vertices(d, r) == [] {
        GradientOfNone(steps, meshDims, dims);
      } else {
        GradientBuffer(steps, |Vertices(d, r)|, meshDims, dims);
      }
    }
  }

  /** Exchanging stacked gradients through the primary ranks works exactly in these cases. */
  method ExchangeGradients(senders: Distribution, receivers: Distribution, items: seq<seq<real>>, steps: nat,
                           meshDims: nat, dims: nat, vertices: nat, receiverRanks: nat, own: array<real>)
    returns (ok: bool, messages: map<nat, seq<real>>)
    requires 0 in senders && 0 in receivers && items != [] && receiverRanks > 0
    requires steps > 0 && meshDims > 0 && dims > 0 && HoldGradients(senders, items, steps, meshDims, dims)
    requires Within(senders, vertices) && Within(receivers, vertices)
    requires own.Length == GradientLength(steps, |receivers[0]| * dims, meshDims, dims)
    modifies own
    ensures ok <==> dims == 1 || forall r: nat :: 0 < r < |items| ==> Vertices(senders, r) == []
    ensures dims * meshDims * steps > 0
    ensures ok ==> Delivered(senders, items, dims * meshDims * steps, receivers[0], own[..])
    ensures ok ==> forall r <- receivers :: 0 < r < receiverRanks ==>
                     if receivers[r] == [] then r !in messages
                     else r in messages && Delivered(senders, items, dims * meshDims * steps, receivers[r], messages[r])
  {
    GradientMessagesFit(senders, items, steps, meshDims, dims);
    GradientMessagesFit(receivers, [own[..]], steps, meshDims, dims);
    assert dims * meshDims > 0;
    ok, messages := GatherScatterExchange(senders, receivers, items, dims * meshDims * steps, vertices, receiverRanks,
                                          own);
  }
}
