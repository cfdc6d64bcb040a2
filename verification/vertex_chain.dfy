/** Consecutive vertices, each loading its predecessor's result: hidden states stay bounded. */
module VertexChain {
  import opened Vectors
  import opened Psau
  import opened Vertex
  import opened VertexRun
  import opened VertexGating
  import opened VertexWhole
  import opened Bounds
  import Gru
  import GruRun

  /** One vertex of a run: its weights, its configuration, its worlds and cycles, and two waiting times. */
  datatype Segment = Segment(params: Gru.Params, cfg: Config, ws: seq<World>, cys: seq<Cycle>, g: nat, l: nat)
  {
    ghost predicate Shaped() {
      |ws| == |cys| + 1 && g + 21 + l <= |cys|
    }

    /** The world at its end. */
    ghost function End(): World
      requires Shaped()
    {
      ws[|cys|]
    }

    /** The hidden state that its cells start from. */
    ghost function Loaded(): Vec
      requires Shaped()
    {
      ws[g + 20 + l].ctl.prevHidden
    }
  }

  /** The segment starts a vertex in w; it says only how long the gather and the load take. */
  ghost predicate Runs(env: Env, w: World, s: Segment) {
    && s.Shaped() && w.Sized() && IsRun(env, s.ws, s.cys) && s.ws[0] == StartVertex(w, s.cfg)
    && 0 < s.g && 0 < s.l && |s.cys| == s.g + 21 + s.l + GatingLength(w.bays) + 1
    && (forall i :: 0 <= i < s.g ==> s.ws[i].ctl.stage == Gathering) && s.ws[s.g].ctl.stage == Computing
    && (forall i :: s.g + 21 <= i < s.g + 21 + s.l ==> s.ws[i].ctl.stage == LoadingH)
    && s.ws[s.g + 21 + s.l].ctl.stage == Gating
  }

  /** Hardware that a new vertex may use. */
  ghost predicate AtRest(w: World, p: Gru.Params) {
    w.Sized() && AllRested(w.bays, p) && Flushed(w.pipe)
  }

  /** The world after weights and biases have been broadcast to all cells. */
  ghost function Broadcast(w: World, p: Gru.Params): World {
    w.(bays := Rebiased(Reweighted(w.bays, p.wR, p.wZ, p.wIn, p.wHn), p.bR, p.bZ, p.bIn, p.bHn))
  }

  lemma BroadcastRests(w: World, p0: Gru.Params, p: Gru.Params)
    requires AtRest(w, p0) && GruRun.Square(p)
    ensures AtRest(Broadcast(w, p), p)
  {
    forall v | 0 <= v < 16
      ensures Rested(Broadcast(w, p).bays[v], p)
    {
      assert Rested(w.bays[v], p0);
    }
  }

  lemma {:induction false} CountAtMost(bays: seq<Bay>, n: nat)
    requires n <= |bays|
    ensures ConnectedCount(bays, n) <= n
  {
    if n == 0 {
    } else {
      CountAtMost(bays, n - 1);
    }
  }

  /** A vertex that starts at rest completes at rest, with the averaged closed form as its result. */
  lemma SegmentCompletes(env: Env, w: World, s: Segment, p: Gru.Params)
    requires Runs(env, w, s) && AtRest(w, p)
    ensures AtRest(s.End(), p) && s.End().ctl.stage == Complete && GruRun.Square(p)
    ensures s.End().ctl.newHidden
         == Share(ConnectedCount(w.bays, |w.bays|),
                  GruRun.GruExpression(env.fns, p, s.Loaded(), VecSum(s.cys[s.g + 15].saOutputs)))
  {
    assert Rested(w.bays[0], p);
    StartsCourse(env, w, s, p);
    VertexCompletes(env, s.ws, s.cys, s.g, s.l, p, |s.cys|);
  }

  lemma StartsCourse(env: Env, w: World, s: Segment, p: Gru.Params)
    requires Runs(env, w, s) && AtRest(w, p)
    ensures Course(env, s.ws, s.cys, s.g, s.l, p) && s.ws[0].bays == w.bays
  {
  }

  lemma ResultWithin(f: Gru.Squash, p: Gru.Params, h: Vec, m: Vec, count: nat, b: real)
    requires InRange(f) && GruRun.Square(p) && 1.0 <= b && Within(h, b) && count <= 16
    ensures Within(Share(count, GruRun.GruExpression(f, p, h, m)), b)
  {
    CellWithin(f, p, h, m, b);
    ShareWithin(count, GruRun.GruExpression(f, p, h, m), b);
  }

  /** A vertex that starts at rest and loads a bounded hidden state ends at rest with a bounded one. */
  lemma SegmentWithin(env: Env, w: World, s: Segment, p: Gru.Params, b: real)
    requires InRange(env.fns) && 1.0 <= b && Runs(env, w, s) && AtRest(w, p) && Within(s.Loaded(), b)
    ensures AtRest(s.End(), p) && s.End().ctl.stage == Complete && Within(s.End().ctl.newHidden, b)
  {
    SegmentCompletes(env, w, s, p);
    CountAtMost(w.bays, |w.bays|);
    ResultWithin(env.fns, p, s.Loaded(), VecSum(s.cys[s.g + 15].saOutputs), ConnectedCount(w.bays, |w.bays|), b);
  }

  ghost predicate AllShaped(segs: seq<Segment>) {
    forall i :: 0 <= i < |segs| ==> segs[i].Shaped()
  }

  /** The world after the segments, which began in w. */
  ghost function Last(w: World, segs: seq<Segment>): World
    requires AllShaped(segs)
  {
    if segs == [] then w else segs[|segs| - 1].End()
  }

  /** The hidden state after the segments, which began with h. */
  ghost function Hidden(h: Vec, segs: seq<Segment>): Vec
    requires AllShaped(segs)
  {
    if segs == [] then h else segs[|segs| - 1].End().ctl.newHidden
  }

  /**
   * Each segment starts where the one before it ended, after a broadcast of its own weights of
   * the right size, and loads that one's result.
   */
  ghost predicate Chained(env: Env, w: World, h: Vec, segs: seq<Segment>)
    requires AllShaped(segs)
  {
    segs == []
    || (var n := |segs| - 1;
        && Chained(env, w, h, segs[..n]) && GruRun.Square(segs[n].params)
        && Runs(env, Broadcast(Last(w, segs[..n]), segs[n].params), segs[n])
        && segs[n].Loaded() == Hidden(h, segs[..n]))
  }

  /**
   * Along any chain of vertices run by the program, for all weights and biases of each, all
   * messages and all waiting times, every result stays within a bound B >= 1 on the first hidden state, and the
   * hardware is at rest after each.
   */
  lemma {:induction false} ChainStaysWithin(env: Env, w: World, h: Vec, segs: seq<Segment>, p: Gru.Params, b: real)
    requires InRange(env.fns) && 1.0 <= b && Within(h, b) && AtRest(w, p)
    requires AllShaped(segs) && Chained(env, w, h, segs)
    ensures Within(Hidden(h, segs), b)
    ensures AtRest(Last(w, segs), if segs == [] then p else segs[|segs| - 1].params)
  {
    if segs == [] {
    } else {
      var before, s := segs[..|segs| - 1], segs[|segs| - 1];
      ChainStaysWithin(env, w, h, before, p, b);
      BroadcastRests(Last(w, before), if before == [] then p else before[|before| - 1].params, s.params);
      SegmentWithin(env, Broadcast(Last(w, before), s.params), s, s.params, b);
    }
  }
}
