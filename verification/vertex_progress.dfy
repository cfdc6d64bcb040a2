/** When the gather stage of a vertex can end at all. */
module VertexProgress {
  import opened Vectors
  import opened Ports
  import opened Piccolo
  import opened Psau
  import opened Vertex
  import opened VertexRun
  import opened VertexGather
  import GatherRun

  /**
   * The batch is empty, or it has its offsets and the last of its reads can still be issued: the
   * data buffer must not fill up before the outstanding reads make up the rest.
   */
  predicate Feasible(g: Gather) {
    g.numElems == 0
    || (g.numElems <= |g.ob| && 1 <= g.dbCap && 1 <= g.maxOutstanding && g.numElems < g.dbCap + g.maxOutstanding)
  }

  // ---- a gather that ends was feasible

  /** Without reads from the data buffer: how full it is, and how many reads were issued at most. */
  ghost predicate Filling(g0: Gather, t: GatherRun.Trace) {
    && |t.g.db| == (if t.g.completed <= g0.dbCap then t.g.completed else g0.dbCap)
    && (t.g.issued > 0 ==> 1 <= g0.dbCap && 1 <= g0.maxOutstanding && t.g.issued < g0.dbCap + g0.maxOutstanding)
  }

  lemma {:induction false} KeepsFilling(g0: Gather, es: seq<GatherRun.Event>)
    requires GatherRun.Armed(g0) && forall i :: 0 <= i < |es| ==> OwnEvent(es[i])
    ensures Filling(g0, GatherRun.Run(GatherRun.Begin(g0), es))
  {
    if es == [] {
    } else {
      KeepsFilling(g0, es[..|es| - 1]);
      GatherRun.ProtocolInvariant(g0, es[..|es| - 1]);
    }
  }

  lemma DoneIsFeasible(g0: Gather, es: seq<GatherRun.Event>)
    requires GatherRun.Armed(g0) && forall i :: 0 <= i < |es| ==> OwnEvent(es[i])
    requires GatherRun.Run(GatherRun.Begin(g0), es).g.Done()
    ensures Feasible(g0)
  {
    KeepsFilling(g0, es);
    GatherRun.ProtocolInvariant(g0, es);
    NothingElse(GatherRun.Begin(g0), es);
  }

  /** Every connected controller of the world is armed. */
  ghost predicate AllArmed(w: World)
    requires w.Sized()
  {
    forall v :: 0 <= v < 16 && w.piccolos[v].Some? ==> GatherRun.Armed(w.piccolos[v].value)
  }

  ghost predicate AllFeasible(w: World)
    requires w.Sized()
  {
    forall v :: 0 <= v < 16 && w.piccolos[v].Some? ==> Feasible(w.piccolos[v].value)
  }

  lemma EndIsFeasible(env: Env, ws: seq<World>, cys: seq<Cycle>, n: nat, v: nat, g0: Gather)
    requires IsRun(env, ws, cys) && n < |cys| && v < 16 && ws[0].Sized()
    requires forall i :: 0 <= i <= n ==> ws[i].ctl.stage == Gathering
    requires ws[n + 1].ctl.stage != Gathering && ws[0].piccolos[v] == Some(g0) && GatherRun.Armed(g0)
    ensures Feasible(g0)
  {
    WhileGathering(env, ws, cys, n, v, g0);
    GatherAt(env, ws, cys, n);
    TickIsIssue(g0, cys, v, n);
    assert Finished(IssuedAll(ws[n].piccolos)[v]);
    EventsAreOwn(cys, v, n);
    DoneIsFeasible(g0, EventsOf(cys, v, n) + [GatherRun.IssueTick]);
  }

  /** The last world before the gather stage is left. */
  lemma {:induction false} LastGathering(ws: seq<World>, n: nat) returns (i: nat)
    requires n < |ws| && ws[0].ctl.stage == Gathering && ws[n].ctl.stage != Gathering
    ensures i < n && ws[i + 1].ctl.stage != Gathering && forall j :: 0 <= j <= i ==> ws[j].ctl.stage == Gathering
  {
    if forall j :: 0 <= j < n ==> ws[j].ctl.stage == Gathering {
      i := n - 1;
    } else {
      var m :| 0 <= m < n && ws[m].ctl.stage != Gathering;
      i := LastGathering(ws, m);
    }
  }

  /** With one infeasible batch the gather stage lasts forever, under every memory. */
  lemma NeverLeaves(env: Env, ws: seq<World>, cys: seq<Cycle>, n: nat)
    requires IsRun(env, ws, cys) && n < |ws| && ws[0].Sized() && ws[0].ctl.stage == Gathering
    requires AllArmed(ws[0]) && !AllFeasible(ws[0])
    ensures ws[n].ctl.stage == Gathering
  {
    if ws[n].ctl.stage != Gathering {
      var v :| 0 <= v < 16 && ws[0].piccolos[v].Some? && !Feasible(ws[0].piccolos[v].value);
      var i := LastGathering(ws, n);
      EndIsFeasible(env, ws, cys, i, v, ws[0].piccolos[v].value);
    }
  }

  // ---- a feasible gather can end: a memory that replies as late as it may

  /** The memory owes a reply when no further read can be issued without one. */
  predicate Owed(g: Gather) {
    g.outstanding > 0 && (g.outstanding >= g.maxOutstanding || g.issued >= g.numElems)
  }

  /** One cycle of one controller under that memory. */
  function LazyCycle(g: Gather): Gather {
    var g' := Issue(g).0;
    if Owed(g') then Completed(g', 0) else g'
  }

  function Remaining(g: Gather): int {
    2 * g.numElems - g.issued - g.completed
  }

  /** What such a memory keeps: replies only start when the reads in flight are at their limit. */
  predicate Smooth(g: Gather) {
    && g.issued == g.completed + g.outstanding <= g.numElems && |g.db| <= g.completed && |g.db| <= g.dbCap
    && g.numElems <= g.issued + |g.ob|
    && (g.numElems == 0
        || (1 <= g.dbCap && g.outstanding < g.maxOutstanding && g.numElems < g.dbCap + g.maxOutstanding))
    && (g.issued < g.numElems ==> g.completed == 0 || g.outstanding == g.maxOutstanding - 1)
  }

  lemma ArmedIsSmooth(g: Gather)
    requires GatherRun.Armed(g) && Feasible(g)
    ensures Smooth(g)
  {
  }

  lemma LazyAdvances(g: Gather)
    requires Smooth(g)
    ensures Smooth(LazyCycle(g)) && (Remaining(g) == 0 ==> Issue(g).0.Done())
    ensures Remaining(LazyCycle(g)) == 0 || Remaining(LazyCycle(g)) < Remaining(g)
    ensures 0 <= Remaining(LazyCycle(g)) <= Remaining(g)
  {
  }

  /** The replies owed to the first n vaults. */
  function LazyReplies(ps: seq<Option<Gather>>, n: nat): seq<(nat, nat)>
    requires n <= |ps|
  {
    if n == 0 then []
    else LazyReplies(ps, n - 1) + if ps[n - 1].Some? && Owed(ps[n - 1].value) then [(n - 1, 0)] else []
  }

  /** A controller after the reply it is owed, if any. */
  function Settled(p: Option<Gather>): Option<Gather> {
    if p.Some? && Owed(p.value) then Some(Completed(p.value, 0)) else p
  }

  /** The controllers after the replies owed to the first n vaults. */
  function Lazied(ps: seq<Option<Gather>>, n: nat): (r: seq<Option<Gather>>)
    ensures |r| == |ps|
  {
    seq(|ps|, v requires 0 <= v < |ps| => if v < n then Settled(ps[v]) else ps[v])
  }

  lemma LaziedNext(ps: seq<Option<Gather>>, n: nat)
    requires 0 < n <= |ps|
    ensures Lazied(ps, n - 1)[n - 1] == ps[n - 1]
    ensures Lazied(ps, n) == Lazied(ps, n - 1)[n - 1 := Settled(ps[n - 1])]
  {
  }

  lemma {:induction false} LazyReplied(ps: seq<Option<Gather>>, n: nat)
    requires n <= |ps|
    ensures Replied(ps, LazyReplies(ps, n)) == Lazied(ps, n)
  {
    if n == 0 {
      assert Lazied(ps, 0) == ps;
    } else {
      LazyReplied(ps, n - 1);
      LaziedNext(ps, n);
      NextReplied(ps, n, Lazied(ps, n - 1));
    }
  }

  /** The reply to a vault changes that vault alone. */
  lemma NextReplied(ps: seq<Option<Gather>>, n: nat, before: seq<Option<Gather>>)
    requires 0 < n <= |ps| && before == Replied(ps, LazyReplies(ps, n - 1)) && before[n - 1] == ps[n - 1]
    ensures Replied(ps, LazyReplies(ps, n)) == before[n - 1 := Settled(ps[n - 1])]
  {
    if ps[n - 1].Some? && Owed(ps[n - 1].value) {
      RepliedLast(ps, LazyReplies(ps, n - 1), n - 1, 0);
    } else {
      assert LazyReplies(ps, n) == LazyReplies(ps, n - 1);
    }
  }

  lemma RepliedLast(ps: seq<Option<Gather>>, replies: seq<(nat, nat)>, u: nat, value: nat)
    requires u < |ps| && Replied(ps, replies)[u].Some?
    ensures Replied(ps, replies + [(u, value)])
         == Replied(ps, replies)[u := Some(Completed(Replied(ps, replies)[u].value, value))]
  {
    assert (replies + [(u, value)])[..|replies|] == replies;
  }

  function LazyInput(w: World): Cycle
    requires |w.piccolos| == 16
  {
    Cycle(seq(16, _ => Zero()), LazyReplies(IssuedAll(w.piccolos), 16), None)
  }

  /** Every connected controller runs smoothly and has at most m events to come. */
  ghost predicate Near(w: World, m: nat)
    requires w.Sized()
  {
    forall v :: 0 <= v < 16 && w.piccolos[v].Some? ==>
      Smooth(w.piccolos[v].value) && Remaining(w.piccolos[v].value) <= m
  }

  lemma LazyVault(ps: seq<Option<Gather>>, v: nat, m: nat)
    requires |ps| == 16 && v < 16 && ps[v].Some? && Smooth(ps[v].value) && Remaining(ps[v].value) <= m && 0 < m
    ensures var p := Lazied(IssuedAll(ps), 16)[v]; p.Some? && Smooth(p.value) && Remaining(p.value) <= m - 1
  {
    LazyAdvances(ps[v].value);
  }

  lemma LazyLink(env: Env, w: World, w': World)
    requires w.Sized() && w.ctl.stage == Gathering && w' == Next(env, w, LazyInput(w)) && w'.ctl.stage == Gathering
    ensures w'.piccolos == Lazied(IssuedAll(w.piccolos), 16) && !AllGathered(IssuedAll(w.piccolos))
  {
    GatherLink(env, w, w', LazyInput(w));
    LazyReplied(IssuedAll(w.piccolos), 16);
  }

  lemma LazyNext(env: Env, w: World, w': World, m: nat)
    requires w.Sized() && w.ctl.stage == Gathering && Near(w, m) && w' == Next(env, w, LazyInput(w))
    ensures w'.ctl.stage == Gathering ==> 0 < m && Near(w', m - 1)
  {
    if w'.ctl.stage == Gathering {
      LazyLink(env, w, w');
      var u :| 0 <= u < 16 && !Finished(IssuedAll(w.piccolos)[u]);
      LazyAdvances(w.piccolos[u].value);
      forall v | 0 <= v < 16 && w'.piccolos[v].Some?
        ensures Smooth(w'.piccolos[v].value) && Remaining(w'.piccolos[v].value) <= m - 1
      {
        assert w.piccolos[v].Some?;
        LazyVault(w.piccolos, v, m);
      }
    }
  }

  lemma Prepend(env: Env, w: World, cy: Cycle, ws: seq<World>, cys: seq<Cycle>)
    requires IsRun(env, ws, cys) && Link(env, w, ws[0], cy)
    ensures IsRun(env, [w] + ws, [cy] + cys)
  {
    var ws', cys' := [w] + ws, [cy] + cys;
    forall i | 0 <= i < |cys'| && Cue(i)
      ensures Link(env, ws'[i], ws'[i + 1], cys'[i])
    {
      if i > 0 {
        assert Cue(i - 1);
      }
    }
  }

  lemma {:induction false} LazyEnds(env: Env, w: World, m: nat) returns (ws: seq<World>, cys: seq<Cycle>)
    requires w.Sized() && w.ctl.stage == Gathering && Near(w, m)
    ensures IsRun(env, ws, cys) && ws[0] == w && ws[|cys|].ctl.stage != Gathering
    decreases m
  {
    var w' := Next(env, w, LazyInput(w));
    LazyNext(env, w, w', m);
    ws, cys := [w'], [];
    if w'.ctl.stage == Gathering {
      ws, cys := LazyEnds(env, w', m - 1);
    }
    Prepend(env, w, LazyInput(w), ws, cys);
    ws, cys := [w] + ws, [LazyInput(w)] + cys;
  }

  lemma {:induction false} SomeBound(ps: seq<Option<Gather>>, n: nat) returns (m: nat)
    requires n <= |ps|
    ensures forall v :: 0 <= v < n && ps[v].Some? ==> Remaining(ps[v].value) <= m
  {
    if n == 0 {
      m := 0;
    } else {
      m := SomeBound(ps, n - 1);
      if ps[n - 1].Some? && Remaining(ps[n - 1].value) > m {
        m := Remaining(ps[n - 1].value);
      }
    }
  }

  /** Some behaviour of the memory lets the gather stage of w end. */
  ghost predicate CanEnd(env: Env, w: World) {
    exists ws: seq<World>, cys: seq<Cycle> :: IsRun(env, ws, cys) && ws[0] == w && ws[|cys|].ctl.stage != Gathering
  }

  /**
   * A gather of armed controllers can end, under some memory, if and only if every connected
   * controller has an empty batch or enough offsets, a positive limit and buffer, and a batch
   * below the sum of the two.
   */
  lemma GatherEndsIff(env: Env, w: World)
    requires w.Sized() && w.ctl.stage == Gathering && AllArmed(w)
    ensures CanEnd(env, w) <==> AllFeasible(w)
  {
    if AllFeasible(w) {
      var m := SomeBound(w.piccolos, 16);
      forall v | 0 <= v < 16 && w.piccolos[v].Some?
        ensures Smooth(w.piccolos[v].value)
      {
        ArmedIsSmooth(w.piccolos[v].value);
      }
      var ws, cys := LazyEnds(env, w, m);
    } else if CanEnd(env, w) {
      var ws: seq<World>, cys: seq<Cycle> :| IsRun(env, ws, cys) && ws[0] == w && ws[|cys|].ctl.stage != Gathering;
      NeverLeaves(env, ws, cys, |cys|);
    }
  }

  /**
   * For controllers as they are constructed, a vertex can leave its gather stage exactly when it
   * has no neighbours, or at most 256, all of them with an offset.
   */
  lemma StartedGatherEndsIff(env: Env, w: World, cfg: Config)
    requires w.Sized() && exists v :: 0 <= v < 16 && w.piccolos[v].Some?
    requires forall v :: 0 <= v < 16 && w.piccolos[v].Some? ==> Standard(w.piccolos[v].value)
    ensures CanEnd(env, StartVertex(w, cfg)) <==> cfg.numNeighbors <= |cfg.offsets| && cfg.numNeighbors <= 256
  {
    var w0 := StartVertex(w, cfg);
    forall v | 0 <= v < 16 && w.piccolos[v].Some?
      ensures w0.piccolos[v].Some? && GatherRun.Armed(w0.piccolos[v].value)
      ensures Feasible(w0.piccolos[v].value) <==> cfg.numNeighbors <= |cfg.offsets| && cfg.numNeighbors <= 256
    {
      var g0 := StartArms(w, cfg, v);
    }
    GatherEndsIff(env, w0);
  }

  /** The capacities and the limit of a constructed controller. */
  predicate Standard(g: Gather) {
    g.obCap == 256 && g.dbCap == 256 && g.maxOutstanding == 8
  }
}
