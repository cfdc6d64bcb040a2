/** The vertex program as an object that borrows controllers, arrays, feeders and the adder tree. */
module VertexProgram {
  import opened Vectors
  import opened Systolic
  import opened Feeder
  import opened Ports
  import opened Piccolo
  import opened Psau
  import opened Vertex
  import Gru

  /** The mutable objects of the array and the feeder of vault v. */
  ghost function ArrayObjects(arrays: seq<SystolicArray?>, feeders: seq<ArrayFeeder?>, v: nat): set<object>
    requires v < |arrays| == |feeders|
  {
    (if arrays[v] == null then {} else {arrays[v].pes as object})
    + (if feeders[v] == null then {} else {feeders[v].delayLines})
  }

  ghost function ArraySet(arrays: seq<SystolicArray?>, feeders: seq<ArrayFeeder?>): set<object>
    requires |arrays| == |feeders|
  {
    set v: nat, o | v < |arrays| && o in ArrayObjects(arrays, feeders, v) :: o
  }

  /** The mutable objects of the controller of vault v. */
  ghost function ControllerObjects(piccolos: seq<PiccoloGatherController?>, v: nat): set<object>
    requires v < |piccolos|
  {
    if piccolos[v] == null then {} else piccolos[v].Own()
  }

  ghost function ControllerSet(piccolos: seq<PiccoloGatherController?>): set<object> {
    set v: nat, o | v < |piccolos| && o in ControllerObjects(piccolos, v) :: o
  }

  ghost function PsauObjects(psau: PartialSumAccumulationUnit): set<object> {
    {psau, psau.stage1, psau.stage2, psau.stage3}
  }

  /** Sixteen of each, and no object shared between two vaults or between two kinds of hardware. */
  ghost predicate Apart(piccolos: seq<PiccoloGatherController?>, psau: PartialSumAccumulationUnit,
                        arrays: seq<SystolicArray?>, feeders: seq<ArrayFeeder?>, mux: PseudoChannelMultiplexer) {
    && |piccolos| == |arrays| == |feeders| == 16
    && (forall u: nat, v: nat :: u < v < 16 ==>
          ArrayObjects(arrays, feeders, u) !! ArrayObjects(arrays, feeders, v)
          && ControllerObjects(piccolos, u) !! ControllerObjects(piccolos, v))
    && ArraySet(arrays, feeders) !! ControllerSet(piccolos) !! PsauObjects(psau) !! {mux.ports}
  }

  class TGNVertexProgram {
    const env: Env
    const piccolos: seq<PiccoloGatherController?>
    const psau: PartialSumAccumulationUnit
    const arrays: seq<SystolicArray?>
    const feeders: seq<ArrayFeeder?>
    const cells: seq<Gru.GRUCell>
    /** The multiplexer that every connected controller shares. */
    ghost const mux: PseudoChannelMultiplexer
    /** The mutable objects of all the vaults, and those of all the controllers. */
    ghost const bayRepr: set<object>
    ghost const gatherRepr: set<object>

    var stage: Stage
    var cfg: Config
    var cycles: Cycles
    var partialSums: Bundle
    var message: Vec
    var prevHidden: Vec
    var newHidden: Vec
    var flushCount: nat
    var hLoadDone: bool
    var writebackReady: bool
    var verticesDone: nat

    ghost predicate Shaped() {
      |piccolos| == |arrays| == |feeders| == |cells| == 16
    }

    /** The mutable objects of vault v. */
    ghost function BayObjects(v: nat): set<object>
      requires Shaped() && v < 16
    {
      {cells[v]} + ArrayObjects(arrays, feeders, v)
    }

    /** Distinct vaults, distinct controllers, and five kinds of objects with nothing in common. */
    ghost predicate Separate()
      requires Shaped()
    {
      && (forall u: nat, v: nat :: u < v < 16 ==> BayObjects(u) !! BayObjects(v))
      && (forall u: nat, v: nat :: u < v < 16 ==> ControllerObjects(piccolos, u) !! ControllerObjects(piccolos, v))
      && bayRepr !! gatherRepr !! PsauObjects(psau) !! {mux.ports as object} !! {this as object}
    }

    ghost predicate BayOk(v: nat)
      requires Shaped() && v < 16
    {
      && (arrays[v] != null ==> arrays[v].Valid())
      && (feeders[v] != null ==> feeders[v].Valid())
      && cells[v].fns == env.fns
    }

    ghost predicate GatherOk(v: nat)
      requires Shaped() && v < 16
      reads ControllerObjects(piccolos, v)
    {
      piccolos[v] != null ==> piccolos[v].Valid() && piccolos[v].mux == mux
    }

    ghost predicate Valid()
      reads psau, gatherRepr
    {
      && Shaped() && Separate() && psau.Valid() && mux.Valid()
      && BaysOk() && ControllersOk()
    }

    ghost function Registers(): Control
      reads this
    {
      Control(stage, cfg, cycles, partialSums, message, prevHidden, newHidden, flushCount,
              hLoadDone, writebackReady, verticesDone)
    }

    ghost function BayAt(v: nat): Bay
      requires Shaped() && v < 16 && BayOk(v)
      reads BayObjects(v)
    {
      Bay(cells[v].Contents(),
          if arrays[v] == null then None else Some(arrays[v].Contents()),
          if feeders[v] == null then None else Some(feeders[v].Contents()))
    }

    ghost function GatherAt(v: nat): Option<Gather>
      requires Shaped() && v < 16 && GatherOk(v)
      reads ControllerObjects(piccolos, v)
    {
      if piccolos[v] == null then None else Some(piccolos[v].Contents())
    }

    ghost predicate BaysOk()
      requires Shaped()
    {
      forall v: nat :: v < 16 ==> BayOk(v) && BayObjects(v) <= bayRepr
    }

    ghost function Bays(): (r: seq<Bay>)
      requires Shaped() && BaysOk()
      reads bayRepr
      ensures |r| == 16
      ensures forall v: nat :: v < 16 ==> r[v] == BayAt(v)
    {
      seq(16, v requires 0 <= v < 16 && Shaped() && BaysOk() reads bayRepr => BayAt(v))
    }

    constructor (env: Env, piccolos: seq<PiccoloGatherController?>, psau: PartialSumAccumulationUnit,
                 arrays: seq<SystolicArray?>, feeders: seq<ArrayFeeder?>, ghost mux: PseudoChannelMultiplexer)
      requires Apart(piccolos, psau, arrays, feeders, mux) && psau.Valid() && mux.Valid()
      requires forall v: nat :: v < 16 && arrays[v] != null ==> arrays[v].Valid()
      requires forall v: nat :: v < 16 && feeders[v] != null ==> feeders[v].Valid()
      requires forall v: nat :: v < 16 && piccolos[v] != null ==> piccolos[v].Valid() && piccolos[v].mux == mux
      ensures Valid() && stage == Inactive && verticesDone == 0
      ensures this.env == env && this.mux == mux && this.psau == psau
      ensures this.piccolos == piccolos && this.arrays == arrays && this.feeders == feeders
      ensures forall v: nat :: v < 16 ==> fresh(cells[v]) && cells[v].Contents() == Gru.NewCell()
    {
      var made := MakeCells(env.fns);
      this.env, this.piccolos, this.psau, this.arrays, this.feeders := env, piccolos, psau, arrays, feeders;
      this.mux, cells := mux, made;
      bayRepr := (set v: nat | v < 16 :: made[v] as object) + ArraySet(arrays, feeders);
      gatherRepr := ControllerSet(piccolos);
      stage, cfg, cycles := Inactive, Config(0, 0, 0, 0, []), Cycles(0, 0, 0, 0, 0, 0);
      partialSums, message, prevHidden, newHidden := Zeros(16), Zero(), Zero(), Zero();
      flushCount, hLoadDone, writebackReady, verticesDone := 0, false, false, 0;
      new;
      ApartMeansSeparate();
      AllInOrder();
    }

    static method MakeCells(fns: Gru.Squash) returns (made: seq<Gru.GRUCell>)
      ensures |made| == 16
      ensures forall v: nat :: v < 16 ==> fresh(made[v]) && made[v].fns == fns && made[v].Contents() == Gru.NewCell()
      ensures forall u: nat, v: nat :: u < v < 16 ==> made[u] != made[v]
    {
      made := [];
      for i := 0 to 16
        invariant |made| == i
        invariant forall v: nat :: v < i ==> fresh(made[v]) && made[v].fns == fns && made[v].Contents() == Gru.NewCell()
        invariant forall u: nat, v: nat :: u < v < i ==> made[u] != made[v]
      {
        var cell := new Gru.GRUCell(fns);
        made := made + [cell];
      }
    }

    lemma AllInOrder()
      requires Shaped()
      requires forall v: nat :: v < 16 && arrays[v] != null ==> arrays[v].Valid()
      requires forall v: nat :: v < 16 && feeders[v] != null ==> feeders[v].Valid()
      requires forall v: nat :: v < 16 && piccolos[v] != null ==> piccolos[v].Valid() && piccolos[v].mux == mux
      requires forall v: nat :: v < 16 ==> cells[v].fns == env.fns
      requires forall v: nat :: v < 16 ==> BayObjects(v) <= bayRepr && ControllerObjects(piccolos, v) <= gatherRepr
      ensures BaysOk() && ControllersOk()
    {
    }

    /** Separate hardware and distinct new cells make a separate program. */
    lemma ApartMeansSeparate()
      requires Shaped() && Apart(piccolos, psau, arrays, feeders, mux)
      requires bayRepr == (set v: nat | v < 16 :: cells[v] as object) + ArraySet(arrays, feeders)
      requires gatherRepr == ControllerSet(piccolos)
      requires forall u: nat, v: nat :: u < v < 16 ==> cells[u] != cells[v]
      requires forall v: nat :: v < 16 ==>
        cells[v] !in gatherRepr + ArraySet(arrays, feeders) + PsauObjects(psau) + {mux.ports, this}
      requires this !in gatherRepr + ArraySet(arrays, feeders) + PsauObjects(psau) + {mux.ports}
      ensures Separate()
      ensures forall v: nat :: v < 16 ==> BayObjects(v) <= bayRepr && ControllerObjects(piccolos, v) <= gatherRepr
    {
      forall v: nat | v < 16
        ensures ArrayObjects(arrays, feeders, v) <= ArraySet(arrays, feeders)
        ensures ControllerObjects(piccolos, v) <= gatherRepr
      {
      }
    }

    // ---- one vault at a time

    /** Moves one staggered column of activations into the array of vault v. */
    method PumpBay(v: nat)
      requires Shaped() && v < 16 && BayOk(v)
      modifies BayObjects(v)
      ensures BayAt(v) == Pumped(old(BayAt(v)))
    {
      if arrays[v] == null || feeders[v] == null {
        return;
      }
      var acts := feeders[v].GetNextActivations();
      var _ := arrays[v].Tick(acts, Zero());
    }

    /** Clocks the cell of vault v; counted tells whether the completion count accepts the vault. */
    method TickBay(v: nat) returns (threw: bool, counted: bool)
      requires Shaped() && v < 16 && BayOk(v)
      modifies BayObjects(v)
      ensures (BayAt(v), threw) == Gated(env.fns, old(BayAt(v)))
      ensures counted <==> Counted(BayAt(v))
    {
      if arrays[v] == null || feeders[v] == null {
        return false, true;
      }
      if cells[v].done {
        return false, true;
      }
      var answer := cells[v].Tick(arrays[v], feeders[v]);
      return answer == Gru.Threw, cells[v].done;
    }

    // ---- all vaults

    method PumpAll()
      requires Shaped() && Separate() && BaysOk()
      modifies bayRepr
      ensures Bays() == PumpedAll(old(Bays()))
    {
      ghost var before := Bays();
      for v := 0 to 16
        invariant forall u: nat :: u < 16 ==> BayAt(u) == if u < v then Pumped(before[u]) else before[u]
      {
        PumpBay(v);
      }
    }

    method StartAll(hPrev: Vec, msg: Vec)
      requires Shaped() && Separate() && BaysOk()
      modifies bayRepr
      ensures Bays() == StartedAll(old(Bays()), hPrev, msg)
    {
      ghost var before := Bays();
      for v := 0 to 16
        invariant forall u: nat :: u < 16 ==>
          BayAt(u) == if u < v then before[u].(cell := Gru.Started(before[u].cell, hPrev, msg)) else before[u]
      {
        assert cells[v] in BayObjects(v);
        cells[v].Start(hPrev, msg);
      }
    }

    method GateAll() returns (threw: bool, allCounted: bool)
      requires Shaped() && Separate() && BaysOk()
      modifies bayRepr
      ensures Bays() == GatedAll(env.fns, old(Bays()))
      ensures threw <==> ThrowsBefore(env.fns, old(Bays()), 16)
      ensures !threw && allCounted <==> AllFinished(env.fns, old(Bays()))
    {
      ghost var before := Bays();
      var doneCount := 0;
      for v := 0 to 16
        invariant Stepped(before, v) && 0 <= doneCount <= v
        invariant doneCount == v <==> AllCounted(before, v)
      {
        var threwHere, counted := GateNext(v, before);
        if threwHere {
          return true, false;
        }
        NextCounted(before, v);
        if counted {
          doneCount := doneCount + 1;
        }
      }
      RanThrough(before);
      return false, doneCount == 16;
    }

    /** The first n vaults count as done once they have been clocked. */
    ghost predicate AllCounted(before: seq<Bay>, n: nat)
      requires n <= |before|
    {
      forall u: nat :: u < n ==> Counted(Gated(env.fns, before[u]).0)
    }

    lemma NextCounted(before: seq<Bay>, n: nat)
      requires n < |before|
      ensures AllCounted(before, n + 1) <==> AllCounted(before, n) && Counted(Gated(env.fns, before[n]).0)
    {
    }

    /** The body of the loop over the vaults. */
    method GateNext(v: nat, ghost before: seq<Bay>) returns (threw: bool, counted: bool)
      requires Shaped() && Separate() && BaysOk() && v < |before| == 16 && Stepped(before, v)
      modifies bayRepr
      ensures threw ==> Bays() == GatedAll(env.fns, before) && ThrowsBefore(env.fns, before, 16)
      ensures !threw ==> Stepped(before, v + 1)
      ensures counted <==> Counted(Gated(env.fns, before[v]).0)
    {
      threw, counted := ClockNext(v, before);
      if threw {
        StoppedAt(before, v);
      }
    }

    method ClockNext(v: nat, ghost before: seq<Bay>) returns (threw: bool, counted: bool)
      requires Shaped() && Separate() && BaysOk() && v < |before| == 16 && Stepped(before, v)
      modifies bayRepr
      ensures Clocked(before, v) && threw == Gated(env.fns, before[v]).1
      ensures counted <==> Counted(Gated(env.fns, before[v]).0)
    {
      assert BayAt(v) == before[v];
      threw, counted := TickBay(v);
    }

    /** Vault n, too, has been clocked, whether or not it threw. */
    ghost predicate Clocked(before: seq<Bay>, n: nat)
      requires Shaped() && BaysOk() && n < |before| == 16
      reads bayRepr
    {
      && (forall u: nat :: u < n ==> !Gated(env.fns, before[u]).1)
      && (forall u: nat :: u < 16 ==> BayAt(u) == if u <= n then Gated(env.fns, before[u]).0 else before[u])
    }

    /** The first n vaults have been clocked without a throw, the others not at all. */
    ghost predicate Stepped(before: seq<Bay>, n: nat)
      requires Shaped() && BaysOk() && n <= |before| == 16
      reads bayRepr
    {
      && (forall u: nat :: u < n ==> BayAt(u) == Gated(env.fns, before[u]).0 && !Gated(env.fns, before[u]).1)
      && (forall u: nat :: n <= u < 16 ==> BayAt(u) == before[u])
    }

    lemma RanThrough(before: seq<Bay>)
      requires Shaped() && BaysOk() && |before| == 16 && Stepped(before, 16)
      ensures Bays() == GatedAll(env.fns, before) && !ThrowsBefore(env.fns, before, 16)
      ensures AllFinished(env.fns, before) <==> AllCounted(before, 16)
    {
      assert forall v: nat :: v < 16 ==> !ThrowsBefore(env.fns, before, v);
      forall v: nat | v < 16
        ensures Bays()[v] == GatedAll(env.fns, before)[v]
      {
        assert Bays()[v] == BayAt(v);
      }
      assert forall u: nat :: u < 16 ==> GatedAll(env.fns, before)[u] == Gated(env.fns, before[u]).0;
    }

    lemma StoppedAt(before: seq<Bay>, n: nat)
      requires Shaped() && BaysOk() && n < |before| == 16 && Clocked(before, n) && Gated(env.fns, before[n]).1
      ensures Bays() == GatedAll(env.fns, before) && ThrowsBefore(env.fns, before, 16)
    {
      assert ThrowsBefore(env.fns, before, 16);
      forall v: nat | v < 16
        ensures Bays()[v] == GatedAll(env.fns, before)[v]
      {
        assert ThrowsBefore(env.fns, before, v) <==> n < v;
        assert Bays()[v] == BayAt(v);
      }
    }

    // ---- the gather controllers

    ghost predicate ControllersOk()
      requires Shaped()
      reads gatherRepr
    {
      forall v: nat :: v < 16 ==> ControllerObjects(piccolos, v) <= gatherRepr && GatherOk(v)
    }

    ghost function Controllers(): (r: seq<Option<Gather>>)
      requires Shaped() && ControllersOk()
      reads gatherRepr
      ensures |r| == 16
      ensures forall v: nat :: v < 16 ==> r[v] == GatherAt(v)
    {
      seq(16, v requires 0 <= v < 16 && Shaped() && ControllersOk() reads gatherRepr => GatherAt(v))
    }

    /** One tick of the controller of vault v; done also when there is none. */
    method IssueOne(v: nat) returns (done: bool)
      requires Shaped() && v < 16 && GatherOk(v) && mux.Valid()
      modifies ControllerObjects(piccolos, v), mux.ports
      ensures GatherOk(v) && GatherAt(v) == Issued(old(GatherAt(v)))
      ensures mux.Contents() == QueuesAfter(old(GatherAt(v)), old(mux.Contents()))
      ensures done <==> Finished(GatherAt(v))
    {
      if piccolos[v] == null {
        return true;
      }
      piccolos[v].TickIssue();
      return piccolos[v].completed >= piccolos[v].numElems;
    }

    method IssueEach() returns (allDone: bool)
      requires Shaped() && Separate() && ControllersOk() && mux.Valid()
      modifies gatherRepr, mux.ports
      ensures ControllersOk() && Controllers() == IssuedAll(old(Controllers()))
      ensures mux.Contents() == IssuedQueues(old(Controllers()), old(mux.Contents()), 16)
      ensures allDone <==> AllGathered(Controllers())
    {
      ghost var before := Controllers();
      ghost var q := mux.Contents();
      allDone := true;
      for v := 0 to 16
        invariant ControllersOk() && IssuedSoFar(before, v)
        invariant mux.Contents() == IssuedQueues(before, q, v)
        invariant allDone <==> forall u: nat :: u < v ==> Finished(Issued(before[u]))
      {
        var done := IssueNext(v, before);
        if !done {
          allDone := false;
        }
      }
      assert Controllers() == IssuedAll(before);
      assert allDone <==> AllGathered(IssuedAll(before)) by {
        assert forall u: nat :: u < 16 ==> IssuedAll(before)[u] == Issued(before[u]);
        assert AllGathered(IssuedAll(before)) <==> forall u: nat :: u < 16 ==> Finished(IssuedAll(before)[u]);
      }
    }

    /** The first n controllers have had their tick, the others not. */
    ghost predicate IssuedSoFar(before: seq<Option<Gather>>, n: nat)
      requires Shaped() && ControllersOk() && n <= |before| == 16
      reads gatherRepr
    {
      forall u: nat :: u < 16 ==> GatherAt(u) == if u < n then Issued(before[u]) else before[u]
    }

    /** The body of the loop over the controllers. */
    method IssueNext(v: nat, ghost before: seq<Option<Gather>>) returns (done: bool)
      requires Shaped() && Separate() && ControllersOk() && mux.Valid()
      requires v < |before| == 16 && IssuedSoFar(before, v)
      modifies gatherRepr, mux.ports
      ensures ControllersOk() && IssuedSoFar(before, v + 1)
      ensures mux.Contents() == QueuesAfter(before[v], old(mux.Contents()))
      ensures done <==> Finished(Issued(before[v]))
    {
      assert GatherAt(v) == before[v];
      done := IssueOne(v);
    }

    /** The first d lanes of vec are the first words of a buffer; the others are zero. */
    ghost predicate Filled(words: seq<nat>, vec: Vec, d: nat) {
      d <= 16 && d <= |words| && forall k :: 0 <= k < 16 ==> vec[k] == if k < d then env.bitcast(words[k]) else 0.0
    }

    /** Empties at most sixteen words of a data buffer into a zero-padded vector. */
    method TakeSixteen(db: RingBuffer) returns (vec: Vec)
      requires db.Valid()
      modifies db
      ensures db.Valid()
      ensures vec == GatheredVec(env, old(db.Contents())) && db.Contents() == DropSixteen(old(db.Contents()))
    {
      ghost var before := db.Contents();
      vec := Zero();
      var d := 0;
      while d < 16 && db.size != 0
        invariant db.Valid() && Filled(before, vec, d) && db.Contents() == before[d..]
        decreases 16 - d
      {
        vec := TakeWord(db, vec, d, before);
        d := d + 1;
      }
      AllTaken(before, vec, d);
    }

    method TakeWord(db: RingBuffer, vec: Vec, d: nat, ghost before: seq<nat>) returns (vec': Vec)
      requires db.Valid() && Filled(before, vec, d) && d < 16 && db.Contents() == before[d..] && db.size != 0
      modifies db
      ensures db.Valid() && Filled(before, vec', d + 1) && db.Contents() == before[d + 1..]
    {
      var raw := db.Front();
      db.Pop();
      return vec[d := env.bitcast(raw)];
    }

    lemma AllTaken(words: seq<nat>, vec: Vec, d: nat)
      requires Filled(words, vec, d) && (d == 16 || d == |words|)
      ensures vec == GatheredVec(env, words) && words[d..] == DropSixteen(words)
    {
    }

    method HandOverAll()
      requires Shaped() && Separate() && BaysOk() && ControllersOk()
      modifies bayRepr, gatherRepr
      ensures ControllersOk()
      ensures (Controllers(), Bays()) == HandedAll(env, old(Controllers()), old(Bays()))
    {
      ghost var ps, bays := Controllers(), Bays();
      for v := 0 to 16
        invariant ControllersOk() && GivenSoFar(ps, bays, v) && ReceivedSoFar(ps, bays, v)
      {
        HandOver(v, ps, bays);
      }
      assert Controllers() == HandedAll(env, ps, bays).0;
      assert Bays() == HandedAll(env, ps, bays).1;
    }

    /** The first n controllers have given their gathered vector, the others not. */
    ghost predicate GivenSoFar(ps: seq<Option<Gather>>, bays: seq<Bay>, n: nat)
      requires Shaped() && ControllersOk() && n <= |ps| == |bays| == 16
      reads gatherRepr
    {
      forall u: nat :: u < 16 ==> GatherAt(u) == if u < n then HandedOver(env, ps[u], bays[u]).0 else ps[u]
    }

    /** The first n vaults have received it, the others not. */
    ghost predicate ReceivedSoFar(ps: seq<Option<Gather>>, bays: seq<Bay>, n: nat)
      requires Shaped() && BaysOk() && n <= |ps| == |bays| == 16
      reads bayRepr
    {
      forall u: nat :: u < 16 ==> BayAt(u) == if u < n then HandedOver(env, ps[u], bays[u]).1 else bays[u]
    }

    /** Takes the gathered vector of vault v out of its data buffer. */
    method GiveNext(v: nat, ghost ps: seq<Option<Gather>>, ghost bays: seq<Bay>) returns (vec: Vec)
      requires Shaped() && Separate() && ControllersOk() && v < |ps| == |bays| == 16 && GivenSoFar(ps, bays, v)
      requires piccolos[v] != null && bays[v].lines.Some?
      modifies gatherRepr
      ensures ControllersOk() && GivenSoFar(ps, bays, v + 1)
      ensures ps[v].Some? && vec == GatheredVec(env, ps[v].value.db)
    {
      assert GatherAt(v) == ps[v];
      vec := TakeBatch(v);
    }

    method TakeBatch(v: nat) returns (vec: Vec)
      requires Shaped() && v < 16 && GatherOk(v) && piccolos[v] != null
      modifies ControllerObjects(piccolos, v)
      ensures var g := old(piccolos[v].Contents());
        GatherOk(v) && GatherAt(v) == Some(g.(db := DropSixteen(g.db))) && vec == GatheredVec(env, g.db)
    {
      vec := TakeSixteen(piccolos[v].db);
    }

    /** Pushes it into the feeder of the vault. */
    method ReceiveNext(v: nat, vec: Vec, ghost ps: seq<Option<Gather>>, ghost bays: seq<Bay>)
      requires Shaped() && Separate() && BaysOk() && v < |ps| == |bays| == 16 && ReceivedSoFar(ps, bays, v)
      requires feeders[v] != null && ps[v].Some? && vec == GatheredVec(env, ps[v].value.db)
      modifies bayRepr
      ensures ReceivedSoFar(ps, bays, v + 1)
    {
      assert BayAt(v) == bays[v];
      PushBatch(v, vec);
    }

    method PushBatch(v: nat, vec: Vec)
      requires Shaped() && v < 16 && BayOk(v) && feeders[v] != null
      modifies BayObjects(v)
      ensures var b := old(BayAt(v)); BayAt(v) == b.(lines := Some(Pushed(b.lines.value, vec)))
    {
      assert vec[..16] == vec;
      feeders[v].PushVector(vec);
    }

    /** The gathered vector of vault v moves to its feeder, when both are connected. */
    method HandOver(v: nat, ghost ps: seq<Option<Gather>>, ghost bays: seq<Bay>)
      requires Shaped() && Separate() && BaysOk() && ControllersOk()
      requires v < |ps| == |bays| == 16 && GivenSoFar(ps, bays, v) && ReceivedSoFar(ps, bays, v)
      modifies bayRepr, gatherRepr
      ensures ControllersOk() && GivenSoFar(ps, bays, v + 1) && ReceivedSoFar(ps, bays, v + 1)
    {
      assert GatherAt(v) == ps[v] && BayAt(v) == bays[v];
      if feeders[v] != null && piccolos[v] != null {
        var vec := GiveNext(v, ps, bays);
        ReceiveNext(v, vec, ps, bays);
      }
    }

    // ---- the program

    ghost function Everything(): set<object>
      requires Shaped()
    {
      bayRepr + gatherRepr + PsauObjects(psau) + {mux.ports, this}
    }

    ghost function State(): (w: World)
      requires Valid()
      reads if Shaped() then Everything() else {this, psau}, psau, gatherRepr
      ensures w.Sized()
    {
      World(Registers(), Controllers(), mux.Contents(), psau.Contents(), Bays())
    }

    /** A change of the program's registers leaves the vaults alone. */
    twostate lemma KeepsBays()
      requires Shaped() && Separate() && BaysOk() && unchanged(bayRepr)
      ensures Bays() == old(Bays())
    {
    }

    twostate lemma KeepsControllers()
      requires Shaped() && old(ControllersOk()) && unchanged(gatherRepr)
      ensures ControllersOk() && Controllers() == old(Controllers())
    {
    }

    method TickCompute(saOutputs: Bundle)
      requires Shaped() && Separate() && BaysOk()
      modifies this, bayRepr
      ensures Registers() == ComputeControl(old(Registers()), saOutputs)
      ensures Bays() == PumpedAll(old(Bays()))
    {
      assert this !in bayRepr;
      PumpAll();
      label Pumped:
      CountCompute(saOutputs);
      KeepsBays@Pumped();
    }

    method CountCompute(saOutputs: Bundle)
      modifies this
      ensures Registers() == ComputeControl(old(Registers()), saOutputs)
    {
      cycles := cycles.(compute := cycles.compute + 1);
      if cycles.compute >= 16 {
        partialSums := saOutputs;
        flushCount := 0;
        cycles := cycles.(psau := 0);
        stage := Draining;
      }
    }

    method TickDrain()
      requires psau.Valid() && this !in PsauObjects(psau)
      modifies this, PsauObjects(psau)
      ensures psau.Valid()
      ensures Registers() == DrainControl(old(Registers()), old(psau.Contents()).valid[3], old(psau.Contents()).s4)
      ensures psau.Contents() == PipeStep(old(psau.Contents()), Input(old(partialSums), old(flushCount) == 0))
    {
      var outputValid, out := psau.Tick(partialSums, flushCount == 0);
      CountDrain(outputValid, out);
    }

    method CountDrain(outputValid: bool, out: Vec)
      modifies this
      ensures Registers() == DrainControl(old(Registers()), outputValid, out)
    {
      cycles := cycles.(psau := cycles.psau + 1);
      flushCount := flushCount + 1;
      if outputValid {
        TakeMessage(out);
      } else if flushCount > PSAU_DEPTH + 2 {
        TakeMessage(out);
      }
    }

    method TakeMessage(out: Vec)
      modifies this
      ensures Registers() == MessageTaken(old(Registers()), out)
    {
      message := out;
      hLoadDone := false;
      cycles := cycles.(loadH := 0);
      stage := LoadingH;
    }

    method TickLoad()
      requires Shaped() && Separate() && BaysOk()
      modifies this, bayRepr
      ensures Registers() == LoadControl(old(Registers()))
      ensures Bays() == if old(hLoadDone) then StartedAll(old(Bays()), old(prevHidden), old(message)) else old(Bays())
    {
      assert this !in bayRepr;
      if hLoadDone {
        StartAll(prevHidden, message);
      }
      label Started:
      CountLoad();
      KeepsBays@Started();
    }

    method CountLoad()
      modifies this
      ensures Registers() == LoadControl(old(Registers()))
    {
      cycles := cycles.(loadH := cycles.loadH + 1);
      if hLoadDone {
        cycles := cycles.(gru := 0);
        stage := Gating;
      }
    }

    method TickGru() returns (threw: bool)
      requires Shaped() && Separate() && BaysOk()
      modifies this, bayRepr
      ensures Registers() == GruControl(old(Registers()), AllFinished(env.fns, old(Bays())), Averaged(Bays()))
      ensures Bays() == GatedAll(env.fns, old(Bays()))
      ensures threw <==> ThrowsBefore(env.fns, old(Bays()), 16)
    {
      assert this !in bayRepr;
      var allCounted;
      threw, allCounted := GateAll();
      var average := Average();
      label Swept:
      CountGru(!threw && allCounted, average);
      KeepsBays@Swept();
    }

    method CountGru(finished: bool, average: Vec)
      modifies this
      ensures Registers() == GruControl(old(Registers()), finished, average)
    {
      cycles := cycles.(gru := cycles.gru + 1);
      if finished {
        newHidden := average;
        stage := WritingBack;
      }
    }

    method TickGather()
      requires Shaped() && Separate() && BaysOk() && ControllersOk() && mux.Valid()
      modifies this, bayRepr, gatherRepr, mux.ports
      ensures ControllersOk()
      ensures mux.Contents() == IssuedQueues(old(Controllers()), old(mux.Contents()), 16)
      ensures Registers() == GatherControl(old(Registers()), AllGathered(IssuedAll(old(Controllers()))))
      ensures (Controllers(), Bays()) == Polled(env, old(Controllers()), old(Bays()))
    {
      assert this !in bayRepr && this !in gatherRepr;
      var allDone := PollControllers();
      label Polled:
      CountGather(allDone);
      KeepsBays@Polled();
      KeepsControllers@Polled();
    }

    /** Ticks every controller and, once all are done, moves their data to the feeders. */
    method PollControllers() returns (allDone: bool)
      requires Shaped() && Separate() && BaysOk() && ControllersOk() && mux.Valid()
      modifies bayRepr, gatherRepr, mux.ports
      ensures ControllersOk()
      ensures mux.Contents() == IssuedQueues(old(Controllers()), old(mux.Contents()), 16)
      ensures allDone == AllGathered(IssuedAll(old(Controllers())))
      ensures (Controllers(), Bays()) == Polled(env, old(Controllers()), old(Bays()))
    {
      allDone := IssueEach();
      KeepsBays();
      if allDone {
        HandOverAll();
      }
    }

    method CountGather(allDone: bool)
      modifies this
      ensures Registers() == GatherControl(old(Registers()), allDone)
    {
      cycles := cycles.(gather := cycles.gather + 1);
      if allDone {
        cycles := cycles.(compute := 0);
        stage := Computing;
      }
    }

    /** The average of the sixteen results, connected or not. */
    method Average() returns (sum: Vec)
      requires Shaped() && BaysOk()
      ensures sum == Averaged(Bays())
    {
      sum := Zero();
      ghost var bays := Bays();
      for v := 0 to 16
        invariant forall d :: 0 <= d < 16 ==> sum[d] == HiddenSum(bays, d, v)
      {
        for d := 0 to 16
          invariant forall k :: 0 <= k < 16 ==> sum[k] == HiddenSum(bays, k, if k < d then v + 1 else v)
        {
          assert bays[v] == BayAt(v);
          sum := sum[d := sum[d] + cells[v].hNew[d] / 16.0];
        }
      }
    }

    // ---- the same steps, seen on the whole state

    twostate lemma KeepsPipe()
      requires old(psau.Valid()) && unchanged(PsauObjects(psau))
      ensures psau.Valid() && psau.Contents() == old(psau.Contents())
    {
    }

    /** Nothing but the program's registers changed. */
    twostate lemma OnlyRegisters()
      requires old(Valid()) && unchanged(bayRepr + gatherRepr + PsauObjects(psau) + {mux.ports})
      ensures Valid() && State() == old(State()).(ctl := Registers())
    {
      KeepsBays();
      KeepsControllers();
      KeepsPipe();
    }

    method CountCycle()
      requires Valid()
      modifies this`cycles
      ensures Valid()
      ensures State() == old(State()).(ctl := CycleCounted(old(Registers())))
    {
      cycles := cycles.(total := cycles.total + 1);
      OnlyRegisters();
    }

    method StepGather()
      requires Valid()
      modifies this, bayRepr, gatherRepr, mux.ports
      ensures Valid() && State() == GatherTick(env, old(State()))
    {
      TickGather();
      KeepsPipe();
    }

    method StepCompute(saOutputs: Bundle)
      requires Valid()
      modifies this, bayRepr
      ensures Valid() && State() == ComputeTick(old(State()), saOutputs)
    {
      TickCompute(saOutputs);
      KeepsControllers();
      KeepsPipe();
    }

    method StepDrain()
      requires Valid()
      modifies this, PsauObjects(psau)
      ensures Valid() && State() == DrainTick(old(State()))
    {
      TickDrain();
      KeepsBays();
      KeepsControllers();
    }

    method StepLoad()
      requires Valid()
      modifies this, bayRepr
      ensures Valid() && State() == LoadTick(old(State()))
    {
      TickLoad();
      KeepsControllers();
      KeepsPipe();
    }

    method StepGru() returns (threw: bool)
      requires Valid()
      modifies this, bayRepr
      ensures Valid() && State() == GruTick(env.fns, old(State()))
      ensures threw <==> ThrowsBefore(env.fns, old(State()).bays, 16)
    {
      threw := TickGru();
      KeepsControllers();
      KeepsPipe();
    }

    method TickWriteback()
      requires Valid()
      modifies this
      ensures Valid()
      ensures State() == old(State()).(ctl := old(Registers()).(writebackReady := true, stage := Complete,
                                                                 verticesDone := old(verticesDone) + 1))
    {
      writebackReady := true;
      stage := Complete;
      verticesDone := verticesDone + 1;
      OnlyRegisters();
    }

    /** Advances the program by one cycle. */
    method Tick(saOutputs: Bundle) returns (answer: Gru.Answer)
      requires Valid()
      modifies Everything()
      ensures Valid() && State() == Vertex.Tick(env, old(State()), saOutputs)
      ensures answer == TickAnswer(env, old(State()), saOutputs)
    {
      if stage == Inactive || stage == Complete {
        return if stage == Complete then Gru.Finished else Gru.Busy;
      }
      CountCycle();
      var threw := Dispatch(saOutputs);
      if threw {
        return Gru.Threw;
      }
      return if stage == Complete then Gru.Finished else Gru.Busy;
    }

    method Dispatch(saOutputs: Bundle) returns (threw: bool)
      requires Valid() && Active(stage)
      modifies Everything()
      ensures Valid() && State() == Advance(env, old(State()), saOutputs)
      ensures threw <==> old(stage) == Gating && ThrowsBefore(env.fns, old(State()).bays, 16)
    {
      threw := false;
      match stage {
        case Gathering => StepGather();
        case Computing => StepCompute(saOutputs);
        case Draining => StepDrain();
        case LoadingH => StepLoad();
        case Gating => threw := StepGru();
        case WritingBack => TickWriteback();
      }
    }

    // ---- before and between vertices

    /** Arms the controller of vault v for a new vertex. */
    method PrimeOne(v: nat, cfg: Config)
      requires Shaped() && v < 16 && GatherOk(v)
      modifies ControllerObjects(piccolos, v)
      ensures GatherOk(v)
      ensures GatherAt(v) == if old(GatherAt(v)).None? then None else Some(Primed(old(GatherAt(v)).value, cfg))
    {
      if piccolos[v] == null {
        return;
      }
      piccolos[v].ResetForNewBatch(cfg.numNeighbors);
      piccolos[v].SetBaseAddr(cfg.vertexAddr);
      LoadOffsets(piccolos[v].ob, cfg.offsets);
    }

    static method LoadOffsets(ob: RingBuffer, offsets: seq<nat>)
      requires ob.Valid()
      modifies ob, ob.data
      ensures ob.Valid() && ob.Contents() == PushedOffsets(old(ob.Contents()), ob.cap, offsets)
    {
      ghost var before := ob.Contents();
      for i := 0 to |offsets|
        invariant ob.Valid() && ob.Contents() == PushedOffsets(before, ob.cap, offsets[..i])
      {
        ob.Push(offsets[i]);
        assert offsets[..i + 1][..i] == offsets[..i];
      }
      assert offsets[..|offsets|] == offsets;
    }

    method PrimeAll(cfg: Config)
      requires Shaped() && Separate() && ControllersOk()
      modifies gatherRepr
      ensures ControllersOk() && Controllers() == PrimedAll(old(Controllers()), cfg)
    {
      ghost var before := Controllers();
      for v := 0 to 16
        invariant ControllersOk()
        invariant forall u: nat :: u < 16 ==>
          GatherAt(u) == if u < v && before[u].Some? then Some(Primed(before[u].value, cfg)) else before[u]
      {
        PrimeOne(v, cfg);
      }
      assert Controllers() == PrimedAll(before, cfg);
    }

    method ClearRegisters(cfg: Config)
      modifies this
      ensures Registers() == Restarted(old(Registers()), cfg)
    {
      this.cfg := cfg;
      stage := Gathering;
      cycles := Cycles(0, 0, 0, 0, 0, 0);
      flushCount := 0;
      message, prevHidden, newHidden := Zero(), Zero(), Zero();
      hLoadDone, writebackReady := false, false;
    }

    /** Begins a new vertex. */
    method StartVertex(cfg: Config)
      requires Valid()
      modifies this, gatherRepr
      ensures Valid() && State() == Vertex.StartVertex(old(State()), cfg)
    {
      PrimeAll(cfg);
      label Primed:
      ClearRegisters(cfg);
      KeepsControllers@Primed();
      KeepsBays();
      KeepsPipe();
    }

    /** Gives every cell the same weight matrices. */
    method LoadGruWeights(wR: seq<real>, wZ: seq<real>, wIn: seq<real>, wHn: seq<real>)
      requires Shaped() && Separate() && BaysOk()
      modifies bayRepr
      ensures Bays() == Reweighted(old(Bays()), wR, wZ, wIn, wHn)
    {
      ghost var before := Bays();
      for v := 0 to 16
        invariant forall u: nat :: u < 16 ==>
          BayAt(u) == if u < v then before[u].(cell := WithWeights(before[u].cell, wR, wZ, wIn, wHn)) else before[u]
      {
        assert cells[v] in BayObjects(v);
        cells[v].LoadWeights(wR, wZ, wIn, wHn);
      }
    }

    /** Gives every cell the same biases. */
    method LoadGruBiases(bR: Vec, bZ: Vec, bIn: Vec, bHn: Vec)
      requires Shaped() && Separate() && BaysOk()
      modifies bayRepr
      ensures Bays() == Rebiased(old(Bays()), bR, bZ, bIn, bHn)
    {
      ghost var before := Bays();
      for v := 0 to 16
        invariant forall u: nat :: u < 16 ==>
          BayAt(u) == if u < v then before[u].(cell := WithBiases(before[u].cell, bR, bZ, bIn, bHn)) else before[u]
      {
        assert cells[v] in BayObjects(v);
        cells[v].LoadBiases(bR, bZ, bIn, bHn);
      }
    }

    /** Counts a vertex from outside. */
    method IncrementVertexCount()
      modifies this`verticesDone
      ensures Registers() == CountedOnce(old(Registers()))
    {
      verticesDone := verticesDone + 1;
    }

    /** The reply to the hidden-state read. */
    method HiddenStateArrives(payload: Vec)
      modifies this`prevHidden, this`hLoadDone
      ensures prevHidden == payload && hLoadDone
    {
      prevHidden := payload;
      hLoadDone := true;
    }
  }
}
