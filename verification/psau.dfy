/** The four-stage pipelined adder tree that reduces sixteen vectors to one. */
module Psau {
  import opened Vectors

  /** One vector per vault. */
  type Bundle = b: seq<Vec> | |b| == 16 witness Zeros(16)

  /** The pipeline registers and their valid bits, stage 1 first. */
  datatype Pipe = Pipe(s1: seq<Vec>, s2: seq<Vec>, s3: seq<Vec>, s4: Vec, valid: seq<bool>) {
    ghost predicate Sized() {
      |s1| == 8 && |s2| == 4 && |s3| == 2 && |valid| == 4
    }
  }

  datatype Input = Input(vectors: Bundle, valid: bool)

  /** Adjacent vectors added: half as many, with the same total. */
  function Halve(vs: seq<Vec>): (r: seq<Vec>)
    ensures |r| == |vs| / 2
  {
    seq(|vs| / 2, j requires 0 <= j < |vs| / 2 => VecAdd(vs[2 * j], vs[2 * j + 1]))
  }

  /** All registers updated at once. */
  function PipeStep(p: Pipe, x: Input): (p': Pipe)
    requires p.Sized()
    ensures p'.Sized()
  {
    Pipe(Halve(x.vectors), Halve(p.s1), Halve(p.s2), VecAdd(p.s3[0], p.s3[1]), [x.valid] + p.valid[..3])
  }

  class PartialSumAccumulationUnit {
    const stage1: array<Vec>
    const stage2: array<Vec>
    const stage3: array<Vec>
    var stage4: Vec
    var validBits: seq<bool>

    ghost predicate Valid()
      reads this
    {
      && stage1.Length == 8 && stage2.Length == 4 && stage3.Length == 2 && |validBits| == 4
      && stage1 != stage2 && stage1 != stage3 && stage2 != stage3
    }

    ghost function Registers(): set<object> {
      {this, stage1, stage2, stage3}
    }

    ghost function Contents(): (p: Pipe)
      requires Valid()
      reads this, stage1, stage2, stage3
      ensures p.Sized()
    {
      Pipe(stage1[..], stage2[..], stage3[..], stage4, validBits)
    }

    constructor ()
      ensures Valid() && fresh(Registers())
      ensures Contents() == Pipe(Zeros(8), Zeros(4), Zeros(2), Zero(), [false, false, false, false])
    {
      stage1 := new Vec[8](_ => Zero());
      stage2 := new Vec[4](_ => Zero());
      stage3 := new Vec[2](_ => Zero());
      stage4 := Zero();
      validBits := [false, false, false, false];
    }

    /** One clock: reports the last stage, then updates the stages in place, last stage first. */
    method Tick(vpuOutputs: Bundle, inputValid: bool) returns (outputValid: bool, result: Vec)
      requires Valid()
      modifies this, stage1, stage2, stage3
      ensures Valid()
      ensures outputValid == old(Contents()).valid[3] && result == old(Contents()).s4
      ensures Contents() == PipeStep(old(Contents()), Input(vpuOutputs, inputValid))
    {
      outputValid, result := validBits[3], stage4;
      ShiftStages(vpuOutputs);
      ShiftBits(inputValid);
    }

    /** The four levels of additions, last one first, each reading registers not yet overwritten. */
    method ShiftStages(vpuOutputs: Bundle)
      requires Valid()
      modifies this`stage4, stage1, stage2, stage3
      ensures stage1[..] == Halve(vpuOutputs) && stage2[..] == Halve(old(stage1[..]))
      ensures stage3[..] == Halve(old(stage2[..])) && stage4 == VecAdd(old(stage3[0]), old(stage3[1]))
    {
      AddLastPair();
      AddPairs(stage2[..], stage3);
      AddPairs(stage1[..], stage2);
      AddPairs(vpuOutputs, stage1);
    }

    /** The valid bits move along with the stages. */
    method ShiftBits(inputValid: bool)
      requires Valid()
      modifies this`validBits
      ensures validBits == [inputValid] + old(validBits)[..3]
    {
      validBits := validBits[3 := validBits[2]];
      validBits := validBits[2 := validBits[1]];
      validBits := validBits[1 := validBits[0]];
      validBits := validBits[0 := inputValid];
    }

    method AddLastPair()
      requires Valid()
      modifies this`stage4
      ensures stage4 == VecAdd(stage3[0], stage3[1])
    {
      for i := 0 to 16
        invariant forall k :: 0 <= k < i ==> stage4[k] == stage3[0][k] + stage3[1][k]
      {
        stage4 := stage4[i := stage3[0][i] + stage3[1][i]];
      }
    }

    static method AddPairs(src: seq<Vec>, dst: array<Vec>)
      requires |src| == 2 * dst.Length
      modifies dst
      ensures dst[..] == Halve(src)
    {
      for j := 0 to dst.Length
        invariant forall k :: 0 <= k < j ==> dst[k] == Halve(src)[k]
      {
        for i := 0 to 16
          invariant forall k :: 0 <= k < j ==> dst[k] == Halve(src)[k]
          invariant forall k :: 0 <= k < i ==> dst[j][k] == src[2 * j][k] + src[2 * j + 1][k]
        {
          dst[j] := dst[j][i := src[2 * j][i] + src[2 * j + 1][i]];
        }
        assert dst[j] == VecAdd(src[2 * j], src[2 * j + 1]);
      }
    }
  }

  /** The pipeline after the first t calls. */
  ghost function PipeAfter(p: Pipe, xs: seq<Input>, t: nat): (p': Pipe)
    requires p.Sized() && t <= |xs|
    ensures p'.Sized()
  {
    if t == 0 then p else PipeStep(PipeAfter(p, xs, t - 1), xs[t - 1])
  }

  /** Lane `lane` of the sum of the first n vectors. */
  function LaneSum(vs: seq<Vec>, lane: nat, n: nat): real
    requires lane < 16 && n <= |vs|
  {
    if n == 0 then 0.0 else LaneSum(vs, lane, n - 1) + vs[n - 1][lane]
  }

  /** The lane-wise sum of all the vectors. */
  function VecSum(vs: seq<Vec>): Vec {
    seq(16, lane requires 0 <= lane < 16 => LaneSum(vs, lane, |vs|))
  }

  lemma {:induction false} HalveKeepsSum(vs: seq<Vec>, lane: nat, n: nat)
    requires lane < 16 && 2 * n <= |vs|
    ensures LaneSum(Halve(vs), lane, n) == LaneSum(vs, lane, 2 * n)
  {
    if n == 0 {
    } else {
      HalveKeepsSum(vs, lane, n - 1);
      assert Halve(vs)[n - 1][lane] == vs[2 * (n - 1)][lane] + vs[2 * (n - 1) + 1][lane];
      assert LaneSum(vs, lane, 2 * n) == LaneSum(vs, lane, 2 * n - 1) + vs[2 * n - 1][lane];
    }
  }

  /** The adder tree computes the lane-wise sum of its sixteen inputs. */
  lemma TreeIsSum(vs: Bundle)
    ensures var last := Halve(Halve(Halve(vs))); |last| == 2 && VecAdd(last[0], last[1]) == VecSum(vs)
  {
    var c := Halve(Halve(Halve(vs)));
    forall lane | 0 <= lane < 16
      ensures VecAdd(c[0], c[1])[lane] == VecSum(vs)[lane]
    {
      HalveKeepsSum(vs, lane, 8);
      HalveKeepsSum(Halve(vs), lane, 4);
      HalveKeepsSum(Halve(Halve(vs)), lane, 2);
      PairSum(c, lane);
    }
  }

  lemma PairSum(c: seq<Vec>, lane: nat)
    requires |c| == 2 && lane < 16
    ensures VecAdd(c[0], c[1])[lane] == LaneSum(c, lane, 2)
  {
    assert LaneSum(c, lane, 1) == LaneSum(c, lane, 0) + c[0][lane];
  }

  /** After t calls, stage n holds the vectors and the flag of call t - n, added n times over. */
  ghost predicate InStage(q: Pipe, xs: seq<Input>, t: nat, n: nat)
    requires n <= t <= |xs| && 1 <= n <= 4
  {
    var x := xs[t - n];
    q.Sized() &&
    if n == 1 then q.s1 == Halve(x.vectors) && q.valid[0] == x.valid
    else if n == 2 then q.s2 == Halve(Halve(x.vectors)) && q.valid[1] == x.valid
    else if n == 3 then q.s3 == Halve(Halve(Halve(x.vectors))) && q.valid[2] == x.valid
    else q.s4 == VecSum(x.vectors) && q.valid[3] == x.valid
  }

  /** Where the last four of t calls are. */
  ghost predicate Staged(q: Pipe, xs: seq<Input>, t: nat)
    requires t <= |xs|
  {
    forall n :: 1 <= n <= 4 && n <= t ==> InStage(q, xs, t, n)
  }

  lemma Enters(q: Pipe, xs: seq<Input>, t: nat)
    requires q.Sized() && 1 <= t <= |xs|
    ensures InStage(PipeStep(q, xs[t - 1]), xs, t, 1)
  {
  }

  lemma MovesOn(q: Pipe, xs: seq<Input>, t: nat, n: nat)
    requires 2 <= n <= 4 && n <= t <= |xs| && InStage(q, xs, t - 1, n - 1)
    ensures InStage(PipeStep(q, xs[t - 1]), xs, t, n)
  {
    TreeIsSum(xs[t - n].vectors);
  }

  lemma StagedNext(q: Pipe, xs: seq<Input>, t: nat) returns (q': Pipe)
    requires q.Sized() && 0 < t <= |xs| && Staged(q, xs, t - 1)
    ensures q' == PipeStep(q, xs[t - 1]) && Staged(q', xs, t)
  {
    q' := PipeStep(q, xs[t - 1]);
    forall n | 1 <= n <= 4 && n <= t
      ensures InStage(q', xs, t, n)
    {
      if n == 1 {
        Enters(q, xs, t);
      } else {
        MovesOn(q, xs, t, n);
      }
    }
  }

  /** The stage invariant: every call's vectors and flag move one stage on with each later call. */
  lemma {:induction false} Travels(p: Pipe, xs: seq<Input>, t: nat)
    requires p.Sized() && t <= |xs|
    ensures Staged(PipeAfter(p, xs, t), xs, t)
  {
    if t == 0 {
    } else {
      Travels(p, xs, t - 1);
      var q := StagedNext(PipeAfter(p, xs, t - 1), xs, t);
    }
  }

  /** What call k, counted from 0, reports. */
  ghost function Reported(p: Pipe, xs: seq<Input>, k: nat): (bool, Vec)
    requires p.Sized() && k <= |xs|
  {
    var q := PipeAfter(p, xs, k);
    (q.valid[3], q.s4)
  }

  /** A unit just constructed. */
  function ResetPipe(): (p: Pipe)
    ensures p.Sized()
  {
    Pipe(Zeros(8), Zeros(4), Zeros(2), Zero(), [false, false, false, false])
  }

  /**
   * Pipelined reduction: every call reports the flag and the lane-wise sum that were presented
   * four calls earlier; the first four calls after reset report invalid zeros.
   */
  lemma PipelinedReduction(xs: seq<Input>, k: nat)
    requires k <= |xs|
    ensures Reported(ResetPipe(), xs, k)
         == if k < 4 then (false, Zero()) else (xs[k - 4].valid, VecSum(xs[k - 4].vectors))
  {
    if k < 4 {
      ZerosFlush(ResetPipe(), xs, k);
    } else {
      Travels(ResetPipe(), xs, k);
      assert InStage(PipeAfter(ResetPipe(), xs, k), xs, k, 4);
    }
  }

  /** Registers that hold nothing but zeros from stage n + 1 on. */
  ghost predicate ZeroFrom(q: Pipe, n: nat)
    requires q.Sized()
  {
    && q.s4 == Zero() && (n < 3 ==> q.s3 == Zeros(2)) && (n < 2 ==> q.s2 == Zeros(4)) && (n < 1 ==> q.s1 == Zeros(8))
    && forall j :: n <= j < 4 ==> !q.valid[j]
  }

  /** The zero content of a reset unit leaves it stage by stage. */
  lemma {:induction false} ZerosFlush(p: Pipe, xs: seq<Input>, k: nat)
    requires p.Sized() && ZeroFrom(p, 0) && k <= |xs| && k < 4
    ensures ZeroFrom(PipeAfter(p, xs, k), k)
  {
    if k == 0 {
    } else {
      ZerosFlush(p, xs, k - 1);
      ZeroStages(PipeAfter(p, xs, k - 1), xs[k - 1], k);
    }
  }

  /** A stage full of zeros hands zeros to the next one. */
  lemma ZeroStages(p: Pipe, x: Input, n: nat)
    requires p.Sized() && 0 < n < 4 && ZeroFrom(p, n - 1)
    ensures ZeroFrom(PipeStep(p, x), n)
  {
    assert VecAdd(Zero(), Zero()) == Zero();
    assert Halve(Zeros(4)) == Zeros(2);
    assert Halve(Zeros(8)) == Zeros(4);
  }
}
