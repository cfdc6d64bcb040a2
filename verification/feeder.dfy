/** The sixteen skewing delay lines in front of a systolic array. */
module Feeder {
  import opened Vectors

  /** The contents of the sixteen queues, front first. */
  type Lines = l: seq<seq<real>> | |l| == 16 witness NoLines()

  function NoLines(): seq<seq<real>> {
    seq(16, _ => [])
  }

  /** Every queue empty. */
  function Empty(): Lines {
    NoLines()
  }

  /** Line i receives i zeros and then lane i of v. */
  function Pushed(l: Lines, v: Vec): Lines {
    seq(16, i requires 0 <= i < 16 => l[i] + Constant(i) + [v[i]])
  }

  function Head(q: seq<real>): real {
    if q == [] then 0.0 else q[0]
  }

  function Tail(q: seq<real>): seq<real> {
    if q == [] then [] else q[1..]
  }

  function Heads(l: Lines): Vec {
    seq(16, i requires 0 <= i < 16 => Head(l[i]))
  }

  function Popped(l: Lines): Lines {
    seq(16, i requires 0 <= i < 16 => Tail(l[i]))
  }

  class ArrayFeeder {
    const delayLines: array<seq<real>>

    ghost predicate Valid() {
      delayLines.Length == 16
    }

    ghost function Contents(): Lines
      requires Valid()
      reads delayLines
    {
      delayLines[..]
    }

    constructor ()
      ensures Valid() && fresh(delayLines)
      ensures Contents() == Empty()
    {
      delayLines := new seq<real>[16](_ => []);
    }

    /** Line i receives i zeros and then the value. */
    method PushLine(i: nat, value: real)
      requires Valid() && i < 16
      modifies delayLines
      ensures delayLines[..] == old(delayLines[..])[i := old(delayLines[i]) + Constant(i) + [value]]
    {
      for delay := 0 to i
        invariant delayLines[i] == old(delayLines[i]) + Constant(delay)
        invariant forall j :: 0 <= j < 16 && j != i ==> delayLines[j] == old(delayLines[j])
      {
        assert Constant(delay + 1) == Constant(delay) + [0.0];
        delayLines[i] := delayLines[i] + [0.0];
      }
      delayLines[i] := delayLines[i] + [value];
    }

    /** Queues one vector with the stagger that a systolic array needs. */
    method PushVector(vec: seq<real>)
      requires Valid() && |vec| >= 16
      modifies delayLines
      ensures Contents() == Pushed(old(Contents()), vec[..16])
    {
      ghost var before := delayLines[..];
      for i := 0 to 16
        invariant forall j :: 0 <= j < 16 ==>
          delayLines[..][j] == if j < i then before[j] + Constant(j) + [vec[j]] else before[j]
      {
        PushLine(i, vec[i]);
      }
      assert delayLines[..] == Pushed(before, vec[..16]);
    }

    /** Pops one value from every line; an exhausted line yields zero. */
    method GetNextActivations() returns (acts: Vec)
      requires Valid()
      modifies delayLines
      ensures acts == Heads(old(Contents()))
      ensures Contents() == Popped(old(Contents()))
    {
      ghost var before := delayLines[..];
      acts := Zero();
      for i := 0 to 16
        invariant forall j :: 0 <= j < 16 ==> delayLines[j] == if j < i then Tail(before[j]) else before[j]
        invariant forall j :: 0 <= j < 16 ==> acts[j] == if j < i then Head(before[j]) else 0.0
      {
        if delayLines[i] != [] {
          acts := acts[i := delayLines[i][0]];
          delayLines[i] := delayLines[i][1..];
        }
      }
      assert delayLines[..] == Popped(before);
    }

    method IsEmpty() returns (empty: bool)
      requires Valid()
      ensures empty <==> Contents() == Empty()
    {
      for i := 0 to 16
        invariant forall j :: 0 <= j < i ==> delayLines[j] == []
      {
        if delayLines[i] != [] {
          assert Contents()[i] != Empty()[i];
          return false;
        }
      }
      assert Contents() == Empty();
      return true;
    }
  }

  /** The lines after k pops. */
  function Drained(l: Lines, k: nat): Lines {
    if k == 0 then l else Popped(Drained(l, k - 1))
  }

  /** The first n activation vectors popped from l. */
  function Feed(l: Lines, n: nat): (s: seq<Vec>)
    ensures |s| == n
  {
    seq(n, k requires 0 <= k < n => Heads(Drained(l, k)))
  }

  lemma {:induction false} DrainedAt(l: Lines, k: nat, i: nat)
    requires i < 16
    ensures Drained(l, k)[i] == if k < |l[i]| then l[i][k..] else []
  {
    if k == 0 {
    } else {
      DrainedAt(l, k - 1, i);
    }
  }

  /** The k-th pop takes the k-th value of every line that still has one. */
  lemma FeedAt(l: Lines, n: nat, k: nat, i: nat)
    requires k < n && i < 16
    ensures Feed(l, n)[k][i] == if k < |l[i]| then l[i][k] else 0.0
  {
    DrainedAt(l, k, i);
  }

  /** Lane i of v comes out of line i on pop start + i, so the skew is the one the array needs. */
  ghost predicate Aligned(l: Lines, v: Vec, start: nat) {
    forall i :: 0 <= i < 16 ==> Feed(l, start + 16)[start + i][i] == v[i]
  }

  /**
   * Pushing onto a backlog keeps the wavefront together for every vector if and only if all
   * sixteen lines hold equally many values.
   */
  lemma AlignedIffLevel(l: Lines, start: nat)
    ensures (forall v: Vec :: Aligned(Pushed(l, v), v, start)) <==> (forall i :: 0 <= i < 16 ==> |l[i]| == start)
  {
    if forall i :: 0 <= i < 16 ==> |l[i]| == start {
      forall v: Vec, i | 0 <= i < 16
        ensures Feed(Pushed(l, v), start + 16)[start + i][i] == v[i]
      {
        FeedAt(Pushed(l, v), start + 16, start + i, i);
      }
    } else {
      var i :| 0 <= i < 16 && |l[i]| != start;
      var other := OffBeat(l, start, i);
      assert !Aligned(Pushed(l, other), other, start);
    }
  }

  /** A vector that an uneven line i delivers at the wrong time. */
  lemma OffBeat(l: Lines, start: nat, i: nat) returns (v: Vec)
    requires i < 16 && |l[i]| != start
    ensures Feed(Pushed(l, v), start + 16)[start + i][i] != v[i]
  {
    var x := ValueAt(l[i], start + i) + 1.0;
    v := Zero()[i := x];
    FeedAt(Pushed(l, v), start + 16, start + i, i);
    LineOffBeat(l[i], i, x, start);
  }

  function ValueAt(q: seq<real>, k: nat): real {
    if k < |q| then q[k] else 0.0
  }

  lemma LineOffBeat(q: seq<real>, i: nat, x: real, start: nat)
    requires |q| != start && x == ValueAt(q, start + i) + 1.0
    ensures ValueAt(q + Constant(i) + [x], start + i) != x
  {
  }

  /** A push into an empty feeder delivers v on the diagonal and nothing else. */
  lemma FreshFeedAt(v: Vec, n: nat, k: nat, i: nat)
    requires k < n && i < 16
    ensures Feed(Pushed(Empty(), v), n)[k][i] == if k == i then v[i] else 0.0
  {
    FeedAt(Pushed(Empty(), v), n, k, i);
  }

  /** Sixteen pops, and no fewer, empty a feeder that held one vector. */
  lemma EmptyAfterSixteen(v: Vec, k: nat)
    ensures Drained(Pushed(Empty(), v), k) == Empty() <==> 16 <= k
  {
    var l := Pushed(Empty(), v);
    if 16 <= k {
      forall i | 0 <= i < 16
        ensures Drained(l, k)[i] == Empty()[i]
      {
        DrainedAt(l, k, i);
      }
    } else {
      DrainedAt(l, k, 15);
      assert Drained(l, k)[15] != Empty()[15];
    }
  }
}
