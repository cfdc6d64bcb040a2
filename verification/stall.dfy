/** Why a cycle stops admitting: every port is empty, held, over budget or just refused. */
module Stall {
  import opened Ports
  import opened Admission

  /** A port that cannot be served in state s, given the sends made from position `from` on. */
  ghost predicate Blocked(k: Knobs, s: State, from: nat, p: Port) {
    s.queues[p] == [] || (var b := s.queues[p][0];
      || Held(k, s, b)
      || OverBudget(k, s, b)
      || exists j :: from <= j < |s.sends| && s.sends[j] == Send(p, b, false))
  }

  /** s' differs from s only by further sends. */
  ghost predicate OnlySent(s: State, s': State) {
    s' == s.(sends := s'.sends) && s.sends <= s'.sends
  }

  lemma AttemptStalls(k: Knobs, out: Outside, s: State, pc: Port)
    ensures s.outstanding <= Attempt(k, out, s, pc).outstanding
    ensures !Progress(s, Attempt(k, out, s, pc)) ==>
      OnlySent(s, Attempt(k, out, s, pc)) && Blocked(k, Attempt(k, out, s, pc), |s.sends|, pc)
  {
    var s' := Attempt(k, out, s, pc);
    if !Progress(s, s') && s.queues[pc] != [] && |s'.sends| > |s.sends| {
      assert s'.sends[|s.sends|] == Send(pc, s.queues[pc][0], false);
    }
  }

  lemma StaysBlocked(k: Knobs, s: State, s': State, from: nat, p: Port)
    requires OnlySent(s, s') && Blocked(k, s, from, p)
    ensures Blocked(k, s', from, p)
  {
    if s.queues[p] != [] {
      var b := s.queues[p][0];
      if j :| from <= j < |s.sends| && s.sends[j] == Send(p, b, false) {
        assert s'.sends[j] == Send(p, b, false);
      }
    }
  }

  lemma {:induction false} SweptStalls(k: Knobs, out: Outside, s: State, start: Port, n: nat, i: nat)
    requires n <= 16
    ensures s.outstanding <= Swept(k, out, s, start, n).outstanding
    ensures !Progress(s, Swept(k, out, s, start, n)) ==> OnlySent(s, Swept(k, out, s, start, n))
    ensures !Progress(s, Swept(k, out, s, start, n)) && i < n ==>
      Blocked(k, Swept(k, out, s, start, n), |s.sends|, Visit(start, i))
  {
    if n == 0 {
    } else {
      var t := Swept(k, out, s, start, n - 1);
      SweptStalls(k, out, s, start, n - 1, i);
      AttemptStalls(k, out, t, Visit(start, n - 1));
      if !Progress(s, Swept(k, out, s, start, n)) {
        if i < n - 1 {
          StaysBlocked(k, t, Swept(k, out, s, start, n), |s.sends|, Visit(start, i));
        }
      }
    }
  }

  /** How many waves the loop runs, the first n being used up. */
  ghost function WavesUsed(k: Knobs, out: Outside, s: State, n: nat): (m: nat)
    requires n <= MAX_WAVES
    ensures n <= m <= MAX_WAVES
    decreases MAX_WAVES - n
  {
    if n == MAX_WAVES then n
    else if Progress(s, Wave(k, out, s)) then WavesUsed(k, out, Wave(k, out, s), n + 1)
    else n + 1
  }

  /** A wave that admits nothing leaves every port blocked. */
  lemma WaveStalls(k: Knobs, out: Outside, s: State, p: Port)
    requires !Progress(s, Wave(k, out, s))
    ensures Blocked(k, Wave(k, out, s), |s.sends|, p)
  {
    var i := (p - s.cursor) % 16;
    assert Visit(s.cursor, i) == p;
    SweptStalls(k, out, s, s.cursor, 16, i);
  }

  /**
   * Work conservation: if a cycle stops before its 256 waves are used up, then for every port
   * that is not empty the head is held by serialization, over budget, or was refused by the
   * memory after the last admission of the cycle.
   */
  lemma {:induction false} WorkConserving(k: Knobs, out: Outside, s: State, n: nat, p: Port) returns (from: nat)
    requires n <= MAX_WAVES && WavesUsed(k, out, s, n) < MAX_WAVES
    ensures var e := Waves(k, out, s, n);
      && from <= |e.sends|
      && Blocked(k, e, from, p)
      && forall j :: from <= j < |e.sends| ==> !e.sends[j].accepted
    decreases MAX_WAVES - n
  {
    if Progress(s, Wave(k, out, s)) {
      from := WorkConserving(k, out, Wave(k, out, s), n + 1, p);
    } else {
      from := |s.sends|;
      WaveStalls(k, out, s, p);
      SweptStalls(k, out, s, s.cursor, 16, 0);
      NoneAccepted(k, out, s, s.cursor, 16);
    }
  }

  lemma {:induction false} NoneAccepted(k: Knobs, out: Outside, s: State, start: Port, n: nat)
    requires !Progress(s, Swept(k, out, s, start, n))
    ensures forall j :: |s.sends| <= j < |Swept(k, out, s, start, n).sends| ==>
      !Swept(k, out, s, start, n).sends[j].accepted
    ensures s.outstanding == Swept(k, out, s, start, n).outstanding
  {
    if n == 0 {
    } else {
      Monotone(k, out, s, start, n);
      NoneAccepted(k, out, s, start, n - 1);
    }
  }

  lemma {:induction false} Monotone(k: Knobs, out: Outside, s: State, start: Port, n: nat)
    requires 0 < n
    ensures s.outstanding <= Swept(k, out, s, start, n - 1).outstanding <= Swept(k, out, s, start, n).outstanding
  {
    AttemptStalls(k, out, Swept(k, out, s, start, n - 1), Visit(start, n - 1));
    if n == 1 {
    } else {
      Monotone(k, out, s, start, n - 1);
    }
  }
}
