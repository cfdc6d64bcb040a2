/** Assignment of feature dimensions to vaults, and how evenly it spreads them. */
module Partition {
  import Arith
  import ChunkGrid

  const WORD: nat := 0x1_0000_0000

  /** A 32-bit unsigned integer. */
  type Word = w: int | 0 <= w < WORD

  datatype PartitionMode = RowInterleaved | FeaturePartitioned

  datatype FeaturePartitionConfig = FeaturePartitionConfig(numVaults: Word, featureDim: Word, chunkSize: Word,
                                                           hybridThresholdDim: Word)

  datatype FeaturePartitionResult = FeaturePartitionResult(mode: PartitionMode, numVaults: Word, featureDim: Word,
                                                           chunkSize: Word, dimToVault: seq<Word>)

  datatype Outcome<T> = Made(value: T) | InvalidArgument | RuntimeError

  datatype PartitionStats = PartitionStats(minDims: nat, maxDims: nat, avgDims: real, imbalanceRatio: real)

  // ---- the promised mappings

  /** Chunks of consecutive dimensions dealt to the vaults in turn. */
  function Striped(dims: nat, chunk: Word, vaults: Word): (s: seq<Word>)
    requires chunk > 0 && vaults > 0
    ensures |s| == dims && forall d :: 0 <= d < dims ==> s[d] == (d / chunk) % vaults
  {
    seq(dims, d requires 0 <= d < dims => (d / chunk) % vaults)
  }

  // ---- the chunk loop, with its 32-bit counters

  /** The loop's two counters and the vault of every dimension so far. */
  datatype Sweep = Sweep(start: Word, chunkId: Word, vaults: seq<Word>)

  predicate Chunkable(cfg: FeaturePartitionConfig) {
    cfg.featureDim > 0 && cfg.numVaults > 0 && cfg.chunkSize > 0
  }

  function Wrapped(x: nat): Word {
    x % WORD
  }

  function ChunkEnd(cfg: FeaturePartitionConfig, start: Word): Word {
    if cfg.featureDim < Wrapped(start + cfg.chunkSize) then cfg.featureDim else Wrapped(start + cfg.chunkSize)
  }

  /** Dimensions from..to assigned to one vault; an empty range assigns nothing. */
  function Assigned(vaults: seq<Word>, from: nat, to: nat, v: Word): (s: seq<Word>)
    ensures |s| == |vaults| && forall d :: 0 <= d < |s| ==> s[d] == if from <= d < to then v else vaults[d]
  {
    seq(|vaults|, d requires 0 <= d < |vaults| => if from <= d < to then v else vaults[d])
  }

  /** One pass of the outer loop; nothing once start has reached the end. */
  function Next(cfg: FeaturePartitionConfig, s: Sweep): Sweep
    requires Chunkable(cfg)
  {
    if s.start >= cfg.featureDim then s
    else Sweep(Wrapped(s.start + cfg.chunkSize), Wrapped(s.chunkId + 1),
               Assigned(s.vaults, s.start, ChunkEnd(cfg, s.start), s.chunkId % cfg.numVaults))
  }

  function After(cfg: FeaturePartitionConfig, n: nat): (s: Sweep)
    requires Chunkable(cfg)
    ensures |s.vaults| == cfg.featureDim
  {
    if n == 0 then Sweep(0, 0, seq(cfg.featureDim, _ => 0)) else Next(cfg, After(cfg, n - 1))
  }

  predicate FinishesIn(cfg: FeaturePartitionConfig, n: nat)
    requires Chunkable(cfg)
  {
    After(cfg, n).start >= cfg.featureDim
  }

  /** The end of the last chunk, rounded up to a whole chunk, is still a 32-bit number. */
  predicate NoWrap(cfg: FeaturePartitionConfig)
    requires Chunkable(cfg)
  {
    (cfg.featureDim - 1) / cfg.chunkSize * cfg.chunkSize + cfg.chunkSize < WORD
  }

  /** Whether the loop ends: no start beyond 2^32 less the chunk's low bit is ever reached. */
  predicate Ends(cfg: FeaturePartitionConfig)
    requires Chunkable(cfg)
  {
    cfg.featureDim <= WORD - ChunkGrid.LowBit(cfg.chunkSize)
  }

  /** The mapping that the loop leaves behind, after however many passes. */
  ghost function Mapping(cfg: FeaturePartitionConfig): (vaults: seq<Word>)
    requires Chunkable(cfg) && Ends(cfg)
    ensures forall n :: FinishesIn(cfg, n) ==> After(cfg, n).vaults == vaults
  {
    EndsIff(cfg);
    var rounds :| FinishesIn(cfg, rounds);
    AllAgree(cfg, rounds);
    After(cfg, rounds).vaults
  }

  lemma AllAgree(cfg: FeaturePartitionConfig, rounds: nat)
    requires Chunkable(cfg) && FinishesIn(cfg, rounds)
    ensures forall n :: FinishesIn(cfg, n) ==> After(cfg, n) == After(cfg, rounds)
  {
    forall n: nat | FinishesIn(cfg, n)
      ensures After(cfg, n) == After(cfg, rounds)
    {
      if n <= rounds {
        StaysFinished(cfg, n, rounds);
      } else {
        StaysFinished(cfg, rounds, n);
      }
    }
  }

  /** Chunked partitioning. The precondition says that the loop ends; otherwise there is no result. */
  method MakeFeaturePartition(cfg: FeaturePartitionConfig) returns (r: Outcome<FeaturePartitionResult>)
    requires Chunkable(cfg) ==> Ends(cfg)
    ensures r.InvalidArgument? <==> !Chunkable(cfg)
    ensures Chunkable(cfg) ==>
      r == Made(FeaturePartitionResult(FeaturePartitioned, cfg.numVaults, cfg.featureDim, cfg.chunkSize, Mapping(cfg)))
  {
    if cfg.featureDim == 0 || cfg.numVaults == 0 {
      return InvalidArgument;
    }
    if cfg.chunkSize == 0 {
      return InvalidArgument;
    }
    EndsIff(cfg);
    ghost var rounds :| FinishesIn(cfg, rounds);
    var dims := new Word[cfg.featureDim](_ => 0);
    assert dims[..] == After(cfg, 0).vaults;
    DealChunks(cfg, dims, rounds);
    return Made(FeaturePartitionResult(FeaturePartitioned, cfg.numVaults, cfg.featureDim, cfg.chunkSize, dims[..]));
  }

  /** The outer loop: one chunk after the other, dealt to the vaults in turn. */
  method DealChunks(cfg: FeaturePartitionConfig, dims: array<Word>, ghost rounds: nat)
    requires Chunkable(cfg) && FinishesIn(cfg, rounds) && dims[..] == After(cfg, 0).vaults
    modifies dims
    ensures dims[..] == After(cfg, rounds).vaults
  {
    var start: Word, chunkId: Word := 0, 0;
    ghost var n := 0;
    while start < cfg.featureDim
      invariant n <= rounds && Sweep(start, chunkId, dims[..]) == After(cfg, n)
      decreases rounds - n
    {
      NotYet(cfg, n, rounds, start, chunkId, dims[..]);
      AssignRange(dims, start, ChunkEnd(cfg, start), chunkId % cfg.numVaults);
      start := Wrapped(start + cfg.chunkSize);
      chunkId := Wrapped(chunkId + 1);
      n := n + 1;
    }
    StaysFinished(cfg, n, rounds);
  }

  /** A pass that is still to come, in terms of the state that it starts from. */
  lemma NotYet(cfg: FeaturePartitionConfig, n: nat, rounds: nat, start: Word, chunkId: Word, vaults: seq<Word>)
    requires Chunkable(cfg) && n <= rounds && FinishesIn(cfg, rounds)
    requires Sweep(start, chunkId, vaults) == After(cfg, n) && start < cfg.featureDim
    ensures n < rounds
    ensures After(cfg, n + 1)
         == Sweep(Wrapped(start + cfg.chunkSize), Wrapped(chunkId + 1),
                  Assigned(vaults, start, ChunkEnd(cfg, start), chunkId % cfg.numVaults))
  {
  }

  /** The inner loop: one vault for every dimension of a chunk. */
  method AssignRange(dims: array<Word>, from: nat, to: nat, v: Word)
    requires to <= dims.Length
    modifies dims
    ensures dims[..] == Assigned(old(dims[..]), from, to, v)
  {
    var d := from;
    while d < to
      invariant d >= from
      invariant forall j :: 0 <= j < dims.Length ==> dims[j] == if from <= j < to && j < d then v else old(dims[j])
    {
      dims[d] := v;
      d := d + 1;
    }
  }

  lemma {:induction false} StaysFinished(cfg: FeaturePartitionConfig, n: nat, m: nat)
    requires Chunkable(cfg) && n <= m && FinishesIn(cfg, n)
    ensures After(cfg, m) == After(cfg, n)
  {
    if n == m {
    } else {
      StaysFinished(cfg, n, m - 1);
    }
  }

  // ---- when the loop computes the promised mapping

  /** The first c chunks are assigned as promised. */
  ghost predicate Chunked(cfg: FeaturePartitionConfig, s: Sweep, c: nat)
    requires Chunkable(cfg)
  {
    && s.start == c * cfg.chunkSize && s.chunkId == c && |s.vaults| == cfg.featureDim
    && StripedBelow(s.vaults, s.start, cfg.chunkSize, cfg.numVaults)
  }

  /** The dimensions below n are assigned as promised. */
  ghost predicate StripedBelow(s: seq<Word>, n: nat, chunk: nat, vaults: nat)
    requires chunk > 0 && vaults > 0
  {
    forall d :: 0 <= d < |s| && d < n ==> s[d] == (d / chunk) % vaults
  }

  lemma LastChunk(dims: nat, chunk: nat, c: nat)
    requires chunk > 0 && c * chunk < dims
    ensures c * chunk <= (dims - 1) / chunk * chunk
  {
    var last := (dims - 1) / chunk;
    if c > last {
      assert c * chunk == (c - last) * chunk + last * chunk;
      Arith.Scaled(c - last, chunk);
    } else {
      assert last * chunk == (last - c) * chunk + c * chunk;
    }
  }

  /** Chunk c, which starts at `from`, extends the promised assignment. */
  lemma OneMoreChunk(s: seq<Word>, from: nat, to: nat, c: nat, chunk: nat, vaults: nat, v: Word)
    requires chunk > 0 && vaults > 0 && from == c * chunk && v == c % vaults
    requires to == from + chunk || (|s| == to < from + chunk)
    requires StripedBelow(s, from, chunk, vaults)
    ensures StripedBelow(Assigned(s, from, to, v), from + chunk, chunk, vaults)
  {
    forall d | from <= d < from + chunk
      ensures d / chunk == c
    {
      Arith.DivModUnique(d, chunk, c, d - from);
    }
  }

  /** A pass on which neither counter wraps around. */
  lemma PlainPass(cfg: FeaturePartitionConfig, s: Sweep) returns (s': Sweep, to: nat, v: Word)
    requires Chunkable(cfg) && s.start < cfg.featureDim && |s.vaults| == cfg.featureDim
    requires s.start + cfg.chunkSize < WORD && s.chunkId + 1 < WORD
    ensures s' == Next(cfg, s) && s'.start == s.start + cfg.chunkSize && s'.chunkId == s.chunkId + 1
    ensures s'.vaults == Assigned(s.vaults, s.start, to, v) && v == s.chunkId % cfg.numVaults
    ensures to == s.start + cfg.chunkSize || (cfg.featureDim == to < s.start + cfg.chunkSize)
  {
    s', to, v := Next(cfg, s), ChunkEnd(cfg, s.start), s.chunkId % cfg.numVaults;
  }

  lemma ChunkStep(cfg: FeaturePartitionConfig, s: Sweep, c: nat) returns (s': Sweep)
    requires Chunkable(cfg) && NoWrap(cfg) && Chunked(cfg, s, c) && s.start < cfg.featureDim
    ensures s' == Next(cfg, s) && Chunked(cfg, s', c + 1) && s'.start == s.start + cfg.chunkSize
  {
    var to, v;
    NoWrapBelow(cfg, c);
    NextStart(cfg.chunkSize, c);
    s', to, v := PlainPass(cfg, s);
    OneMoreChunk(s.vaults, s.start, to, c, cfg.chunkSize, cfg.numVaults, v);
  }

  /** Neither counter wraps around at chunk c. */
  lemma NoWrapBelow(cfg: FeaturePartitionConfig, c: nat)
    requires Chunkable(cfg) && NoWrap(cfg) && c * cfg.chunkSize < cfg.featureDim
    ensures c * cfg.chunkSize + cfg.chunkSize < WORD && c + 1 < WORD
  {
    LastChunk(cfg.featureDim, cfg.chunkSize, c);
    NextStart(cfg.chunkSize, c);
  }

  lemma NextStart(chunk: nat, c: nat)
    requires chunk > 0
    ensures (c + 1) * chunk == c * chunk + chunk && c <= c * chunk
  {
    if c > 0 {
      Arith.Scaled(chunk, c);
    }
  }

  lemma {:induction false} NoWrapChunks(cfg: FeaturePartitionConfig, n: nat) returns (c: nat)
    requires Chunkable(cfg) && NoWrap(cfg)
    ensures Chunked(cfg, After(cfg, n), c) && (FinishesIn(cfg, n) || n <= After(cfg, n).start)
  {
    if n == 0 {
      c := 0;
    } else {
      c := NoWrapChunks(cfg, n - 1);
      if After(cfg, n - 1).start < cfg.featureDim {
        var s := ChunkStep(cfg, After(cfg, n - 1), c);
        c := c + 1;
      }
    }
  }

  /** Without wrap-around the loop ends, within one pass per dimension, in the promised mapping. */
  lemma NoWrapFinishes(cfg: FeaturePartitionConfig, n: nat)
    requires Chunkable(cfg) && NoWrap(cfg) && n >= cfg.featureDim
    ensures FinishesIn(cfg, n) && After(cfg, n).vaults == Striped(cfg.featureDim, cfg.chunkSize, cfg.numVaults)
  {
    var c := NoWrapChunks(cfg, n);
  }

  /** Past the first chunk and not on a chunk boundary. */
  predicate OffGrid(start: nat, chunk: nat)
    requires chunk > 0
  {
    start >= chunk && start % chunk != 0
  }

  /** Off the grid, the dimensions on both sides of the first boundary share a vault. */
  ghost predicate Smeared(cfg: FeaturePartitionConfig, s: Sweep)
    requires Chunkable(cfg) && |s.vaults| == cfg.featureDim
  {
    OffGrid(s.start, cfg.chunkSize) && cfg.chunkSize < cfg.featureDim ==>
      s.vaults[cfg.chunkSize - 1] == s.vaults[cfg.chunkSize]
  }

  /** Who is off the grid now was inside the first chunk or off the grid one chunk ago. */
  lemma OffGridBefore(start: nat, chunk: nat)
    requires chunk > 0 && OffGrid(start + chunk, chunk)
    ensures 0 < start < chunk || (chunk < start && OffGrid(start, chunk))
  {
    Arith.DivModUnique(start + chunk, chunk, start / chunk + 1, start % chunk);
    Arith.DivModUnique(chunk, chunk, 1, 0);
    Arith.DivModUnique(0, chunk, 0, 0);
  }

  /** A start that has just wrapped around is inside the first chunk. */
  lemma WrapsOntoGrid(start: Word, chunk: Word)
    requires chunk > 0 && OffGrid(Wrapped(start + chunk), chunk)
    ensures Wrapped(start + chunk) == start + chunk
  {
  }

  lemma SmearStep(cfg: FeaturePartitionConfig, s: Sweep)
    requires Chunkable(cfg) && |s.vaults| == cfg.featureDim && Smeared(cfg, s)
    ensures Smeared(cfg, Next(cfg, s))
  {
    if s.start < cfg.featureDim && OffGrid(Next(cfg, s).start, cfg.chunkSize) {
      WrapsOntoGrid(s.start, cfg.chunkSize);
      OffGridBefore(s.start, cfg.chunkSize);
    }
  }

  lemma {:induction false} SmearKept(cfg: FeaturePartitionConfig, n: nat)
    requires Chunkable(cfg)
    ensures Smeared(cfg, After(cfg, n))
  {
    if n == 0 {
    } else {
      SmearKept(cfg, n - 1);
      SmearStep(cfg, After(cfg, n - 1));
    }
  }

  lemma Ordered(a: nat, b: nat, c: nat)
    requires a <= b
    ensures a * c <= b * c
  {
    assert b * c == (b - a) * c + a * c;
  }

  lemma OnGridFinish(cfg: FeaturePartitionConfig, start: Word)
    requires Chunkable(cfg) && start >= cfg.featureDim && start % cfg.chunkSize == 0
    ensures NoWrap(cfg)
  {
    var chunk, k, last := cfg.chunkSize, start / cfg.chunkSize, (cfg.featureDim - 1) / cfg.chunkSize;
    assert start == k * chunk && last * chunk < start;
    if k <= last {
      Ordered(k, last, chunk);
      assert false;
    }
    assert k * chunk == (k - last) * chunk + last * chunk;
    Arith.Scaled(k - last, chunk);
  }

  /** A single chunk never wraps around. */
  lemma OneChunkFits(cfg: FeaturePartitionConfig)
    requires Chunkable(cfg) && cfg.featureDim <= cfg.chunkSize
    ensures NoWrap(cfg)
  {
    Arith.DivModUnique(cfg.featureDim - 1, cfg.chunkSize, 0, cfg.featureDim - 1);
  }

  lemma FirstChunkEnds(chunk: nat)
    requires chunk > 0
    ensures (chunk - 1) / chunk == 0
  {
    Arith.DivModUnique(chunk - 1, chunk, 0, chunk - 1);
  }

  lemma SecondChunkStarts(chunk: nat)
    requires chunk > 0
    ensures chunk / chunk == 1
  {
    Arith.DivModUnique(chunk, chunk, 1, 0);
  }

  /** With two vaults or more the promised mapping separates the first two chunks. */
  lemma StripesDiffer(cfg: FeaturePartitionConfig)
    requires Chunkable(cfg) && !NoWrap(cfg) && cfg.numVaults > 1
    ensures cfg.chunkSize < cfg.featureDim
    ensures var p := Striped(cfg.featureDim, cfg.chunkSize, cfg.numVaults); p[cfg.chunkSize - 1] != p[cfg.chunkSize]
  {
    if cfg.featureDim <= cfg.chunkSize {
      OneChunkFits(cfg);
    }
    FirstChunkEnds(cfg.chunkSize);
    SecondChunkStarts(cfg.chunkSize);
  }

  /** Whenever the loop ends, its mapping is the promised one exactly without wrap-around or with one vault. */
  lemma FinishedIff(cfg: FeaturePartitionConfig, n: nat)
    requires Chunkable(cfg) && FinishesIn(cfg, n)
    ensures After(cfg, n).vaults == Striped(cfg.featureDim, cfg.chunkSize, cfg.numVaults)
            <==> (NoWrap(cfg) || cfg.numVaults == 1)
  {
    var s, chunk := After(cfg, n), cfg.chunkSize;
    if NoWrap(cfg) {
      var c := NoWrapChunks(cfg, n);
    } else if cfg.numVaults == 1 {
      SingleVault(cfg, n);
    } else {
      SmearKept(cfg, n);
      if s.start % chunk == 0 {
        OnGridFinish(cfg, s.start);
      }
      StripesDiffer(cfg);
    }
  }

  lemma {:induction false} SingleVault(cfg: FeaturePartitionConfig, n: nat)
    requires Chunkable(cfg) && cfg.numVaults == 1
    ensures After(cfg, n).vaults == Striped(cfg.featureDim, cfg.chunkSize, 1)
  {
    if n == 0 {
    } else {
      SingleVault(cfg, n - 1);
    }
  }

  // ---- when the loop ends

  /** Without an end in sight, start has advanced by one chunk a pass, modulo 2^32. */
  lemma {:induction false} StartAt(cfg: FeaturePartitionConfig, n: nat) returns (x: nat)
    requires Chunkable(cfg)
    ensures x == n * cfg.chunkSize && (FinishesIn(cfg, n) || After(cfg, n).start == Wrapped(x))
  {
    if n == 0 {
      x := 0;
    } else {
      var y := StartAt(cfg, n - 1);
      x := OneMore(n - 1, cfg.chunkSize, y);
      if !FinishesIn(cfg, n - 1) {
        StartAdvances(cfg, After(cfg, n - 1), y);
      }
    }
  }

  lemma OneMore(n: nat, c: nat, y: nat) returns (x: nat)
    requires y == n * c
    ensures x == y + c == (n + 1) * c
  {
    x := y + c;
  }

  lemma StartAdvances(cfg: FeaturePartitionConfig, s: Sweep, x: nat)
    requires Chunkable(cfg) && s.start < cfg.featureDim && s.start == Wrapped(x)
    ensures Next(cfg, s).start == Wrapped(x + cfg.chunkSize)
  {
    WrappedAdds(x, cfg.chunkSize);
  }

  lemma WrappedAdds(a: nat, b: nat)
    ensures Wrapped(Wrapped(a) + b) == Wrapped(a + b)
  {
  }

  lemma WordIsPow2()
    ensures WORD == ChunkGrid.Pow2(32)
  {
    assert ChunkGrid.Pow2(8) == 256;
    ChunkGrid.Pow2Adds(8, 8);
    ChunkGrid.Pow2Adds(16, 16);
  }

  /** Every start is a multiple of the chunk's low bit, so it stays that far below 2^32. */
  lemma {:induction false} OnLowGrid(cfg: FeaturePartitionConfig, g: nat, odd: nat, cells: nat, n: nat) returns (j: nat)
    requires Chunkable(cfg) && cfg.chunkSize == g * odd && WORD == g * cells
    ensures After(cfg, n).start == g * j && j < cells
  {
    if n == 0 {
      j := 0;
    } else {
      j := OnLowGrid(cfg, g, odd, cells, n - 1);
      if After(cfg, n - 1).start < cfg.featureDim {
        j := GridStep(g, odd, cells, j);
      }
    }
  }

  lemma GridStep(g: nat, odd: nat, cells: nat, j: nat) returns (j': nat)
    requires WORD == g * cells && g * odd < WORD && j < cells
    ensures Wrapped(g * j + g * odd) == g * j' && j' < cells
  {
    var sum := j + odd;
    assert g * j + g * odd == g * sum;
    Cancel(g, odd, cells);
    if sum < cells {
      j' := sum;
    } else {
      j' := sum - cells;
      assert g * sum == g * (sum - cells) + g * cells;
    }
    GridBelow(g, j', cells);
  }

  lemma GridBelow(g: nat, j: nat, cells: nat)
    requires g > 0 && j < cells
    ensures g * j < g * cells
  {
    Ordered(j + 1, cells, g);
    assert (j + 1) * g == g * j + g && cells * g == g * cells;
  }

  lemma Cancel(g: nat, a: nat, b: nat)
    requires g * a < g * b
    ensures a < b && g > 0
  {
    if a >= b {
      Ordered(b, a, g);
    }
  }

  lemma NeverBeyond(cfg: FeaturePartitionConfig, n: nat)
    requires Chunkable(cfg) && FinishesIn(cfg, n)
    ensures Ends(cfg)
  {
    var g, odd := ChunkGrid.LowBit(cfg.chunkSize), ChunkGrid.OddPart(cfg.chunkSize);
    WordIsPow2();
    ChunkGrid.Factored(cfg.chunkSize);
    var cells := ChunkGrid.GridFits(cfg.chunkSize, 32);
    var j := OnLowGrid(cfg, g, odd, cells, n);
    Ordered(j + 1, cells, g);
    assert (j + 1) * g == g * j + g && cells * g == g * cells;
  }

  lemma EndsAt(cfg: FeaturePartitionConfig) returns (n: nat)
    requires Chunkable(cfg) && Ends(cfg)
    ensures FinishesIn(cfg, n)
  {
    var g, m := ChunkGrid.LowBit(cfg.chunkSize), 0;
    WordIsPow2();
    n, m := ChunkGrid.Reaches(cfg.chunkSize, 32);
    var x := StartAt(cfg, n);
    TopOfWord(x, m, g);
  }

  lemma TopOfWord(x: nat, m: nat, g: nat)
    requires x + g == WORD * m && 0 < g <= WORD
    ensures Wrapped(x) == WORD - g
  {
  }

  /**
   * The chunk loop ends if and only if the number of dimensions is at most 2^32 less the largest
   * power of two that divides the chunk size.
   */
  lemma EndsIff(cfg: FeaturePartitionConfig)
    requires Chunkable(cfg)
    ensures (exists n :: FinishesIn(cfg, n)) <==> Ends(cfg)
  {
    if n :| FinishesIn(cfg, n) {
      NeverBeyond(cfg, n);
    }
    if Ends(cfg) {
      var n := EndsAt(cfg);
    }
  }

  /**
   * Exactly when the chunk loop keeps its promise: it ends in the promised mapping if and only if
   * the last chunk's end does not wrap around, or there is one vault and the loop ends at all.
   */
  lemma CorrectIff(cfg: FeaturePartitionConfig)
    requires Chunkable(cfg)
    ensures (exists n :: FinishesIn(cfg, n)
                         && After(cfg, n).vaults == Striped(cfg.featureDim, cfg.chunkSize, cfg.numVaults))
            <==> NoWrap(cfg) || (cfg.numVaults == 1 && Ends(cfg))
  {
    if n :| FinishesIn(cfg, n) && After(cfg, n).vaults == Striped(cfg.featureDim, cfg.chunkSize, cfg.numVaults) {
      FinishedIff(cfg, n);
      NeverBeyond(cfg, n);
    }
    if NoWrap(cfg) {
      NoWrapFinishes(cfg, cfg.featureDim);
    } else if cfg.numVaults == 1 && Ends(cfg) {
      var n := EndsAt(cfg);
      FinishedIff(cfg, n);
    }
  }

  /** An input on which the loop never ends: even starts stay below the last odd word. */
  lemma NeverEnds(n: nat)
    ensures !FinishesIn(FeaturePartitionConfig(2, 0xFFFF_FFFF, 2, 128), n)
  {
    var cfg := FeaturePartitionConfig(2, 0xFFFF_FFFF, 2, 128);
    EndsIff(cfg);
    assert ChunkGrid.LowBit(2) == 2;
  }

  // ---- row interleaving and the hybrid choice

  method MakeRowInterleavedPartition(cfg: FeaturePartitionConfig) returns (r: Outcome<FeaturePartitionResult>)
    ensures r.InvalidArgument? <==> cfg.featureDim == 0 || cfg.numVaults == 0
    ensures cfg.featureDim > 0 && cfg.numVaults > 0 ==>
      r == Made(FeaturePartitionResult(RowInterleaved, cfg.numVaults, cfg.featureDim, 1,
                                       Striped(cfg.featureDim, 1, cfg.numVaults)))
  {
    if cfg.featureDim == 0 || cfg.numVaults == 0 {
      return InvalidArgument;
    }
    var dims := new Word[cfg.featureDim](_ => 0);
    for d := 0 to cfg.featureDim
      invariant forall j :: 0 <= j < d ==> dims[j] == j % cfg.numVaults
    {
      dims[d] := d % cfg.numVaults;
    }
    assert dims[..] == Striped(cfg.featureDim, 1, cfg.numVaults);
    return Made(FeaturePartitionResult(RowInterleaved, cfg.numVaults, cfg.featureDim, 1, dims[..]));
  }

  function ChoosePartitionMode(cfg: FeaturePartitionConfig): Outcome<PartitionMode> {
    if cfg.featureDim == 0 || cfg.numVaults == 0 then InvalidArgument
    else Made(if cfg.featureDim <= cfg.hybridThresholdDim then RowInterleaved else FeaturePartitioned)
  }

  /**
   * The threshold picks the branch. The mapping is a striping with the reported chunk size except
   * where the chunk loop wraps around over more than one vault.
   */
  method MakeHybridPartition(cfg: FeaturePartitionConfig) returns (r: Outcome<FeaturePartitionResult>)
    requires Chunkable(cfg) && cfg.featureDim > cfg.hybridThresholdDim ==> Ends(cfg)
    ensures r.InvalidArgument? <==>
      cfg.featureDim == 0 || cfg.numVaults == 0 || (cfg.chunkSize == 0 && cfg.featureDim > cfg.hybridThresholdDim)
    ensures !r.RuntimeError?
    ensures r.Made? ==>
      var p := r.value;
      p.mode == (if cfg.featureDim <= cfg.hybridThresholdDim then RowInterleaved else FeaturePartitioned)
      && p.chunkSize == (if p.mode == RowInterleaved then 1 else cfg.chunkSize)
      && p.chunkSize > 0 && p.numVaults == cfg.numVaults > 0 && p.featureDim == cfg.featureDim > 0
      && (p.mode == FeaturePartitioned ==> p.dimToVault == Mapping(cfg))
      && (p.dimToVault == Striped(p.featureDim, p.chunkSize, p.numVaults)
          <==> p.mode == RowInterleaved || NoWrap(cfg) || p.numVaults == 1)
  {
    var mode := ChoosePartitionMode(cfg);
    if mode.InvalidArgument? {
      return InvalidArgument;
    }
    if mode.value == RowInterleaved {
      r := MakeRowInterleavedPartition(cfg);
    } else {
      r := MakeFeaturePartition(cfg);
      if Chunkable(cfg) {
        var n := EndsAt(cfg);
        FinishedIff(cfg, n);
      }
    }
  }

  // ---- counting

  /** How many of the given dimensions belong to vault v. */
  function Count(vaults: seq<Word>, v: nat): nat {
    if vaults == [] then 0 else Count(vaults[..|vaults| - 1], v) + if vaults[|vaults| - 1] == v then 1 else 0
  }

  predicate InRange(r: FeaturePartitionResult) {
    forall d :: 0 <= d < |r.dimToVault| ==> r.dimToVault[d] < r.numVaults
  }

  /** The counts of all vaults. */
  function Counts(vaults: seq<Word>, n: nat): (s: seq<nat>)
    ensures |s| == n && forall v :: 0 <= v < n ==> s[v] == Count(vaults, v)
  {
    seq(n, v requires 0 <= v < n => Count(vaults, v))
  }

  method DimsPerVault(r: FeaturePartitionResult) returns (counts: Outcome<seq<nat>>)
    ensures counts == if InRange(r) then Made(Counts(r.dimToVault, r.numVaults)) else RuntimeError
  {
    var c := new nat[r.numVaults](_ => 0);
    for i := 0 to |r.dimToVault|
      invariant forall d :: 0 <= d < i ==> r.dimToVault[d] < r.numVaults
      invariant forall v :: 0 <= v < c.Length ==> c[v] == Count(r.dimToVault[..i], v)
    {
      var v := r.dimToVault[i];
      if v >= r.numVaults {
        return RuntimeError;
      }
      assert r.dimToVault[..i + 1][..i] == r.dimToVault[..i];
      c[v] := c[v] + 1;
    }
    assert r.dimToVault[..|r.dimToVault|] == r.dimToVault;
    assert c[..] == Counts(r.dimToVault, r.numVaults);
    return Made(c[..]);
  }

  function Sum(s: seq<nat>): nat {
    if s == [] then 0 else Sum(s[..|s| - 1]) + s[|s| - 1]
  }

  /** Every dimension is counted once. */
  lemma {:induction false} CountsSum(vaults: seq<Word>, n: nat)
    requires forall d :: 0 <= d < |vaults| ==> vaults[d] < n
    ensures Sum(Counts(vaults, n)) == |vaults|
  {
    if vaults == [] {
      SumOfZeros(Counts(vaults, n));
    } else {
      var m := |vaults| - 1;
      CountsSum(vaults[..m], n);
      SumBump(Counts(vaults[..m], n), Counts(vaults, n), vaults[m]);
    }
  }

  lemma {:induction false} SumOfZeros(s: seq<nat>)
    requires forall i :: 0 <= i < |s| ==> s[i] == 0
    ensures Sum(s) == 0
  {
    if s == [] {
    } else {
      SumOfZeros(s[..|s| - 1]);
    }
  }

  lemma {:induction false} SumBump(a: seq<nat>, b: seq<nat>, k: nat)
    requires |a| == |b| && forall i :: 0 <= i < |a| ==> b[i] == a[i] + if i == k then 1 else 0
    ensures Sum(b) == Sum(a) + if k < |a| then 1 else 0
  {
    if a == [] {
    } else {
      SumBump(a[..|a| - 1], b[..|b| - 1], k);
    }
  }
}
