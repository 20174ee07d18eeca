/** The balanced, ordered split of a sequence over context-parallel ranks. */
module SequenceShards {
  import opened Common

  datatype ShardInfo = ShardInfo(rank: int, worldSize: int, start: int, end: int, globalSeqLen: int) {
    function LocalSeqLen(): int { end - start }
  }

  datatype ShardError = NegativeLength | BadWorldSize | BadRank

  function GetShardInfo(globalSeqLen: int, rank: int, worldSize: int): Result<ShardInfo, ShardError> {
    if globalSeqLen < 0 then Err(NegativeLength)
    else if worldSize <= 0 then Err(BadWorldSize)
    else if rank < 0 || rank >= worldSize then Err(BadRank)
    else Ok(Shard(globalSeqLen, rank, worldSize))
  }

  function Shard(globalSeqLen: nat, rank: nat, worldSize: nat): ShardInfo
    requires rank < worldSize
  {
    var base := globalSeqLen / worldSize;
    var remainder := globalSeqLen % worldSize;
    var start := rank * base + Min(rank, remainder);
    var end := start + base + (if rank < remainder then 1 else 0);
    ShardInfo(rank, worldSize, start, end, globalSeqLen)
  }

  /** Neighbouring shards meet, the first starts the sequence, and the last ends it. */
  lemma ShardsMeet(g: nat, r: nat, w: nat)
    requires r < w
    ensures r == 0 ==> Shard(g, r, w).start == 0
    ensures r + 1 < w ==> Shard(g, r, w).end == Shard(g, r + 1, w).start
    ensures r + 1 == w ==> Shard(g, r, w).end == g
    ensures 0 <= Shard(g, r, w).start <= Shard(g, r, w).end
  {
    var base, remainder := g / w, g % w;
    DivMod(g, w);
    Distribute(r, 1, base);
    NonNegative(r, base);
    if r + 1 == w {
      Commute(base, w);
      assert Shard(g, r, w).end == r * base + remainder + base;
    }
  }

  lemma DivMod(g: nat, w: nat)
    requires w > 0
    ensures g == g / w * w + g % w && 0 <= g % w < w && g / w >= 0
  {
  }

  lemma Distribute(a: int, b: int, c: int)
    ensures (a + b) * c == a * c + b * c
  {
  }

  lemma Commute(a: int, b: int)
    ensures a * b == b * a
  {
  }

  lemma NonNegative(a: int, b: int)
    requires a >= 0 && b >= 0
    ensures a * b >= 0
    ensures a >= 1 ==> a * b >= b
  {
    if a >= 1 {
      Distribute(a - 1, 1, b);
      NonNegative(a - 1, b);
    }
  }

  lemma {:induction false} ShardStartsAscend(g: nat, r: nat, q: nat, w: nat)
    requires r <= q < w
    ensures Shard(g, r, w).start <= Shard(g, q, w).start
    ensures r < q ==> Shard(g, r, w).end <= Shard(g, q, w).start
  {
    ShardsMeet(g, q, w);
    if r < q {
      ShardStartsAscend(g, r, q - 1, w);
      ShardsMeet(g, q - 1, w);
    }
  }

  lemma {:induction false} ShardInRange(g: nat, r: nat, w: nat)
    requires r < w
    ensures 0 <= Shard(g, r, w).start <= Shard(g, r, w).end <= g
    decreases w - r
  {
    ShardsMeet(g, r, w);
    if r + 1 < w {
      ShardInRange(g, r + 1, w);
    }
  }

  /** Lengths differ by at most one, the longer shards first. */
  lemma ShardsAreBalanced(g: nat, r: nat, q: nat, w: nat)
    requires r <= q < w
    ensures 0 <= Shard(g, r, w).LocalSeqLen() - Shard(g, q, w).LocalSeqLen() <= 1
  {
  }

  /** Every position of the sequence is on exactly one rank. */
  lemma {:induction false} EveryPositionHasOneOwner(g: nat, i: nat, w: nat)
    requires i < g && 0 < w
    ensures exists r :: 0 <= r < w && Shard(g, r, w).start <= i < Shard(g, r, w).end
    ensures forall r, q | 0 <= r < w && 0 <= q < w
                          && Shard(g, r, w).start <= i < Shard(g, r, w).end
                          && Shard(g, q, w).start <= i < Shard(g, q, w).end :: r == q
  {
    ShardsMeet(g, w - 1, w);
    var r := OwnerUpTo(g, i, w, w - 1);
    forall r, q | 0 <= r < w && 0 <= q < w
                  && Shard(g, r, w).start <= i < Shard(g, r, w).end
                  && Shard(g, q, w).start <= i < Shard(g, q, w).end
      ensures r == q
    {
      if r < q { ShardStartsAscend(g, r, q, w); } else if q < r { ShardStartsAscend(g, q, r, w); }
    }
  }

  lemma {:induction false} OwnerUpTo(g: nat, i: nat, w: nat, q: nat) returns (r: nat)
    requires q < w && i < Shard(g, q, w).end
    ensures r <= q && Shard(g, r, w).start <= i < Shard(g, r, w).end
  {
    if Shard(g, q, w).start <= i {
      r := q;
    } else {
      ShardsMeet(g, 0, w);
      ShardsMeet(g, q - 1, w);
      r := OwnerUpTo(g, i, w, q - 1);
    }
  }

  /** How many ranks hold nothing: none once the sequence covers the ranks. */
  lemma EmptyShards(g: nat, r: nat, w: nat)
    requires r < w
    ensures Shard(g, r, w).LocalSeqLen() == 0 <==> g <= r
  {
    if g < w {
      assert g / w == 0 && g % w == g;
    } else {
      assert g / w >= 1;
    }
  }

  /** Every empty shard starts at the end of the sequence ... */
  lemma EmptyShardsStart(g: nat, r: nat, w: nat)
    requires g <= r < w
    ensures Shard(g, r, w).start == g
  {
    DivModUnique(g, w, 0, g);
  }

  /** ... and after one that is not empty the next starts later. */
  lemma StartsStrictlyAscend(g: nat, r: nat, q: nat, w: nat)
    requires r < q < w && r < g
    ensures Shard(g, r, w).start < Shard(g, q, w).start
  {
    ShardsMeet(g, r, w);
    EmptyShards(g, r, w);
    ShardStartsAscend(g, r, q, w);
  }

  /**
   * When one token is appended, a rank's shard starts where it did exactly if its rank is at most
   * the old remainder; only then can a rank keep what it stores and append.
   */
  lemma AppendingMovesLaterShards(g: nat, r: nat, w: nat)
    requires r < w
    ensures Shard(g + 1, r, w).start == Shard(g, r, w).start <==> r <= g % w
  {
    var b, m := g / w, g % w;
    assert g == w * b + m;
    if m + 1 < w {
      DivModUnique(g + 1, w, b, m + 1);
    } else {
      assert w * (b + 1) == w * b + w;
      DivModUnique(g + 1, w, b + 1, 0);
      assert r * (b + 1) == r * b + r;
    }
  }

  lemma DivModUnique(x: nat, w: nat, q: nat, m: nat)
    requires m < w && x == w * q + m
    ensures x / w == q && x % w == m
  {
    var d := x / w - q;
    Distribute(q, d, w);
    Commute(w, q);
    Commute(w, x / w);
    assert d * w == m - x % w;
    if d >= 1 { NonNegative(d, w); }
    if d <= -1 {
      NonNegative(-d, w);
      Distribute(d, -d, w);
    }
  }

  // ---- shards of a concrete sequence ----------------------------------------------

  function Flatten<T>(parts: seq<seq<T>>): seq<T> {
    if parts == [] then [] else Flatten(parts[..|parts| - 1]) + parts[|parts| - 1]
  }

  function ShardOf<T>(full: seq<T>, r: nat, w: nat): seq<T>
    requires r < w
  {
    ShardInRange(|full|, r, w);
    full[Shard(|full|, r, w).start..Shard(|full|, r, w).end]
  }

  /** What every rank holds of one sequence. */
  function Shards<T>(full: seq<T>, w: nat): seq<seq<T>> {
    seq(w, r requires 0 <= r < w => ShardOf(full, r, w))
  }

  lemma {:induction false} FlattenPrefix<T>(full: seq<T>, w: nat, n: nat)
    requires 0 < n <= w
    ensures 0 <= Shard(|full|, n - 1, w).end <= |full|
    ensures Flatten(Shards(full, w)[..n]) == full[..Shard(|full|, n - 1, w).end]
  {
    ShardInRange(|full|, n - 1, w);
    ShardsMeet(|full|, n - 1, w);
    FlattenStep(Shards(full, w), n - 1);
    if n > 1 {
      FlattenPrefix(full, w, n - 1);
      ShardsMeet(|full|, n - 2, w);
    }
    Joined(full, Shard(|full|, n - 1, w).start, Shard(|full|, n - 1, w).end);
  }

  lemma FlattenStep<T>(parts: seq<seq<T>>, n: nat)
    requires n < |parts|
    ensures Flatten(parts[..n + 1]) == Flatten(parts[..n]) + parts[n]
  {
    assert parts[..n + 1][..n] == parts[..n];
  }

  lemma Joined<T>(full: seq<T>, a: nat, b: nat)
    requires a <= b <= |full|
    ensures full[..a] + full[a..b] == full[..b]
  {
  }

  /** The ranks' shards, in rank order, are the sequence. */
  lemma FlattenShards<T>(full: seq<T>, w: nat)
    requires 0 < w
    ensures Flatten(Shards(full, w)) == full
  {
    FlattenPrefix(full, w, w);
    ShardsMeet(|full|, w - 1, w);
    assert Shards(full, w)[..w] == Shards(full, w);
  }
}
