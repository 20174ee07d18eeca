/**
 * Context-parallel generation: every rank holds a shard of the K/V cache, and each forward pass
 * gathers the shards, appends to the whole, and keeps this rank's shard of the result.
 */
module ContextParallel {
  import opened Common
  import opened LanguageModel
  import opened Generation
  import opened GenerationLoop
  import opened SequenceShards
  import FinalRows
  import opened Generate

  datatype CpError = TiedStarts | LengthMismatch | OutOfStep

  // ---- gathering the shards ------------------------------------------------------------

  /** A gathered shard and where it starts. */
  datatype Piece<E> = Piece(start: int, cache: Cache<E>)

  /** A shard, padded with zeros to the longest so that all ranks send tensors of one shape. */
  function PadShard<E>(cache: Cache<E>, maxLen: nat, zero: seq<E>): (padded: Cache<E>)
    requires |cache| <= maxLen
    ensures |padded| == maxLen && padded[..|cache|] == cache
  {
    cache + seq(maxLen - |cache|, _ => zero)
  }

  function LongestShard<E>(locals: seq<Cache<E>>): (maxLen: nat)
    ensures forall r | 0 <= r < |locals| :: |locals[r]| <= maxLen
  {
    if locals == [] then 0
    else Max(LongestShard(locals[..|locals| - 1]), |locals[|locals| - 1]|)
  }

  function Insert<E>(piece: Piece<E>, sorted: seq<Piece<E>>): seq<Piece<E>> {
    if sorted == [] then [piece]
    else
      var n := |sorted| - 1;
      if piece.start < sorted[n].start then Insert(piece, sorted[..n]) + [sorted[n]] else sorted + [piece]
  }

  /** Pieces in the order of their starts. */
  function Sorted<E>(pieces: seq<Piece<E>>): seq<Piece<E>> {
    if pieces == [] then [] else Insert(pieces[|pieces| - 1], Sorted(pieces[..|pieces| - 1]))
  }

  ghost predicate Ordered<E>(pieces: seq<Piece<E>>) {
    forall i, j | 0 <= i < j < |pieces| :: pieces[i].start <= pieces[j].start
  }

  lemma {:induction false} InsertOrders<E>(piece: Piece<E>, sorted: seq<Piece<E>>)
    requires Ordered(sorted)
    ensures Ordered(Insert(piece, sorted))
    ensures forall s | s in Insert(piece, sorted) :: s == piece || s in sorted
  {
    if sorted != [] {
      var n := |sorted| - 1;
      if piece.start < sorted[n].start {
        InsertOrders(piece, sorted[..n]);
        var inserted := Insert(piece, sorted[..n]);
        forall i | 0 <= i < |inserted| ensures inserted[i].start <= sorted[n].start {
          assert inserted[i] in inserted;
        }
      }
    }
  }

  lemma {:induction false} InsertKeeps<E>(piece: Piece<E>, sorted: seq<Piece<E>>)
    ensures multiset(Insert(piece, sorted)) == multiset(sorted) + multiset{piece}
  {
    if sorted != [] {
      var n := |sorted| - 1;
      assert sorted == sorted[..n] + [sorted[n]];
      if piece.start < sorted[n].start {
        InsertKeeps(piece, sorted[..n]);
      }
    }
  }

  /** Sorting puts the starts in order and keeps exactly the pieces. */
  lemma {:induction false} SortedOrders<E>(pieces: seq<Piece<E>>)
    ensures Ordered(Sorted(pieces)) && multiset(Sorted(pieces)) == multiset(pieces)
  {
    if pieces != [] {
      var n := |pieces| - 1;
      assert pieces == pieces[..n] + [pieces[n]];
      SortedOrders(pieces[..n]);
      InsertOrders(pieces[n], Sorted(pieces[..n]));
      InsertKeeps(pieces[n], Sorted(pieces[..n]));
    }
  }

  /** Two pieces with one start: ordering them would compare their tensors. */
  ghost predicate Tied(starts: seq<int>) {
    exists i, j :: 0 <= i < j < |starts| && starts[i] == starts[j]
  }

  function Pieces<E>(starts: seq<int>, locals: seq<Cache<E>>): (pieces: seq<Piece<E>>)
    requires |starts| == |locals|
    ensures |pieces| == |locals|
  {
    seq(|locals|, r requires 0 <= r < |locals| => Piece(starts[r], locals[r]))
  }

  function Caches<E>(pieces: seq<Piece<E>>): (caches: seq<Cache<E>>)
    ensures |caches| == |pieces|
  {
    seq(|pieces|, i requires 0 <= i < |pieces| => pieces[i].cache)
  }

  /** What the ranks gather from their shards. */
  ghost function Gathered<E>(starts: seq<int>, locals: seq<Cache<E>>): Result<Cache<E>, CpError>
    requires |starts| == |locals|
  {
    if Tied(starts) then Err(TiedStarts) else Ok(Flatten(Caches(Sorted(Pieces(starts, locals)))))
  }

  /** The gathered, padded shards cut back to their lengths, in the order of their starts. */
  method SortCacheShards<E>(starts: seq<int>, lengths: seq<nat>, padded: seq<Cache<E>>, ghost locals: seq<Cache<E>>)
    returns (sorted: seq<Piece<E>>)
    requires |starts| == |lengths| == |padded| == |locals|
    requires forall r | 0 <= r < |locals| :: lengths[r] <= |padded[r]| && padded[r][..lengths[r]] == locals[r]
    ensures sorted == Sorted(Pieces(starts, locals))
    ensures Ordered(sorted) && multiset(sorted) == multiset(Pieces(starts, locals))
  {
    var pieces: seq<Piece<E>> := [];
    for r := 0 to |starts|
      invariant pieces == Pieces(starts, locals)[..r]
    {
      pieces := pieces + [Piece(starts[r], padded[r][..lengths[r]])];
    }
    assert pieces == Pieces(starts, locals);
    sorted := Sorted(pieces);
    SortedOrders(pieces);
  }

  /** Every rank's shard, padded, sent, cut back, sorted and joined. */
  method GatherFullCache<E>(starts: seq<int>, locals: seq<Cache<E>>, zero: seq<E>) returns (full: Cache<E>)
    requires |starts| == |locals| && !Tied(starts)
    ensures Gathered(starts, locals) == Ok(full)
  {
    var maxLen := LongestShard(locals);
    var lengths := seq(|locals|, r requires 0 <= r < |locals| => |locals[r]|);
    var padded := seq(|locals|, r requires 0 <= r < |locals| && |locals[r]| <= maxLen =>
      PadShard(locals[r], maxLen, zero));
    var sorted := SortCacheShards(starts, lengths, padded, locals);
    full := [];
    ghost var caches := Caches(sorted);
    for i := 0 to |sorted|
      invariant full == Flatten(caches[..i])
    {
      assert caches[..i + 1][..i] == caches[..i];
      full := full + sorted[i].cache;
    }
    assert caches[..|sorted|] == caches;
  }

  lemma {:induction false} AscendingStaySorted<E>(pieces: seq<Piece<E>>)
    requires forall i, j | 0 <= i < j < |pieces| :: pieces[i].start < pieces[j].start
    ensures Sorted(pieces) == pieces
  {
    if pieces != [] {
      AscendingStaySorted(pieces[..|pieces| - 1]);
    }
  }

  function Starts(g: nat, w: nat): (starts: seq<int>)
    ensures |starts| == w
  {
    seq(w, r requires 0 <= r < w => Shard(g, r, w).start)
  }

  /** Shards of a sequence tie exactly when two of them are empty. */
  lemma StartsTie(g: nat, w: nat)
    ensures Tied(Starts(g, w)) <==> g + 1 < w
  {
    if g + 1 < w {
      EmptyShardsStart(g, g, w);
      EmptyShardsStart(g, g + 1, w);
      assert Starts(g, w)[g] == Starts(g, w)[g + 1];
    } else {
      forall i, j | 0 <= i < j < w
        ensures Starts(g, w)[i] < Starts(g, w)[j]
      {
        StartsStrictlyAscend(g, i, j, w);
      }
    }
  }

  /**
   * Ranks that hold the shards of a cache gather that cache, exactly when at most one of the shards
   * is empty.
   */
  lemma GatheringRestores<E>(full: Cache<E>, w: nat)
    requires w > 0
    ensures Gathered(Starts(|full|, w), Shards(full, w)) ==
            if |full| + 1 < w then Err(TiedStarts) else Ok(full)
  {
    StartsTie(|full|, w);
    if |full| + 1 >= w {
      var pieces := Pieces(Starts(|full|, w), Shards(full, w));
      forall i, j | 0 <= i < j < w
        ensures pieces[i].start < pieces[j].start
      {
        StartsStrictlyAscend(|full|, i, j, w);
      }
      AscendingStaySorted(pieces);
      assert Caches(pieces) == Shards(full, w);
      FlattenShards(full, w);
    }
  }

  // ---- the ranks ------------------------------------------------------------------------

  datatype Rank<E, L> = Rank(ctx: Ctx, local: Cache<E>, info: ShardInfo, logits: seq<L>)

  ghost predicate Ready<E, L>(rank: Rank<E, L>, rows: nat) {
    && rank.ctx.Shaped() && |rank.ctx.sequences| == |rank.logits| == rows
    && (rank.ctx.prefixMask.Some? ==> rank.ctx.mask.Some?)
  }

  ghost predicate AllReady<E, L>(ranks: seq<Rank<E, L>>, rows: nat) {
    forall r | 0 <= r < |ranks| :: Ready(ranks[r], rows)
  }

  /** One rank's forward pass on the gathered cache: its logits and its shard of the longer cache. */
  ghost function RankForward<E, L>(m: Model<E, L>, r: nat, w: nat, full: Cache<E>, ctx: Ctx, inputs: seq<RowInput>,
                                   n: nat): (rank: Result<Rank<E, L>, CpError>)
    requires r < w && ctx.Shaped() && |inputs| == |ctx.sequences|
    requires ctx.prefixMask.Some? ==> ctx.mask.Some?
    ensures rank.Ok? ==> rank.value.ctx == ctx && Ready(rank.value, |inputs|)
  {
    if |full| + n != ctx.prefixLen + ctx.length then Err(LengthMismatch)
    else if !CacheFor(full, |inputs|, |full|) || !InputsValid(inputs, |full|, n) then Err(LengthMismatch)
    else
      var out := Forward(m, full, inputs, n);
      Ok(Rank(ctx, ShardOf(out.cache, r, w), Shard(|out.cache|, r, w), out.logits))
  }

  /** All of the ranks' results, or an error of one of them. */
  function Together<T>(results: seq<Result<T, CpError>>): (all: Result<seq<T>, CpError>)
    ensures all.Ok? ==> |all.value| == |results|
    ensures all.Ok? ==> forall r | 0 <= r < |results| :: results[r] == Ok(all.value[r])
    ensures all.Ok? <==> forall r | 0 <= r < |results| :: results[r].Ok?
  {
    if results == [] then Ok([])
    else
      var before, last := Together(results[..|results| - 1]), results[|results| - 1];
      if before.Err? then before else if last.Err? then Err(last.error) else Ok(before.value + [last.value])
  }

  /** The logits a rank samples from: each row's owner's, or its own if no owner is configured. */
  function Handed<E, L>(ranks: seq<Rank<E, L>>, owner: Option<seq<nat>>, r: nat, rows: nat): (logits: seq<L>)
    requires r < |ranks| && OwnerFits(owner, |ranks|, rows)
    requires forall q | 0 <= q < |ranks| :: |ranks[q].logits| == rows
    ensures |logits| == rows
  {
    if owner.None? then ranks[r].logits
    else seq(rows, b requires 0 <= b < rows => ranks[owner.value[b]].logits[b])
  }

  predicate OwnerFits(owner: Option<seq<nat>>, w: nat, rows: nat) {
    owner.Some? ==> |owner.value| == rows && forall b | 0 <= b < rows :: owner.value[b] < w
  }

  /** A rank's context once it has appended the tokens it samples. */
  ghost function RankAfter<E, L>(cfg: Config<L>, ranks: seq<Rank<E, L>>, owner: Option<seq<nat>>, rows: nat, r: nat)
    : (after: Ctx)
    requires AllReady(ranks, rows) && OwnerFits(owner, |ranks|, rows) && r < |ranks|
    ensures after.Shaped() && |after.sequences| == rows
    ensures after.prefixMask.Some? ==> after.mask.Some?
  {
    Appended(cfg, ranks[r].ctx, Sampled(cfg, ranks[r].ctx, Handed(ranks, owner, r, rows)))
  }

  ghost function Afters<E, L>(cfg: Config<L>, ranks: seq<Rank<E, L>>, owner: Option<seq<nat>>, rows: nat)
    : (afters: seq<Ctx>)
    requires AllReady(ranks, rows) && OwnerFits(owner, |ranks|, rows)
    ensures |afters| == |ranks|
    ensures forall r | 0 <= r < |ranks| :: afters[r] == RankAfter(cfg, ranks, owner, rows, r)
  {
    seq(|ranks|, r requires 0 <= r < |ranks| => RankAfter(cfg, ranks, owner, rows, r))
  }

  function LocalsOf<E, L>(ranks: seq<Rank<E, L>>): (locals: seq<Cache<E>>)
    ensures |locals| == |ranks|
  {
    seq(|ranks|, r requires 0 <= r < |ranks| => ranks[r].local)
  }

  function StartsOf<E, L>(ranks: seq<Rank<E, L>>): (starts: seq<int>)
    ensures |starts| == |ranks|
  {
    seq(|ranks|, r requires 0 <= r < |ranks| => ranks[r].info.start)
  }

  /** A decode step of all ranks, each in its own context: gather, and every rank's forward pass. */
  ghost function CpDecoded<E, L>(m: Model<E, L>, cfg: Config<L>, ranks: seq<Rank<E, L>>, owner: Option<seq<nat>>,
                                 rows: nat): (next: Result<seq<Rank<E, L>>, CpError>)
    requires AllReady(ranks, rows) && OwnerFits(owner, |ranks|, rows)
    ensures next.Ok? ==> |next.value| == |ranks| && AllReady(next.value, rows)
  {
    var full := Gathered(StartsOf(ranks), LocalsOf(ranks));
    if full.Err? then Err(full.error)
    else Together(seq(|ranks|, r requires 0 <= r < |ranks| => RankDecoded(m, cfg, ranks, owner, rows, r, full.value)))
  }

  ghost function RankDecoded<E, L>(m: Model<E, L>, cfg: Config<L>, ranks: seq<Rank<E, L>>, owner: Option<seq<nat>>,
                                   rows: nat, r: nat, full: Cache<E>): (rank: Result<Rank<E, L>, CpError>)
    requires AllReady(ranks, rows) && OwnerFits(owner, |ranks|, rows) && r < |ranks|
    ensures rank.Ok? ==> Ready(rank.value, rows)
  {
    var after := RankAfter(cfg, ranks, owner, rows, r);
    var tokens := Emitted(cfg, ranks[r].ctx, Sampled(cfg, ranks[r].ctx, Handed(ranks, owner, r, rows)));
    RankForward(m, r, |ranks|, full, after, DecodeInputs(after, tokens), 1)
  }

  /** The contexts all ranks end with.  A rank that stops alone would leave the others in a collective. */
  ghost function CpRun<E, L>(m: Model<E, L>, cfg: Config<L>, ranks: seq<Rank<E, L>>, owner: Option<seq<nat>>, rows: nat,
                             step: nat): (ends: Result<seq<Ctx>, CpError>)
    requires AllReady(ranks, rows) && OwnerFits(owner, |ranks|, rows) && step < cfg.maxNewTokens
    decreases cfg.maxNewTokens - step
  {
    var afters := Afters(cfg, ranks, owner, rows);
    if forall r | 0 <= r < |ranks| :: ShouldFinish(cfg, afters[r], step) then Ok(afters)
    else if exists r :: 0 <= r < |ranks| && ShouldFinish(cfg, afters[r], step) then Err(OutOfStep)
    else
      var next := CpDecoded(m, cfg, ranks, owner, rows);
      if next.Err? then Err(next.error) else CpRun(m, cfg, next.value, owner, rows, step + 1)
  }

  /** What a rank's pass hands to its cache is what the cache accepts as local to it. */
  lemma ShardsFitTheirInfo<E>(full: Cache<E>, r: nat, w: nat)
    requires r < w
    ensures Shard(|full|, r, w).rank == r && Shard(|full|, r, w).worldSize == w
    ensures |ShardOf(full, r, w)| == Shard(|full|, r, w).LocalSeqLen()
  {
    ShardInRange(|full|, r, w);
  }

  // ---- refinement -------------------------------------------------------------------------

  /** Every rank's context and logits are the single process's, and its shard is a shard of that one's cache. */
  ghost predicate Refines<E, L>(ranks: seq<Rank<E, L>>, loop: Loop<E, L>)
    requires loop.Fits(true)
  {
    && |ranks| > 0
    && LocalsOf(ranks) == Shards(loop.cache, |ranks|) && StartsOf(ranks) == Starts(|loop.cache|, |ranks|)
    && forall r | 0 <= r < |ranks| :: RankRefines(ranks[r], loop, r, |ranks|)
  }

  ghost predicate RankRefines<E, L>(rank: Rank<E, L>, loop: Loop<E, L>, r: nat, w: nat)
    requires loop.Fits(true) && r < w
  {
    && rank.ctx == loop.ctx && rank.logits == loop.logits
    && rank.info == Shard(|loop.cache|, r, w) && rank.local == ShardOf(loop.cache, r, w)
    && Ready(rank, |loop.logits|)
  }

  lemma HandedIsOwn<E, L>(ranks: seq<Rank<E, L>>, owner: Option<seq<nat>>, loop: Loop<E, L>, r: nat)
    requires loop.Fits(true) && Refines(ranks, loop) && r < |ranks| && OwnerFits(owner, |ranks|, |loop.logits|)
    ensures AllReady(ranks, |loop.logits|)
    ensures Handed(ranks, owner, r, |loop.logits|) == loop.logits
  {
    forall q | 0 <= q < |ranks|
      ensures Ready(ranks[q], |loop.logits|) && ranks[q].logits == loop.logits
    {
      assert RankRefines(ranks[q], loop, q, |ranks|);
    }
  }

  lemma AftersAreSequels<E, L>(cfg: Config<L>, ranks: seq<Rank<E, L>>, owner: Option<seq<nat>>, loop: Loop<E, L>,
                               r: nat)
    requires loop.Fits(true) && Refines(ranks, loop) && r < |ranks| && OwnerFits(owner, |ranks|, |loop.logits|)
    ensures AllReady(ranks, |loop.logits|)
    ensures RankAfter(cfg, ranks, owner, |loop.logits|, r) == Sequel(cfg, loop)
  {
    HandedIsOwn(ranks, owner, loop, r);
    assert RankRefines(ranks[r], loop, r, |ranks|);
  }

  lemma RankDecodes<E, L>(m: Model<E, L>, cfg: Config<L>, ranks: seq<Rank<E, L>>, owner: Option<seq<nat>>,
                          loop: Loop<E, L>, r: nat)
    requires loop.Fits(true) && Refines(ranks, loop) && r < |ranks| && OwnerFits(owner, |ranks|, |loop.logits|)
    ensures AllReady(ranks, |loop.logits|)
    ensures var rank := RankDecoded(m, cfg, ranks, owner, |loop.logits|, r, loop.cache);
            rank.Ok? && RankRefines(rank.value, Iterated(m, cfg, true, loop), r, |ranks|)
  {
    HandedIsOwn(ranks, owner, loop, r);
    AftersAreSequels(cfg, ranks, owner, loop, r);
    assert RankRefines(ranks[r], loop, r, |ranks|);
  }

  /** A decode step of the ranks is a decode step of the single process, if the shards can be ordered. */
  lemma DecodeRefines<E, L>(m: Model<E, L>, cfg: Config<L>, ranks: seq<Rank<E, L>>, owner: Option<seq<nat>>,
                            loop: Loop<E, L>)
    requires loop.Fits(true) && Refines(ranks, loop) && OwnerFits(owner, |ranks|, |loop.logits|)
    ensures AllReady(ranks, |loop.logits|)
    ensures var next := CpDecoded(m, cfg, ranks, owner, |loop.logits|);
            if |loop.cache| + 1 < |ranks| then next == Err(TiedStarts)
            else next.Ok? && Refines(next.value, Iterated(m, cfg, true, loop))
  {
    var rows, w := |loop.logits|, |ranks|;
    HandedIsOwn(ranks, owner, loop, 0);
    GatheringRestores(loop.cache, w);
    if |loop.cache| + 1 >= w {
      forall r | 0 <= r < w
        ensures var rank := RankDecoded(m, cfg, ranks, owner, rows, r, loop.cache);
                rank.Ok? && RankRefines(rank.value, Iterated(m, cfg, true, loop), r, w)
      {
        RankDecodes(m, cfg, ranks, owner, loop, r);
      }
      AllRefine(CpDecoded(m, cfg, ranks, owner, rows).value, Iterated(m, cfg, true, loop));
    }
  }

  lemma AllRefine<E, L>(ranks: seq<Rank<E, L>>, loop: Loop<E, L>)
    requires loop.Fits(true) && |ranks| > 0
    requires forall r | 0 <= r < |ranks| :: RankRefines(ranks[r], loop, r, |ranks|)
    ensures Refines(ranks, loop)
  {
    assert LocalsOf(ranks) == Shards(loop.cache, |ranks|);
    assert StartsOf(ranks) == Starts(|loop.cache|, |ranks|);
  }

  /**
   * Over a whole run, all ranks stop together with the context the single process ends with; only a
   * first gather of two or more empty shards fails.
   */
  lemma {:induction false} RunRefines<E, L>(m: Model<E, L>, cfg: Config<L>, ranks: seq<Rank<E, L>>,
                                            owner: Option<seq<nat>>, loop: Loop<E, L>, step: nat)
    requires loop.Fits(true) && Refines(ranks, loop) && OwnerFits(owner, |ranks|, |loop.logits|)
    requires step < cfg.maxNewTokens
    ensures AllReady(ranks, |loop.logits|)
    ensures CpRun(m, cfg, ranks, owner, |loop.logits|, step) ==
            if |loop.cache| + 1 < |ranks| && !ShouldFinish(cfg, Sequel(cfg, loop), step) then Err(TiedStarts)
            else Ok(seq(|ranks|, _ => Run(m, cfg, true, loop, step)))
    decreases cfg.maxNewTokens - step
  {
    var rows, w := |loop.logits|, |ranks|;
    HandedIsOwn(ranks, owner, loop, 0);
    var afters := Afters(cfg, ranks, owner, rows);
    forall r | 0 <= r < w
      ensures afters[r] == Sequel(cfg, loop)
    {
      AftersAreSequels(cfg, ranks, owner, loop, r);
    }
    if ShouldFinish(cfg, Sequel(cfg, loop), step) {
      assert afters == seq(w, _ => Sequel(cfg, loop));
    } else {
      DecodeRefines(m, cfg, ranks, owner, loop);
      assert !ShouldFinish(cfg, afters[0], step);
      if |loop.cache| + 1 >= w {
        var next := CpDecoded(m, cfg, ranks, owner, rows).value;
        RunRefines(m, cfg, next, owner, Iterated(m, cfg, true, loop), step + 1);
      }
    }
  }

  // ---- from the prompts to the rows -----------------------------------------------------------

  /** The ranks after the prefill pass; a prefix is sharded first and gathered by that pass. */
  ghost function CpStart<E, L>(m: Model<E, L>, cfg: Config<L>, req: Request<E>, w: nat)
    : (ranks: Result<seq<Rank<E, L>>, CpError>)
    requires Accepted(m, cfg, req)
    ensures ranks.Ok? ==> |ranks.value| == w && AllReady(ranks.value, |req.ids|)
  {
    var ctx, prefix := StartContext(m, cfg, req), StartCache(req);
    var full := if prefix == [] then Ok([]) else Gathered(Starts(|prefix|, w), Shards(prefix, w));
    if full.Err? then Err(full.error)
    else Together(seq(w, r requires 0 <= r < w =>
      RankForward(m, r, w, full.value, ctx, PrefillInputs(ctx), ctx.length)))
  }

  /** The contexts all ranks end with, from the request on. */
  ghost function CpEnds<E, L>(m: Model<E, L>, cfg: Config<L>, req: Request<E>, w: nat, owner: Option<seq<nat>>)
    : Result<seq<Ctx>, CpError>
    requires Accepted(m, cfg, req) && cfg.maxNewTokens > 0 && OwnerFits(owner, w, |req.ids|)
  {
    var ranks := CpStart(m, cfg, req, w);
    if ranks.Err? then Err(ranks.error) else CpRun(m, cfg, ranks.value, owner, |req.ids|, 0)
  }

  /** Whether a cache of g positions leaves at most one of w ranks without any. */
  predicate CoversRanks(g: nat, w: nat) { g + 1 >= w }

  lemma PrefillRefines<E, L>(m: Model<E, L>, cfg: Config<L>, req: Request<E>, w: nat)
    requires Accepted(m, cfg, req) && UsesCache(m, cfg) && w > 0
    ensures var ranks := CpStart(m, cfg, req, w);
            if StartCache(req) != [] && !CoversRanks(|StartCache(req)|, w) then ranks == Err(TiedStarts)
            else ranks.Ok? && |ranks.value| == w && Refines(ranks.value, Start(m, cfg, req))
  {
    var ctx, prefix := StartContext(m, cfg, req), StartCache(req);
    GatheringRestores(prefix, w);
    if prefix == [] || CoversRanks(|prefix|, w) {
      forall r | 0 <= r < w
        ensures var rank := RankForward<E, L>(m, r, w, prefix, ctx, PrefillInputs(ctx), ctx.length);
                rank.Ok? && RankRefines(rank.value, Start(m, cfg, req), r, w)
      {
      }
      AllRefine(CpStart(m, cfg, req, w).value, Start(m, cfg, req));
    }
  }

  /** Whether no gather of the run meets two empty shards. */
  ghost predicate ShardsOrderable<E, L>(m: Model<E, L>, cfg: Config<L>, req: Request<E>, w: nat)
    requires Accepted(m, cfg, req) && UsesCache(m, cfg)
  {
    var p := |StartCache(req)|;
    && (p == 0 || CoversRanks(p, w))
    && (CoversRanks(p + req.n, w) || ShouldFinish(cfg, Sequel(cfg, Start(m, cfg, req)), 0))
  }

  /**
   * For any number of ranks, prompts, prefix, owner of the logits and number of steps: either every
   * rank ends as a single process with one cache ends, or an early gather meets two empty shards.
   */
  lemma RanksEndAsOne<E, L>(m: Model<E, L>, cfg: Config<L>, req: Request<E>, w: nat, owner: Option<seq<nat>>)
    requires Accepted(m, cfg, req) && UsesCache(m, cfg) && w > 0 && cfg.maxNewTokens > 0
    requires OwnerFits(owner, w, |req.ids|)
    ensures CpEnds(m, cfg, req, w, owner) ==
            if ShardsOrderable(m, cfg, req, w) then Ok(seq(w, _ => Run(m, cfg, true, Start(m, cfg, req), 0)))
            else Err(TiedStarts)
  {
    PrefillRefines(m, cfg, req, w);
    var ranks := CpStart(m, cfg, req, w);
    if ranks.Ok? {
      RunRefines(m, cfg, ranks.value, owner, Start(m, cfg, req), 0);
    }
  }

  /** ... so every rank returns the rows that the single process returns. */
  lemma RanksReturnTheBaseline<E, L>(m: Model<E, L>, cfg: Config<L>, req: Request<E>, w: nat, owner: Option<seq<nat>>,
                                     r: nat)
    requires Accepted(m, cfg, req) && UsesCache(m, cfg) && r < w && cfg.maxNewTokens > 0
    requires OwnerFits(owner, w, |req.ids|)
    requires CoversRanks(|StartCache(req)| + req.n, w) && (StartCache(req) == [] || CoversRanks(|StartCache(req)|, w))
    ensures var ends, mask := CpEnds(m, cfg, req, w, owner), StartContext(m, cfg, req).mask;
            && ends.Ok? && |ends.value| == w && ends.value[r].Shaped()
            && FinalRows.CanFinalize(ends.value[r].sequences, mask, Totals(ends.value[r]))
            && GeneratedRows(m, cfg, req) ==
               Ok(FinalRows.RightPadded(
                 FinalRows.FinalRows(ends.value[r].sequences, mask, Totals(ends.value[r])), cfg.pad))
  {
    RanksEndAsOne(m, cfg, req, w, owner);
    assert CpEnds(m, cfg, req, w, owner).value[r] == Run(m, cfg, UsesCache(m, cfg), Start(m, cfg, req), 0);
    assert RunRows(m, cfg, req) == FinalRows.FinalRows(
      CpEnds(m, cfg, req, w, owner).value[r].sequences, StartContext(m, cfg, req).mask,
      Totals(CpEnds(m, cfg, req, w, owner).value[r]));
  }
}
