/** Decoding from the K/V cache and decoding by a full pass at every step generate the same rows. */
module CachedDecoding {
  import opened Common
  import opened LanguageModel
  import opened Generation
  import opened GenerationLoop
  import opened Generate

  /** Which of a row's tokens are valid. */
  function Valid(ctx: Ctx, b: nat): (mask: seq<bool>)
    requires ctx.Shaped() && b < |ctx.sequences|
    ensures |mask| == ctx.length
  {
    OrOnes(RowMask(ctx.mask, b), ctx.length)
  }

  /** A row's tokens without its padding, wherever that is. */
  function History(ctx: Ctx, b: nat): seq<Token>
    requires ctx.Shaped() && b < |ctx.sequences|
  {
    Pick(ctx.sequences[b], Valid(ctx, b))
  }

  /** The cached entries of a row are its history's, and its counts are the length of that history. */
  ghost predicate CachesHistory<E, L>(m: Model<E, L>, ctx: Ctx, cache: Cache<E>, b: nat)
    requires ctx.Shaped() && b < |ctx.sequences| && CacheFor(cache, |ctx.sequences|, ctx.length)
  {
    && Pick(RowOf(cache, b), Valid(ctx, b)) == Entries(m, History(ctx, b))
    && DecodePosition(ctx, b) + 1 == |History(ctx, b)|
  }

  /** Two loops hold the same rows, and the same logits for each row that is not finished. */
  ghost predicate Agree<E, L>(m: Model<E, L>, cfg: Config<L>, cached: bool, c: Loop<E, L>, u: Loop<E, L>)
    requires c.Fits(cached) && u.Fits(false)
  {
    && c.ctx == u.ctx
    && forall b | 0 <= b < |c.ctx.sequences| :: RowsAgree(m, cfg, cached, c, u, b)
  }

  ghost predicate RowsAgree<E, L>(m: Model<E, L>, cfg: Config<L>, cached: bool, c: Loop<E, L>, u: Loop<E, L>, b: nat)
    requires c.Fits(cached) && u.Fits(false) && c.ctx == u.ctx && b < |c.ctx.sequences|
  {
    && (cfg.eos.None? ==> c.ctx.unfinished[b])
    && (c.ctx.unfinished[b] ==> c.logits[b] == u.logits[b] && (cached ==> CachesHistory(m, c.ctx, c.cache, b)))
  }

  function Uncached<L>(cfg: Config<L>): Config<L> { cfg.(useCache := false) }

  lemma SameTokens<E, L>(m: Model<E, L>, cfg: Config<L>, cached: bool, c: Loop<E, L>, u: Loop<E, L>)
    requires c.Fits(cached) && u.Fits(false) && Agree(m, cfg, cached, c, u)
    ensures Emitted(cfg, c.ctx, Sampled(cfg, c.ctx, c.logits)) ==
            Emitted(Uncached(cfg), u.ctx, Sampled(Uncached(cfg), u.ctx, u.logits))
  {
    var ce := Emitted(cfg, c.ctx, Sampled(cfg, c.ctx, c.logits));
    var ue := Emitted(Uncached(cfg), u.ctx, Sampled(Uncached(cfg), u.ctx, u.logits));
    forall b | 0 <= b < |c.ctx.sequences|
      ensures ce[b] == ue[b]
    {
      assert RowsAgree(m, cfg, cached, c, u, b);
    }
  }

  lemma SameSequel<E, L>(m: Model<E, L>, cfg: Config<L>, cached: bool, c: Loop<E, L>, u: Loop<E, L>)
    requires c.Fits(cached) && u.Fits(false) && Agree(m, cfg, cached, c, u)
    ensures Sequel(cfg, c) == Sequel(Uncached(cfg), u)
  {
    SameTokens(m, cfg, cached, c, u);
    SameAppended(cfg, c.ctx, Sampled(cfg, c.ctx, c.logits), Sampled(Uncached(cfg), u.ctx, u.logits));
  }

  lemma SameAppended<L>(cfg: Config<L>, ctx: Ctx, next: seq<Token>, next': seq<Token>)
    requires ctx.Shaped() && |next| == |next'| == |ctx.sequences|
    requires Emitted(cfg, ctx, next) == Emitted(Uncached(cfg), ctx, next')
    ensures Appended(cfg, ctx, next) == Appended(Uncached(cfg), ctx, next')
  {
    var a, a' := Appended(cfg, ctx, next), Appended(Uncached(cfg), ctx, next');
    assert a.sequences == a'.sequences && a.counts == a'.counts;
    assert a.unfinished == a'.unfinished && a.mask == a'.mask;
  }

  /** An appended token is valid, and extends the history. */
  lemma HistoryGrows<L>(cfg: Config<L>, ctx: Ctx, next: seq<Token>, b: nat)
    requires ctx.Shaped() && b < |ctx.sequences| == |next|
    ensures var after, token := Appended(cfg, ctx, next), Emitted(cfg, ctx, next)[b];
            && Valid(after, b) == Valid(ctx, b) + [true]
            && after.sequences[b] == ctx.sequences[b] + [token]
            && History(after, b) == History(ctx, b) + [token]
  {
    assert Ones(ctx.length + 1) == Ones(ctx.length) + [true];
    PickAppend(ctx.sequences[b], Valid(ctx, b), [Emitted(cfg, ctx, next)[b]], [true]);
    OneToken(Emitted(cfg, ctx, next)[b]);
  }

  /** A full pass gives a row whose last token is valid the logits of its history. */
  lemma FullPass<E, L>(m: Model<E, L>, ctx: Ctx, tokens: seq<Token>, cache: Cache<E>, b: nat)
    requires ctx.Shaped() && b < |ctx.sequences| == |tokens| && CacheFits(ctx, cache, false, ctx.length - 1)
    requires Valid(ctx, b)[ctx.length - 1]
    ensures History(ctx, b) != []
    ensures Decoded(m, ctx, tokens, cache, false).logits[b] == NextLogits(m, History(ctx, b))
  {
    ForwardRow(m, [], PrefillInputs(ctx), ctx.length, b);
    assert RowOf<E>([], b) == [];
    assert [] + History(ctx, b) == History(ctx, b);
    PrefillRow(m, [], None, [], ctx.sequences[b], RowMask(ctx.mask, b));
  }

  /** A cached step gives it the same, and leaves the cache holding the longer history. */
  lemma CachedPass<E, L>(m: Model<E, L>, cfg: Config<L>, ctx: Ctx, next: seq<Token>, cache: Cache<E>, b: nat)
    requires ctx.Shaped() && b < |ctx.sequences| == |next| && CacheFits(ctx, cache, true, ctx.length)
    requires ctx.prefixMask.None? && CachesHistory(m, ctx, cache, b) && ctx.unfinished[b]
    ensures var after, tokens := Appended(cfg, ctx, next), Emitted(cfg, ctx, next);
            var out := Decoded(m, after, tokens, cache, true);
            && History(after, b) != []
            && out.logits[b] == NextLogits(m, History(after, b))
            && CachesHistory(m, after, out.cache, b)
  {
    var after, tokens := Appended(cfg, ctx, next), Emitted(cfg, ctx, next);
    HistoryGrows(cfg, ctx, next, b);
    CachedDecodeRow(m, after, tokens, cache, b, Valid(ctx, b), History(ctx, b));
  }

  lemma IterationAgreesOnRow<E, L>(m: Model<E, L>, cfg: Config<L>, cached: bool, c: Loop<E, L>, u: Loop<E, L>, b: nat)
    requires c.Fits(cached) && u.Fits(false) && Agree(m, cfg, cached, c, u) && b < |c.ctx.sequences|
    ensures Sequel(cfg, c) == Sequel(Uncached(cfg), u)
    ensures RowsAgree(m, cfg, cached, Iterated(m, cfg, cached, c), Iterated(m, Uncached(cfg), false, u), b)
  {
    var next, after := Sampled(cfg, c.ctx, c.logits), Sequel(cfg, c);
    SameSequel(m, cfg, cached, c, u);
    SameTokens(m, cfg, cached, c, u);
    assert RowsAgree(m, cfg, cached, c, u, b);
    if after.unfinished[b] {
      HistoryGrows(cfg, c.ctx, next, b);
      FullPass(m, after, Emitted(cfg, c.ctx, next), u.cache, b);
      if cached {
        CachedPass(m, cfg, c.ctx, next, c.cache, b);
      } else {
        FullPass(m, after, Emitted(cfg, c.ctx, next), c.cache, b);
      }
    }
  }

  lemma IterationAgrees<E, L>(m: Model<E, L>, cfg: Config<L>, cached: bool, c: Loop<E, L>, u: Loop<E, L>)
    requires c.Fits(cached) && u.Fits(false) && Agree(m, cfg, cached, c, u)
    ensures Agree(m, cfg, cached, Iterated(m, cfg, cached, c), Iterated(m, Uncached(cfg), false, u))
  {
    SameSequel(m, cfg, cached, c, u);
    forall b | 0 <= b < |c.ctx.sequences|
      ensures RowsAgree(m, cfg, cached, Iterated(m, cfg, cached, c), Iterated(m, Uncached(cfg), false, u), b)
    {
      IterationAgreesOnRow(m, cfg, cached, c, u, b);
    }
  }

  lemma {:induction false} RunsAgree<E, L>(m: Model<E, L>, cfg: Config<L>, cached: bool, c: Loop<E, L>, u: Loop<E, L>,
                                           step: nat)
    requires c.Fits(cached) && u.Fits(false) && Agree(m, cfg, cached, c, u) && step < cfg.maxNewTokens
    ensures Run(m, cfg, cached, c, step) == Run(m, Uncached(cfg), false, u, step)
    decreases cfg.maxNewTokens - step
  {
    SameSequel(m, cfg, cached, c, u);
    if !ShouldFinish(cfg, Sequel(cfg, c), step) {
      IterationAgrees(m, cfg, cached, c, u);
      RunsAgree(m, cfg, cached, Iterated(m, cfg, cached, c), Iterated(m, Uncached(cfg), false, u), step + 1);
    }
  }

  /** A prefill pass caches every row's history, whatever padding the row has. */
  lemma PrefillCachesHistory<E, L>(m: Model<E, L>, ctx: Ctx, b: nat)
    requires ctx.Shaped() && b < |ctx.sequences| && ctx.prefixMask.None?
    requires DecodePosition(ctx, b) + 1 == Count(Valid(ctx, b))
    ensures CachesHistory(m, ctx, Prefilled(m, ctx, []).cache, b)
  {
    var input, cur := PrefillInputs(ctx)[b], Valid(ctx, b);
    ForwardRow(m, [], PrefillInputs(ctx), ctx.length, b);
    assert RowOf<E>([], b) == [];
    PrefillInputIsCausal(ctx.sequences[b], RowMask(ctx.mask, b), None);
    KeysAreTheHistorys(m, [], input, [], cur, [], ctx.length);
    assert cur[..ctx.length] == cur && input.tokens[..ctx.length] == input.tokens;
    assert [] + cur == cur && [] + History(ctx, b) == History(ctx, b);
    PickCount(ctx.sequences[b], cur);
  }

  /**
   * Without a prefix, generation with the K/V cache returns what generation without it returns,
   * whatever the batch and wherever its rows are padded.
   */
  lemma CachingChangesNothing<E, L>(m: Model<E, L>, cfg: Config<L>, req: Request<E>)
    requires Rectangular(req.ids, |req.ids|, req.n) && req.prefix.None?
    ensures GeneratedRows(m, cfg, req) == GeneratedRows(m, Uncached(cfg), req)
  {
    if Accepted(m, cfg, req) && cfg.maxNewTokens > 0 {
      var c, u := Start(m, cfg, req), Start(m, Uncached(cfg), req);
      StartsAgree(m, cfg, req);
      RunsAgree(m, cfg, UsesCache(m, cfg), c, u, 0);
    }
  }

  lemma StartsAgree<E, L>(m: Model<E, L>, cfg: Config<L>, req: Request<E>)
    requires Accepted(m, cfg, req) && req.prefix.None?
    ensures Agree(m, cfg, UsesCache(m, cfg), Start(m, cfg, req), Start(m, Uncached(cfg), req))
  {
    var ctx := StartContext(m, cfg, req);
    forall b | 0 <= b < |req.ids|
      ensures CachesHistory(m, ctx, Prefilled(m, ctx, []).cache, b)
    {
      PrefillCachesHistory(m, ctx, b);
    }
  }
}
