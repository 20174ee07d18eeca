/** The generate entry point: checks, prefill, decode loop and final rows. */
module Generate {
  import opened Common
  import opened LanguageModel
  import opened Generation
  import opened GenerationLoop
  import opened FinalRows

  /** What generate is called with; the tensors' sequence dimension is n. */
  datatype Request<E> = Request(ids: Rows<Token>, n: nat, mask: Option<Rows<bool>>, prefix: Option<Prefix<E>>)

  /** The checks on the ids and their mask. */
  function InputError<E>(req: Request<E>): (error: Option<GenerateError>)
    ensures error.None? ==> MaskRowsValid(req.mask, |req.ids|)
    ensures error.None? && req.mask.Some? ==> Rectangular(req.mask.value, |req.ids|, req.n)
  {
    if req.mask.Some? && !Rectangular(req.mask.value, |req.ids|, req.n) then Some(BadMaskShape)
    else if !MaskRowsValid(req.mask, |req.ids|) then Some(EmptyMaskRow)
    else None
  }

  /** Refused are exactly a mask of another shape than the ids' and one with a row that holds no valid token. */
  lemma RefusedInputs<E>(req: Request<E>)
    ensures InputError(req) == Some(BadMaskShape) <==> req.mask.Some? && !Rectangular(req.mask.value, |req.ids|, req.n)
    ensures InputError(req) == Some(EmptyMaskRow) <==>
              && req.mask.Some? && Rectangular(req.mask.value, |req.ids|, req.n)
              && exists row | row in req.mask.value :: true !in row
    ensures InputError(req).None? || InputError(req).value in {BadMaskShape, EmptyMaskRow}
  {
    if req.mask.Some? {
      forall row | row in req.mask.value ensures Count(row) > 0 <==> true in row {
        NoneValid(row);
      }
    }
  }

  /** A prefix fits a batch if its cache and its mask do; of an empty one only the mask's length is looked at. */
  predicate PrefixFits<E>(prefix: Prefix<E>, b: nat) {
    if prefix.cache == [] then prefix.mask.Some? ==> forall row | row in prefix.mask.value :: row == []
    else
      && CacheFor(prefix.cache, b, |prefix.cache|)
      && (prefix.mask.Some? ==> Rectangular(prefix.mask.value, b, |prefix.cache|))
  }

  /** The checks on a prefix: the cache is used, its mask fits it, it fits the batch, and the model returns one. */
  function PrefixError<E, L>(m: Model<E, L>, cfg: Config<L>, req: Request<E>): (error: Option<GenerateError>)
    ensures error.None? <==>
              req.prefix.None? || (cfg.useCache && m.returnsCache && PrefixFits(req.prefix.value, |req.ids|))
    ensures error == Some(PrefixMismatch) <==>
              req.prefix.Some? && cfg.useCache && !PrefixFits(req.prefix.value, |req.ids|)
  {
    if req.prefix.None? then None
    else if !cfg.useCache then Some(PrefixNeedsCache)
    else if !PrefixFits(req.prefix.value, |req.ids|) then Some(PrefixMismatch)
    else if !m.returnsCache then Some(CacheNotReturned)
    else None
  }

  function AllOnes(b: nat, n: nat): Rows<bool> {
    seq(b, _ => Ones(n))
  }

  /** A prefix that holds anything; an empty one is as none. */
  function UsedPrefix<E>(req: Request<E>): Option<Prefix<E>> {
    if req.prefix.Some? && req.prefix.value.cache != [] then req.prefix else None
  }

  /** The keys the loop starts with. */
  function StartCache<E>(req: Request<E>): Cache<E> {
    if UsedPrefix(req).Some? then UsedPrefix(req).value.cache else []
  }

  function StartContext<E, L>(m: Model<E, L>, cfg: Config<L>, req: Request<E>): (ctx: Ctx)
    requires Rectangular(req.ids, |req.ids|, req.n) && req.n > 0
    requires InputError(req).None? && PrefixError(m, cfg, req).None?
    ensures ctx.Shaped() && |ctx.sequences| == |req.ids| && ctx.prefixLen == |StartCache(req)|
    ensures ctx.prefixMask.Some? ==> ctx.mask.Some? && UsedPrefix(req).Some?
  {
    var b := |req.ids|;
    var prefix := UsedPrefix(req);
    var prefixMask :=
      if prefix.None? then None
      else if prefix.value.mask.Some? then prefix.value.mask
      else Some(AllOnes(b, |prefix.value.cache|));
    var mask := if prefix.Some? && req.mask.None? then Some(AllOnes(b, req.n)) else req.mask;
    Ctx(req.ids, req.n, prefixMask, |StartCache(req)|, mask,
        seq(b, i requires 0 <= i < b => Count(OrOnes(RowMask(mask, i), req.n))),
        seq(b, i requires 0 <= i < b => if prefixMask.Some? then Count(prefixMask.value[i]) else 0),
        seq(b, _ => 0), seq(b, _ => true))
  }

  function Totals(ctx: Ctx): (totals: seq<nat>)
    requires ctx.Shaped()
    ensures |totals| == |ctx.sequences|
  {
    seq(|ctx.sequences|, b requires 0 <= b < |ctx.sequences| => ctx.promptLengths[b] + ctx.counts[b])
  }

  function UsesCache<E, L>(m: Model<E, L>, cfg: Config<L>): bool { cfg.useCache && m.returnsCache }

  /** What the loop starts from: the logits and the cache of a pass over the prefix and the prompts. */
  function Prefilled<E, L>(m: Model<E, L>, ctx: Ctx, cache: Cache<E>): (loop: Loop<E, L>)
    requires ctx.Shaped() && CacheFor(cache, |ctx.sequences|, ctx.prefixLen)
    ensures loop.ctx == ctx && |loop.logits| == |ctx.sequences|
    ensures CacheFor(loop.cache, |ctx.sequences|, ctx.prefixLen + ctx.length)
  {
    var out := Forward(m, cache, PrefillInputs(ctx), ctx.length);
    Loop(ctx, out.cache, out.logits)
  }

  predicate Accepted<E, L>(m: Model<E, L>, cfg: Config<L>, req: Request<E>) {
    && Rectangular(req.ids, |req.ids|, req.n) && req.n > 0
    && InputError(req).None? && PrefixError(m, cfg, req).None?
  }

  function Start<E, L>(m: Model<E, L>, cfg: Config<L>, req: Request<E>): (loop: Loop<E, L>)
    requires Accepted(m, cfg, req)
    ensures loop.Fits(UsesCache(m, cfg)) && loop.ctx == StartContext(m, cfg, req)
  {
    Prefilled(m, StartContext(m, cfg, req), StartCache(req))
  }

  /** The rows generate returns, as a function of its arguments. */
  function GeneratedRows<E, L>(m: Model<E, L>, cfg: Config<L>, req: Request<E>): Result<Rows<Token>, GenerateError>
    requires Rectangular(req.ids, |req.ids|, req.n)
  {
    if InputError(req).Some? then Err(InputError(req).value)
    else if cfg.maxNewTokens == 0 then Ok(RightPadded(PromptRows(req), cfg.pad))
    else if PrefixError(m, cfg, req).Some? then Err(PrefixError(m, cfg, req).value)
    else if req.n == 0 then Err(EmptyPrompt)
    else Ok(RightPadded(RunRows(m, cfg, req), cfg.pad))
  }

  /** The rows a run of the loop ends with. */
  function RunRows<E, L>(m: Model<E, L>, cfg: Config<L>, req: Request<E>): Rows<Token>
    requires Accepted(m, cfg, req) && cfg.maxNewTokens > 0
  {
    var end := Run(m, cfg, UsesCache(m, cfg), Start(m, cfg, req), 0);
    FinalRows.FinalRows(end.sequences, StartContext(m, cfg, req).mask, Totals(end))
  }

  /** With no new tokens, the prompts themselves. */
  function PromptRows<E>(req: Request<E>): Rows<Token>
    requires Rectangular(req.ids, |req.ids|, req.n) && InputError(req).None?
  {
    FinalRows.FinalRows(req.ids, req.mask,
      seq(|req.ids|, b requires 0 <= b < |req.ids| => Count(OrOnes(RowMask(req.mask, b), req.n))))
  }

  // ---- each row by itself ---------------------------------------------------------------

  /** Row b of a request: its left padding and prompt, and the prefix tokens its cache was made from. */
  ghost predicate Describes<E, L>(m: Model<E, L>, req: Request<E>, row: Row, b: nat)
    requires Rectangular(req.ids, |req.ids|, req.n) && b < |req.ids|
    requires InputError(req).None?
    requires UsedPrefix(req).Some? ==>
               && CacheFor(req.prefix.value.cache, |req.ids|, |req.prefix.value.cache|)
               && (req.prefix.value.mask.Some? ==>
                     Rectangular(req.prefix.value.mask.value, |req.ids|, |req.prefix.value.cache|))
  {
    && row.prompt != [] && req.ids[b] == row.padding + row.prompt
    && OrOnes(RowMask(req.mask, b), req.n) == row.Mask()
    && if UsedPrefix(req).None? then row.prefix == [] && row.prefixMask == []
       else
         var prefix := req.prefix.value;
         && row.prefixMask == OrOnes(RowMask(prefix.mask, b), |prefix.cache|)
         && Pick(RowOf(prefix.cache, b), row.prefixMask) == Entries(m, row.prefix)
  }

  lemma StartMasks<E, L>(m: Model<E, L>, cfg: Config<L>, req: Request<E>, row: Row, b: nat)
    requires Accepted(m, cfg, req) && b < |req.ids| && Describes(m, req, row, b)
    ensures var ctx := StartContext(m, cfg, req);
            && OrOnes(RowMask(ctx.mask, b), req.n) == row.Mask()
            && OrNone(RowMask(ctx.prefixMask, b)) == row.prefixMask
            && ctx.promptLengths[b] == |row.prompt| && ctx.prefixValid[b] == |row.prefix|
            && |StartCache(req)| == |row.prefixMask|
            && Pick(RowOf(StartCache(req), b), row.prefixMask) == Entries(m, row.prefix)
  {
    PickPrompt(row);
    PickCount(row.padding + row.prompt, row.Mask());
    PickCount(RowOf(StartCache(req), b), row.prefixMask);
  }

  lemma StartText<E, L>(m: Model<E, L>, cfg: Config<L>, req: Request<E>, row: Row, b: nat)
    requires Accepted(m, cfg, req) && b < |req.ids| && Describes(m, req, row, b)
    ensures TextInv(m, cfg, StartContext(m, cfg, req), row, b, 0)
    ensures Generated(StartContext(m, cfg, req), row, b) == []
  {
    StartMasks(m, cfg, req, row, b);
    assert row.Mask() + Ones(0) == row.Mask();
    FreshText(m, cfg, StartContext(m, cfg, req), row, b);
  }

  lemma FreshText<E, L>(m: Model<E, L>, cfg: Config<L>, ctx: Ctx, row: Row, b: nat)
    requires ctx.Shaped() && b < |ctx.sequences| && row.prompt != []
    requires ctx.sequences[b] == row.padding + row.prompt && ctx.counts[b] == 0 && ctx.unfinished[b]
    requires OrOnes(RowMask(ctx.mask, b), ctx.length) == row.Mask() + Ones(0)
    requires OrNone(RowMask(ctx.prefixMask, b)) == row.prefixMask
    requires ctx.promptLengths[b] == |row.prompt| && ctx.prefixValid[b] == |row.prefix|
    ensures TextInv(m, cfg, ctx, row, b, 0) && Generated(ctx, row, b) == []
  {
    FreshAlone(m, cfg, row);
    assert Generated(ctx, row, b) == [];
  }

  lemma FreshAlone<E, L>(m: Model<E, L>, cfg: Config<L>, row: Row)
    requires row.prompt != []
    ensures Alone(m, cfg, row, [], true, 0)
  {
    assert row.prompt + [] == row.prompt;
    var alone := Continue(m, cfg, row.prefix, row.padding, row.prompt, cfg.maxNewTokens);
    assert [] + alone == alone;
  }

  lemma PrefillKeepsRow<E, L>(m: Model<E, L>, cfg: Config<L>, req: Request<E>, row: Row, b: nat)
    requires Accepted(m, cfg, req) && b < |req.ids| && Describes(m, req, row, b)
    ensures RowInv(m, cfg, UsesCache(m, cfg), Start(m, cfg, req), row, b, 0)
  {
    StartText(m, cfg, req, row, b);
    StartMasks(m, cfg, req, row, b);
    PrefilledModel(m, StartContext(m, cfg, req), StartCache(req), row, b, UsesCache(m, cfg));
  }

  lemma PrefilledModel<E, L>(m: Model<E, L>, ctx: Ctx, past: Cache<E>, row: Row, b: nat, cached: bool)
    requires ctx.Shaped() && CacheFor(past, |ctx.sequences|, ctx.prefixLen) && b < |ctx.sequences|
    requires row.prompt != [] && ctx.sequences[b] == row.padding + row.prompt
    requires OrOnes(RowMask(ctx.mask, b), ctx.length) == row.Mask()
    requires OrNone(RowMask(ctx.prefixMask, b)) == row.prefixMask
    requires Pick(RowOf(past, b), row.prefixMask) == Entries(m, row.prefix) && |row.prefixMask| == |past|
    ensures var loop := Prefilled(m, ctx, past);
            ModelInv(m, row, b, cached, loop.cache, loop.logits[b], [], 0)
  {
    ForwardRow(m, past, PrefillInputs(ctx), ctx.length, b);
    PrefillRow(m, RowOf(past, b), RowMask(ctx.prefixMask, b), row.prefix, ctx.sequences[b], RowMask(ctx.mask, b));
    NothingDone(row);
  }

  lemma NothingDone(row: Row)
    ensures Pick(row.padding + row.prompt, row.Mask()) == row.prompt + []
    ensures row.prefixMask + (row.Mask() + Ones(0)) == row.prefixMask + row.Mask()
  {
    PickPrompt(row);
    assert row.Mask() + Ones(0) == row.Mask();
    assert row.prompt + [] == row.prompt;
  }

  lemma FirstValidOfRow(row: Row)
    requires row.prompt != []
    ensures Count(row.Mask()) == |row.prompt| && FirstValid(row.Mask()) == |row.padding|
  {
    PickPrompt(row);
    PickCount(row.padding + row.prompt, row.Mask());
    assert row.Mask()[|row.padding|];
  }

  /** A row's slice is its prompt and what follows it. */
  lemma SliceOfRow(s: seq<Token>, row: Row, mask: Option<seq<bool>>, n: nat, more: seq<Token>)
    requires row.prompt != [] && row.padding + row.prompt + more <= s
    requires (mask.Some? ==> |mask.value| == n && Count(mask.value) > 0) && n <= |s|
    requires OrOnes(mask, n) == row.Mask()
    ensures FinalRow(s, mask, |row.prompt| + |more|) == row.prompt + more
  {
    FirstValidOfRow(row);
    assert mask.None? ==> row.Mask()[0];
    Associate(row.padding, row.prompt, more);
    assert s[|row.padding|..|row.padding| + |row.prompt + more|] == row.prompt + more;
  }

  lemma FinalRowOfDone<E, L>(m: Model<E, L>, cfg: Config<L>, end: Ctx, row: Row, b: nat, mask: Option<seq<bool>>,
                             n: nat)
    requires end.Shaped() && b < |end.sequences| && RowDone(m, cfg, end, row, b)
    requires (mask.Some? ==> |mask.value| == n && Count(mask.value) > 0) && n <= end.length
    requires OrOnes(mask, n) == row.Mask()
    ensures FinalRow(end.sequences[b], mask, end.promptLengths[b] + end.counts[b]) == OwnRow(m, cfg, row)
  {
    var s, p := end.sequences[b], |row.padding + row.prompt|;
    assert s[..p + end.counts[b]] == s[..p] + s[p..p + end.counts[b]];
    SliceOfRow(s, row, mask, n, Generated(end, row, b));
  }

  /** What row b of a request generates by itself, after its prompt. */
  ghost function OwnRow<E, L>(m: Model<E, L>, cfg: Config<L>, row: Row): seq<Token>
    requires row.prompt != []
  {
    row.prompt + Continue(m, cfg, row.prefix, row.padding, row.prompt, cfg.maxNewTokens)
  }

  ghost function OwnRows<E, L>(m: Model<E, L>, cfg: Config<L>, rows: seq<Row>): (own: Rows<Token>)
    requires forall b | 0 <= b < |rows| :: rows[b].prompt != []
    ensures |own| == |rows|
  {
    seq(|rows|, b requires 0 <= b < |rows| => OwnRow(m, cfg, rows[b]))
  }

  ghost predicate DescribesAll<E, L>(m: Model<E, L>, cfg: Config<L>, req: Request<E>, rows: seq<Row>) {
    && Accepted(m, cfg, req) && |rows| == |req.ids|
    && forall b | 0 <= b < |rows| :: rows[b].prompt != [] && Describes(m, req, rows[b], b)
  }

  /**
   * For any batch, padding, prefix and kind of decoding, each row of the output is that row's own
   * prompt and what it generates by itself, up to its first EOS or the limit, and then padding.
   */
  lemma GenerationIsPerRow<E, L>(m: Model<E, L>, cfg: Config<L>, req: Request<E>, rows: seq<Row>)
    requires DescribesAll(m, cfg, req, rows)
    ensures GeneratedRows(m, cfg, req) == Ok(RightPadded(OwnRows(m, cfg, rows), cfg.pad))
  {
    if cfg.maxNewTokens == 0 {
      forall b | 0 <= b < |rows|
        ensures PromptRows(req)[b] == OwnRow(m, cfg, rows[b])
      {
        PromptRowIsOwn(m, cfg, req, rows[b], b);
      }
      assert PromptRows(req) == OwnRows(m, cfg, rows);
    } else {
      RunRowsAreOwn(m, cfg, req, rows);
    }
  }

  lemma RunRowsAreOwn<E, L>(m: Model<E, L>, cfg: Config<L>, req: Request<E>, rows: seq<Row>)
    requires DescribesAll(m, cfg, req, rows) && cfg.maxNewTokens > 0
    ensures RunRows(m, cfg, req) == OwnRows(m, cfg, rows)
  {
    forall b | 0 <= b < |rows|
      ensures RunRows(m, cfg, req)[b] == OwnRow(m, cfg, rows[b])
    {
      RunRowIsOwn(m, cfg, req, rows, b);
    }
    assert RunRows(m, cfg, req) == OwnRows(m, cfg, rows);
  }

  lemma RunRowIsOwn<E, L>(m: Model<E, L>, cfg: Config<L>, req: Request<E>, rows: seq<Row>, b: nat)
    requires DescribesAll(m, cfg, req, rows) && cfg.maxNewTokens > 0 && b < |rows|
    ensures RunRows(m, cfg, req)[b] == OwnRow(m, cfg, rows[b])
  {
    var end := Run(m, cfg, UsesCache(m, cfg), Start(m, cfg, req), 0);
    StartsRows(m, cfg, req, rows);
    RunIsPerRow(m, cfg, UsesCache(m, cfg), Start(m, cfg, req), rows, 0);
    assert RowDone(m, cfg, end, rows[b], b);
    StartMasks(m, cfg, req, rows[b], b);
    FinalRowIsOwn(m, cfg, end, rows[b], b, StartContext(m, cfg, req).mask, req.n);
  }

  lemma StartsRows<E, L>(m: Model<E, L>, cfg: Config<L>, req: Request<E>, rows: seq<Row>)
    requires DescribesAll(m, cfg, req, rows)
    ensures RowsInv(m, cfg, UsesCache(m, cfg), Start(m, cfg, req), rows, 0)
  {
    forall b | 0 <= b < |rows|
      ensures RowInv(m, cfg, UsesCache(m, cfg), Start(m, cfg, req), rows[b], b, 0)
    {
      PrefillKeepsRow(m, cfg, req, rows[b], b);
    }
  }

  lemma FinalRowIsOwn<E, L>(m: Model<E, L>, cfg: Config<L>, end: Ctx, row: Row, b: nat, mask: Option<Rows<bool>>,
                            n: nat)
    requires end.Shaped() && b < |end.sequences| && RowDone(m, cfg, end, row, b) && n <= end.length
    requires CanFinalize(end.sequences, mask, Totals(end)) && (mask.Some? ==> |mask.value[b]| == n)
    requires OrOnes(RowMask(mask, b), n) == row.Mask()
    ensures FinalRows.FinalRows(end.sequences, mask, Totals(end))[b] == OwnRow(m, cfg, row)
  {
    FirstValidOfRow(row);
    FinalRowOfDone(m, cfg, end, row, b, RowMask(mask, b), n);
  }

  lemma PromptRowIsOwn<E, L>(m: Model<E, L>, cfg: Config<L>, req: Request<E>, row: Row, b: nat)
    requires Accepted(m, cfg, req) && b < |req.ids| && cfg.maxNewTokens == 0
    requires row.prompt != [] && Describes(m, req, row, b)
    ensures PromptRows(req)[b] == OwnRow(m, cfg, row)
  {
    FirstValidOfRow(row);
    assert row.padding + row.prompt + [] == req.ids[b];
    SliceOfRow(req.ids[b], row, RowMask(req.mask, b), req.n, []);
  }
}
