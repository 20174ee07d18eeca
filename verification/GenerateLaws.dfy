/** What a caller of generate may rely on: batching, padding and prefix reuse change no row. */
module GenerateLaws {
  import opened Common
  import opened LanguageModel
  import opened Generation
  import opened GenerationLoop
  import opened FinalRows
  import opened Generate
  import opened CachedDecoding
  import opened Sampling

  // ---- a batch against each row alone ----------------------------------------------

  predicate LeftPaddedRequest<E>(req: Request<E>) {
    && Rectangular(req.ids, |req.ids|, req.n) && req.n > 0 && req.prefix.None?
    && InputError(req).None?
    && (req.mask.Some? ==> forall b | 0 <= b < |req.ids| :: LeftPadded(req.mask.value[b]))
  }

  /** How much padding a row has. */
  function PaddingOf<E>(req: Request<E>, b: nat): (start: nat)
    requires LeftPaddedRequest(req) && b < |req.ids|
    ensures start < req.n
  {
    if req.mask.None? then 0 else FirstValid(req.mask.value[b])
  }

  function PaddingTokens<E>(req: Request<E>, b: nat): seq<Token>
    requires LeftPaddedRequest(req) && b < |req.ids|
  {
    req.ids[b][..PaddingOf(req, b)]
  }

  function PromptTokens<E>(req: Request<E>, b: nat): (prompt: seq<Token>)
    requires LeftPaddedRequest(req) && b < |req.ids|
    ensures prompt != []
  {
    req.ids[b][PaddingOf(req, b)..]
  }

  function PaddedRow<E>(req: Request<E>, b: nat): Row
    requires LeftPaddedRequest(req) && b < |req.ids|
  {
    Row([], [], PaddingTokens(req, b), PromptTokens(req, b))
  }

  function PaddedRows<E>(req: Request<E>): (rows: seq<Row>)
    requires LeftPaddedRequest(req)
    ensures |rows| == |req.ids|
  {
    seq(|req.ids|, b requires 0 <= b < |req.ids| => PaddedRow(req, b))
  }

  lemma PaddedRowDescribes<E, L>(m: Model<E, L>, req: Request<E>, b: nat)
    requires LeftPaddedRequest(req) && b < |req.ids|
    ensures Describes(m, req, PaddedRow(req, b), b)
  {
    var row := PaddedRow(req, b);
    assert req.ids[b] == row.padding + row.prompt;
    if req.mask.Some? {
      assert req.mask.value[b] == row.Mask();
    } else {
      assert Ones(req.n) == row.Mask();
    }
  }

  lemma LeftPaddedGenerates<E, L>(m: Model<E, L>, cfg: Config<L>, req: Request<E>)
    requires LeftPaddedRequest(req)
    ensures DescribesAll(m, cfg, req, PaddedRows(req))
    ensures GeneratedRows(m, cfg, req) == Ok(RightPadded(OwnRows(m, cfg, PaddedRows(req)), cfg.pad))
  {
    forall b | 0 <= b < |req.ids|
      ensures Describes(m, req, PaddedRow(req, b), b)
    {
      PaddedRowDescribes(m, req, b);
    }
    GenerationIsPerRow(m, cfg, req, PaddedRows(req));
  }

  /** One prompt by itself, without padding or a mask. */
  function AloneRequest<E>(prompt: seq<Token>): Request<E> {
    Request([prompt], |prompt|, None, None)
  }

  lemma AloneGenerates<E, L>(m: Model<E, L>, cfg: Config<L>, prompt: seq<Token>)
    requires prompt != []
    ensures GeneratedRows(m, cfg, AloneRequest(prompt)) ==
            Ok([prompt + Continue(m, cfg, [], [], prompt, cfg.maxNewTokens)])
  {
    var req := AloneRequest<E>(prompt);
    LeftPaddedGenerates(m, cfg, req);
    assert PaddedRow(req, 0) == Row([], [], [], prompt);
    var own := OwnRow(m, cfg, PaddedRow(req, 0));
    assert OwnRows(m, cfg, PaddedRows(req)) == [own];
    OneRowNeedsNoPadding(own, cfg.pad);
  }

  lemma OneRowNeedsNoPadding(row: seq<Token>, pad: Token)
    ensures RightPadded([row], pad) == [row]
  {
    OneMoreRow([], row);
    assert [] + [row] == [row];
    assert PadTo(row, |row|, pad) == row;
  }

  /**
   * A row of a left-padded batch is what its prompt generates alone, then padding only, whatever the
   * other rows are, if the sampler does not look at the row's padding.
   */
  lemma BatchedEqualsAlone<E, L(!new)>(m: Model<E, L>, cfg: Config<L>, req: Request<E>, b: nat)
    requires LeftPaddedRequest(req) && b < |req.ids| && PaddingBlind(cfg, PaddingTokens(req, b))
    ensures var batch, alone := GeneratedRows(m, cfg, req), GeneratedRows(m, cfg, AloneRequest(PromptTokens(req, b)));
            && batch.Ok? && alone.Ok? && |batch.value| == |req.ids| && |alone.value| == 1
            && |alone.value[0]| <= |batch.value[b]|
            && batch.value[b] == PadTo(alone.value[0], |batch.value[b]|, cfg.pad)
  {
    var row := PaddedRow(req, b);
    LeftPaddedGenerates(m, cfg, req);
    AloneGenerates(m, cfg, row.prompt);
    assert [] + row.prompt == row.prompt;
    BlindSamplerContinues(m, cfg, [], row.padding, row.prompt, cfg.maxNewTokens);
    var own := OwnRows(m, cfg, PaddedRows(req));
    assert own[b] == row.prompt + Continue(m, cfg, [], [], row.prompt, cfg.maxNewTokens);
    LongestIsLongest(own, b);
  }

  lemma {:induction false} LongestIsLongest(rows: Rows<Token>, b: nat)
    requires b < |rows|
    ensures |rows[b]| <= MaxLength(rows)
  {
    if b < |rows| - 1 {
      LongestIsLongest(rows[..|rows| - 1], b);
    }
  }

  /** One prompt behind left padding. */
  function PaddedRequest<E>(row: Row): Request<E> {
    Request([row.padding + row.prompt], |row.padding + row.prompt|, Some([row.Mask()]), None)
  }

  lemma PaddedGenerates<E, L>(m: Model<E, L>, cfg: Config<L>, row: Row)
    requires row.prompt != [] && row.prefix == [] && row.prefixMask == []
    ensures Rectangular(PaddedRequest<E>(row).ids, 1, PaddedRequest<E>(row).n)
    ensures GeneratedRows(m, cfg, PaddedRequest(row)) == Ok([OwnRow(m, cfg, row)])
  {
    FirstValidOfRow(row);
    GenerationIsPerRow(m, cfg, PaddedRequest(row), [row]);
    assert OwnRows(m, cfg, [row]) == [OwnRow(m, cfg, row)];
    OneRowNeedsNoPadding(OwnRow(m, cfg, row), cfg.pad);
  }

  /**
   * With a repetition penalty the sampler does look: padding with the id of a token, as the default
   * pad token is, changes what some prompt generates.
   */
  lemma PenaltyOnPaddingChangesARow(penalty: real, padding: seq<Token>, t: nat)
    returns (m: Model<int, seq<real>>, prompt: seq<Token>)
    requires penalty > 0.0 && penalty != 1.0 && t in padding
    ensures var row, cfg := Row([], [], padding, prompt), GreedyConfig(1, None, t, true, penalty);
            && prompt != []
            && Rectangular(PaddedRequest<int>(row).ids, 1, PaddedRequest<int>(row).n)
            && GeneratedRows(m, cfg, PaddedRequest(row)) != GeneratedRows(m, cfg, AloneRequest(prompt))
  {
    var cfg := GreedyConfig(1, None, t, true, penalty);
    var logits, q := PenaltyWitness(padding, penalty, t);
    prompt := [q];
    m := Model((_, _, _) => 0, (_, _, _) => logits, (_, _, _) => 0, (_, _, _) => logits, true);
    PaddedGenerates(m, cfg, Row([], [], padding, prompt));
    AloneGenerates(m, cfg, prompt);
    OneToken(m, cfg, padding, prompt);
    OneToken(m, cfg, [], prompt);
    assert [] + prompt == prompt && NextLogits(m, prompt) == logits;
    var padded, alone := cfg.sample(logits, padding + prompt), cfg.sample(logits, prompt);
    assert (prompt + [padded])[1] != (prompt + [alone])[1];
  }

  lemma OneToken<E, L>(m: Model<E, L>, cfg: Config<L>, left: seq<Token>, prompt: seq<Token>)
    requires prompt != [] && cfg.eos.None?
    ensures Continue(m, cfg, [], left, prompt, 1) == [cfg.sample(NextLogits(m, prompt), left + prompt)]
  {
    assert [] + prompt == prompt;
  }

  // ---- a reused prefix against the whole prompt ----------------------------------------

  /** Prompts, each after a prefix of one length for all. */
  function Concatenated<E>(prefixes: Rows<Token>, p: nat, ids: Rows<Token>, n: nat): (req: Request<E>)
    requires Rectangular(prefixes, |ids|, p) && Rectangular(ids, |ids|, n)
    ensures Rectangular(req.ids, |req.ids|, req.n) && |req.ids| == |ids|
  {
    Request(seq(|ids|, b requires 0 <= b < |ids| => prefixes[b] + ids[b]), p + n, None, None)
  }

  /** The cache a pass over the prefixes leaves. */
  function PrefixCache<E, L>(m: Model<E, L>, prefixes: Rows<Token>, p: nat): (cache: Cache<E>)
    requires Rectangular(prefixes, |prefixes|, p)
    ensures CacheFor(cache, |prefixes|, p)
  {
    if p == 0 then [] else Prefilled(m, PrefixContext(prefixes, p), []).cache
  }

  function PrefixContext(prefixes: Rows<Token>, p: nat): (ctx: Ctx)
    requires Rectangular(prefixes, |prefixes|, p) && p > 0
    ensures ctx.Shaped()
  {
    var n := |prefixes|;
    Ctx(prefixes, p, None, 0, None, seq(n, _ => p), seq(n, _ => 0), seq(n, _ => 0), seq(n, _ => true))
  }

  /** The prompts on top of the cached prefixes. */
  function Reusing<E, L>(m: Model<E, L>, prefixes: Rows<Token>, p: nat, ids: Rows<Token>, n: nat): Request<E>
    requires Rectangular(prefixes, |ids|, p)
  {
    Request(ids, n, None, Some(Prefix(PrefixCache(m, prefixes, p), None)))
  }

  lemma {:induction false} ContinueAfterPrefix<E, L(!new)>(m: Model<E, L>, cfg: Config<L>, prefix: seq<Token>,
                                                           tokens: seq<Token>, whole: seq<Token>, n: nat)
    requires tokens != [] && PaddingBlind(cfg, prefix) && whole == prefix + tokens
    ensures Continue(m, cfg, prefix, [], tokens, n) == Continue(m, cfg, [], [], whole, n)
    decreases n
  {
    if n > 0 {
      var t := cfg.sample(NextLogits(m, whole), tokens);
      SameSample(cfg, prefix, tokens, whole, NextLogits(m, whole), t);
      if cfg.eos != Some(t) {
        ContinueAfterPrefix(m, cfg, prefix, tokens + [t], whole + [t], n - 1);
      }
      ContinueOnce(m, cfg, prefix, tokens, whole, n, t);
    }
  }

  lemma SameSample<L(!new)>(cfg: Config<L>, prefix: seq<Token>, tokens: seq<Token>, whole: seq<Token>, logits: L,
                               t: Token)
    requires PaddingBlind(cfg, prefix) && whole == prefix + tokens
    ensures cfg.sample(logits, [] + tokens) == cfg.sample(logits, tokens) == cfg.sample(logits, [] + whole)
    ensures whole + [t] == prefix + (tokens + [t])
  {
    assert [] + tokens == tokens && [] + whole == whole;
    assert cfg.sample(logits, prefix + tokens) == cfg.sample(logits, tokens);
    Associate(prefix, tokens, [t]);
  }

  lemma ContinueOnce<E, L>(m: Model<E, L>, cfg: Config<L>, prefix: seq<Token>, tokens: seq<Token>, whole: seq<Token>,
                           n: nat, t: Token)
    requires n > 0 && tokens != [] && whole == prefix + tokens
    requires cfg.sample(NextLogits(m, whole), [] + tokens) == t == cfg.sample(NextLogits(m, whole), [] + whole)
    requires cfg.eos != Some(t) ==>
               Continue(m, cfg, prefix, [], tokens + [t], n - 1) == Continue(m, cfg, [], [], whole + [t], n - 1)
    ensures Continue(m, cfg, prefix, [], tokens, n) == Continue(m, cfg, [], [], whole, n)
  {
    assert [] + whole == whole;
    ContinueStep(m, cfg, prefix, [], tokens, n, t);
    ContinueStep(m, cfg, [], [], whole, n, t);
  }

  lemma PrefixCacheHoldsPrefix<E, L>(m: Model<E, L>, prefixes: Rows<Token>, p: nat, b: nat)
    requires Rectangular(prefixes, |prefixes|, p) && b < |prefixes|
    ensures Pick(RowOf(PrefixCache(m, prefixes, p), b), Ones(p)) == Entries(m, prefixes[b])
  {
    if p > 0 {
      var ctx := PrefixContext(prefixes, p);
      PickAll(prefixes[b]);
      PrefillCachesHistory(m, ctx, b);
    }
  }

  function SuffixRow(prefixes: Rows<Token>, p: nat, ids: Rows<Token>, b: nat): Row
    requires b < |ids| == |prefixes|
  {
    Row(prefixes[b], Ones(p), [], ids[b])
  }

  function SuffixRows(prefixes: Rows<Token>, p: nat, ids: Rows<Token>): (rows: seq<Row>)
    requires |ids| == |prefixes|
    ensures |rows| == |ids|
  {
    seq(|ids|, b requires 0 <= b < |ids| => SuffixRow(prefixes, p, ids, b))
  }

  lemma SuffixRowDescribes<E, L>(m: Model<E, L>, prefixes: Rows<Token>, p: nat, ids: Rows<Token>, n: nat, b: nat)
    requires Rectangular(prefixes, |ids|, p) && Rectangular(ids, |ids|, n) && n > 0 && b < |ids|
    ensures Describes(m, Reusing(m, prefixes, p, ids, n), SuffixRow(prefixes, p, ids, b), b)
  {
    var row := SuffixRow(prefixes, p, ids, b);
    PrefixCacheHoldsPrefix(m, prefixes, p, b);
    assert ids[b] == row.padding + row.prompt;
    assert Ones(n) == row.Mask();
  }

  lemma SuffixOwnRow<E, L(!new)>(m: Model<E, L>, cfg: Config<L>, prefixes: Rows<Token>, p: nat, ids: Rows<Token>,
                                 n: nat, b: nat)
    requires Rectangular(prefixes, |ids|, p) && Rectangular(ids, |ids|, n) && n > 0 && b < |ids|
    requires PaddingBlind(cfg, prefixes[b])
    ensures var req: Request<E> := Concatenated(prefixes, p, ids, n);
            LeftPaddedRequest(req)
            && OwnRow(m, cfg, PaddedRow(req, b)) ==
               prefixes[b] + OwnRow(m, cfg, SuffixRow(prefixes, p, ids, b))
  {
    ContinueAfterPrefix(m, cfg, prefixes[b], ids[b], prefixes[b] + ids[b], cfg.maxNewTokens);
    Associate(prefixes[b], ids[b], Continue(m, cfg, prefixes[b], [], ids[b], cfg.maxNewTokens));
    var req: Request<E> := Concatenated(prefixes, p, ids, n);
    assert PaddedRow(req, b).padding == [] && PaddedRow(req, b).prompt == prefixes[b] + ids[b];
  }

  lemma {:induction false} ShiftedLengths(rows: Rows<Token>, longer: Rows<Token>, p: nat)
    requires |rows| == |longer| > 0 && forall b | 0 <= b < |rows| :: |longer[b]| == p + |rows[b]|
    ensures MaxLength(longer) == p + MaxLength(rows)
  {
    if |rows| > 1 {
      ShiftedLengths(rows[..|rows| - 1], longer[..|rows| - 1], p);
    }
  }

  /**
   * Prompts on top of a cached prefix generate what the prefix and the prompt generate together,
   * less the prefix, if the sampler does not look at the prefix.
   */
  lemma PrefixReuseEqualsWholePrompt<E, L(!new)>(m: Model<E, L>, cfg: Config<L>, prefixes: Rows<Token>, p: nat,
                                                 ids: Rows<Token>, n: nat)
    requires Rectangular(prefixes, |ids|, p) && Rectangular(ids, |ids|, n) && n > 0
    requires cfg.useCache && m.returnsCache
    requires forall b | 0 <= b < |ids| :: PaddingBlind(cfg, prefixes[b])
    ensures var reused := GeneratedRows(m, cfg, Reusing(m, prefixes, p, ids, n));
            var whole := GeneratedRows(m, cfg, Concatenated(prefixes, p, ids, n));
            && reused.Ok? && whole.Ok? && |reused.value| == |whole.value| == |ids|
            && forall b | 0 <= b < |ids| :: whole.value[b] == prefixes[b] + reused.value[b]
  {
    var req: Request<E> := Concatenated(prefixes, p, ids, n);
    var rows := SuffixRows(prefixes, p, ids);
    forall b | 0 <= b < |ids|
      ensures Describes(m, Reusing(m, prefixes, p, ids, n), rows[b], b)
    {
      SuffixRowDescribes(m, prefixes, p, ids, n, b);
    }
    GenerationIsPerRow(m, cfg, Reusing(m, prefixes, p, ids, n), rows);
    LeftPaddedGenerates(m, cfg, req);
    var own, longer := OwnRows(m, cfg, rows), OwnRows(m, cfg, PaddedRows(req));
    forall b | 0 <= b < |ids|
      ensures longer[b] == prefixes[b] + own[b]
    {
      SuffixOwnRow(m, cfg, prefixes, p, ids, n, b);
    }
    PrefixedRows(prefixes, p, own, longer, cfg.pad);
  }

  lemma PrefixedRows(prefixes: Rows<Token>, p: nat, own: Rows<Token>, longer: Rows<Token>, pad: Token)
    requires Rectangular(prefixes, |own|, p) && |longer| == |own|
    requires forall b | 0 <= b < |own| :: longer[b] == prefixes[b] + own[b]
    ensures forall b | 0 <= b < |own| :: RightPadded(longer, pad)[b] == prefixes[b] + RightPadded(own, pad)[b]
  {
    if own != [] {
      ShiftedLengths(own, longer, p);
    }
  }
}
