/** The decode loop over a batch, as a function of its context, and what one row of it does. */
module GenerationLoop {
  import opened Common
  import opened LanguageModel
  import opened Generation

  /** The generation context.  length and prefixLen are the tensors' sequence dimensions. */
  datatype Ctx = Ctx(
    sequences: Rows<Token>, length: nat,
    prefixMask: Option<Rows<bool>>, prefixLen: nat,
    mask: Option<Rows<bool>>,
    promptLengths: seq<nat>, prefixValid: seq<nat>,
    counts: seq<nat>, unfinished: seq<bool>)
  {
    ghost predicate Shaped() {
      var b := |sequences|;
      && length > 0
      && Rectangular(sequences, b, length)
      && (prefixMask.Some? ==> Rectangular(prefixMask.value, b, prefixLen))
      && (prefixMask.None? ==> prefixLen == 0)
      && (mask.Some? ==> Rectangular(mask.value, b, length))
      && |promptLengths| == |prefixValid| == |counts| == |unfinished| == b
    }
  }

  function RowMask(mask: Option<Rows<bool>>, b: nat): Option<seq<bool>>
    requires mask.Some? ==> b < |mask.value|
  {
    if mask.Some? then Some(mask.value[b]) else None
  }

  // ---- the forward pass over a batch ----------------------------------------------

  datatype Output<E, L> = Output(logits: seq<L>, cache: Cache<E>)

  function RowOf<E>(cache: Cache<E>, b: nat): (row: seq<E>)
    requires forall j | 0 <= j < |cache| :: b < |cache[j]|
    ensures |row| == |cache|
  {
    seq(|cache|, j requires 0 <= j < |cache| => cache[j][b])
  }

  predicate CacheFor<E>(cache: Cache<E>, rows: nat, keys: nat) {
    Rectangular(cache, keys, rows)
  }

  predicate InputsValid(inputs: seq<RowInput>, keys: nat, n: nat) {
    forall b | 0 <= b < |inputs| :: inputs[b].Valid(keys) && |inputs[b].tokens| == n
  }

  /** Each row's last logits, and the cache of the old keys and the n new ones. */
  function Forward<E, L>(m: Model<E, L>, past: Cache<E>, inputs: seq<RowInput>, n: nat): (out: Output<E, L>)
    requires CacheFor(past, |inputs|, |past|) && InputsValid(inputs, |past|, n)
    ensures |out.logits| == |inputs| && CacheFor(out.cache, |inputs|, |past| + n)
  {
    Output(
      seq(|inputs|, b requires 0 <= b < |inputs| => LastLogits(m, RowOf(past, b), inputs[b])),
      seq(|past| + n, j requires 0 <= j < |past| + n =>
        seq(|inputs|, b requires 0 <= b < |inputs| => Keys(m, RowOf(past, b), inputs[b], n)[j])))
  }

  lemma ForwardRow<E, L>(m: Model<E, L>, past: Cache<E>, inputs: seq<RowInput>, n: nat, b: nat)
    requires CacheFor(past, |inputs|, |past|) && InputsValid(inputs, |past|, n) && b < |inputs|
    ensures var out := Forward(m, past, inputs, n);
            && out.logits[b] == LastLogits(m, RowOf(past, b), inputs[b])
            && RowOf(out.cache, b) == Keys(m, RowOf(past, b), inputs[b], n)
  {
  }

  function PrefillInputs(ctx: Ctx): (inputs: seq<RowInput>)
    requires ctx.Shaped()
    ensures |inputs| == |ctx.sequences| && InputsValid(inputs, ctx.prefixLen, ctx.length)
  {
    var inputs := seq(|ctx.sequences|, b requires 0 <= b < |ctx.sequences| =>
      PrefillInput(ctx.sequences[b], RowMask(ctx.mask, b), RowMask(ctx.prefixMask, b)));
    assert InputsValid(inputs, ctx.prefixLen, ctx.length) by {
      forall b | 0 <= b < |inputs|
        ensures inputs[b].Valid(ctx.prefixLen)
      {
        PrefillInputIsCausal(ctx.sequences[b], RowMask(ctx.mask, b), RowMask(ctx.prefixMask, b));
      }
    }
    inputs
  }

  /** The prefix's mask and the sequences', side by side; a missing one adds nothing. */
  function CombinedMask(ctx: Ctx, b: nat): Option<seq<bool>>
    requires ctx.Shaped() && b < |ctx.sequences|
  {
    if ctx.prefixMask.None? then RowMask(ctx.mask, b)
    else if ctx.mask.None? then RowMask(ctx.prefixMask, b)
    else Some(ctx.prefixMask.value[b] + ctx.mask.value[b])
  }

  /** The position a row decodes at, by its counts alone. */
  function DecodePosition(ctx: Ctx, b: nat): int
    requires ctx.Shaped() && b < |ctx.sequences|
  {
    var total: int := ctx.prefixValid[b] + ctx.promptLengths[b] + ctx.counts[b];
    total - 1
  }

  function DecodeInputs(ctx: Ctx, tokens: seq<Token>): (inputs: seq<RowInput>)
    requires ctx.Shaped() && |tokens| == |ctx.sequences|
    requires ctx.prefixMask.Some? ==> ctx.mask.Some?
    ensures |inputs| == |tokens| && InputsValid(inputs, ctx.prefixLen + ctx.length - 1, 1)
  {
    seq(|tokens|, b requires 0 <= b < |tokens| =>
      DecodeInput(tokens[b], DecodePosition(ctx, b), CombinedMask(ctx, b), ctx.prefixLen + ctx.length - 1))
  }

  /** Whether the cache a loop holds fits its context: every key so far, or none when it is not used. */
  predicate CacheFits<E>(ctx: Ctx, cache: Cache<E>, cached: bool, keys: nat) {
    && (cached ==> CacheFor(cache, |ctx.sequences|, ctx.prefixLen + keys))
    && (!cached ==> ctx.prefixMask.None?)
    && (ctx.prefixMask.Some? ==> ctx.mask.Some?)
  }

  /** One decode step, once the new tokens are appended: from the cache, or over everything again. */
  function Decoded<E, L>(m: Model<E, L>, ctx: Ctx, tokens: seq<Token>, cache: Cache<E>, cached: bool)
    : (out: Output<E, L>)
    requires ctx.Shaped() && |tokens| == |ctx.sequences| && CacheFits(ctx, cache, cached, ctx.length - 1)
    ensures |out.logits| == |ctx.sequences| && (cached ==> CacheFits(ctx, out.cache, cached, ctx.length))
  {
    if cached then Forward(m, cache, DecodeInputs(ctx, tokens), 1)
    else Forward(m, [], PrefillInputs(ctx), ctx.length)
  }

  // ---- one iteration --------------------------------------------------------------

  function Sampled<L>(cfg: Config<L>, ctx: Ctx, logits: seq<L>): (tokens: seq<Token>)
    requires |logits| == |ctx.sequences|
    ensures |tokens| == |ctx.sequences|
  {
    seq(|logits|, b requires 0 <= b < |logits| => cfg.sample(logits[b], ctx.sequences[b]))
  }

  /** The tokens appended: padding for a finished row. */
  function Emitted<L>(cfg: Config<L>, ctx: Ctx, next: seq<Token>): (tokens: seq<Token>)
    requires ctx.Shaped() && |next| == |ctx.sequences|
    ensures |tokens| == |next|
  {
    if cfg.eos.None? then next
    else seq(|next|, b requires 0 <= b < |next| => if ctx.unfinished[b] then next[b] else cfg.pad)
  }

  function Appended<L>(cfg: Config<L>, ctx: Ctx, next: seq<Token>): (after: Ctx)
    requires ctx.Shaped() && |next| == |ctx.sequences|
    ensures after.Shaped() && |after.sequences| == |ctx.sequences| && after.length == ctx.length + 1
  {
    var n := |next|;
    var tokens := Emitted(cfg, ctx, next);
    ctx.(
      sequences := seq(n, b requires 0 <= b < n => ctx.sequences[b] + [tokens[b]]),
      length := ctx.length + 1,
      counts := seq(n, b requires 0 <= b < n => ctx.counts[b] + (if ctx.unfinished[b] then 1 else 0)),
      mask := if ctx.mask.None? then None else Some(seq(n, b requires 0 <= b < n => ctx.mask.value[b] + [true])),
      unfinished := if cfg.eos.None? then ctx.unfinished
                    else seq(n, b requires 0 <= b < n => ctx.unfinished[b] && tokens[b] != cfg.eos.value))
  }

  predicate AnyUnfinished(ctx: Ctx) {
    exists b :: 0 <= b < |ctx.unfinished| && ctx.unfinished[b]
  }

  predicate ShouldFinish<L>(cfg: Config<L>, ctx: Ctx, step: nat) {
    (cfg.eos.Some? && !AnyUnfinished(ctx)) || step + 1 == cfg.maxNewTokens
  }

  /** What an iteration starts from: the context, the cache and each row's logits. */
  datatype Loop<E, L> = Loop(ctx: Ctx, cache: Cache<E>, logits: seq<L>) {
    ghost predicate Fits(cached: bool) {
      ctx.Shaped() && |logits| == |ctx.sequences| && CacheFits(ctx, cache, cached, ctx.length)
    }
  }

  /** The context once a row's next token is appended. */
  function Sequel<E, L>(cfg: Config<L>, loop: Loop<E, L>): (after: Ctx)
    requires loop.ctx.Shaped() && |loop.logits| == |loop.ctx.sequences|
    ensures after.Shaped() && |after.sequences| == |loop.ctx.sequences| && after.length == loop.ctx.length + 1
  {
    Appended(cfg, loop.ctx, Sampled(cfg, loop.ctx, loop.logits))
  }

  /** What the next iteration starts from, if this one does not end the loop. */
  function Iterated<E, L>(m: Model<E, L>, cfg: Config<L>, cached: bool, loop: Loop<E, L>): (next: Loop<E, L>)
    requires loop.Fits(cached)
    ensures next.Fits(cached) && next.ctx == Sequel(cfg, loop)
  {
    var after := Sequel(cfg, loop);
    var tokens := Emitted(cfg, loop.ctx, Sampled(cfg, loop.ctx, loop.logits));
    var out := Decoded(m, after, tokens, loop.cache, cached);
    Loop(after, if cached then out.cache else loop.cache, out.logits)
  }

  /** The context when the loop ends. */
  function Run<E, L>(m: Model<E, L>, cfg: Config<L>, cached: bool, loop: Loop<E, L>, step: nat): (end: Ctx)
    requires loop.Fits(cached) && step < cfg.maxNewTokens
    ensures end.Shaped() && |end.sequences| == |loop.ctx.sequences| && end.length > loop.ctx.length
    decreases cfg.maxNewTokens - step
  {
    var after := Sequel(cfg, loop);
    if ShouldFinish(cfg, after, step) then after
    else Run(m, cfg, cached, Iterated(m, cfg, cached, loop), step + 1)
  }

  // ---- the reference: one row, alone and without padding ------------------------------

  /**
   * The tokens a row generates in at most n steps.  The model sees its prefix and its own tokens;
   * the sampler sees its own tokens and whatever stands left of them.
   */
  function Continue<E, L>(m: Model<E, L>, cfg: Config<L>, prefix: seq<Token>, left: seq<Token>, tokens: seq<Token>,
                          n: nat): seq<Token>
    requires prefix + tokens != []
    decreases n
  {
    if n == 0 then []
    else
      var t := cfg.sample(NextLogits(m, prefix + tokens), left + tokens);
      if cfg.eos == Some(t) then [t]
      else [t] + Continue(m, cfg, prefix, left, tokens + [t], n - 1)
  }

  /** The sampler does not look at what stands left of a row's own tokens. */
  ghost predicate PaddingBlind<L(!new)>(cfg: Config<L>, left: seq<Token>) {
    forall logits: L, row: seq<Token> :: cfg.sample(logits, left + row) == cfg.sample(logits, row)
  }

  lemma {:induction false} BlindSamplerContinues<E, L(!new)>(m: Model<E, L>, cfg: Config<L>, prefix: seq<Token>,
                                                             left: seq<Token>, tokens: seq<Token>, n: nat)
    requires prefix + tokens != [] && PaddingBlind(cfg, left)
    ensures Continue(m, cfg, prefix, left, tokens, n) == Continue(m, cfg, prefix, [], tokens, n)
    decreases n
  {
    if n > 0 {
      var logits := NextLogits(m, prefix + tokens);
      assert [] + tokens == tokens;
      var t := cfg.sample(logits, left + tokens);
      if cfg.eos != Some(t) {
        BlindSamplerContinues(m, cfg, prefix, left, tokens + [t], n - 1);
      }
    }
  }

  // ---- what the loop keeps of one row -------------------------------------------------

  /** A row as it came in: its tokens behind left padding, and the prefix's valid tokens before it. */
  datatype Row = Row(prefix: seq<Token>, prefixMask: seq<bool>, padding: seq<Token>, prompt: seq<Token>) {
    function Mask(): seq<bool> {
      seq(|padding|, _ => false) + Ones(|prompt|)
    }
  }

  /** The tokens row b has generated so far. */
  function Generated(ctx: Ctx, row: Row, b: nat): seq<Token>
    requires ctx.Shaped() && b < |ctx.sequences|
    requires |row.padding| + |row.prompt| + ctx.counts[b] <= ctx.length
  {
    ctx.sequences[b][|row.padding + row.prompt|..|row.padding + row.prompt| + ctx.counts[b]]
  }

  /** After k appended tokens, a row holds its input, and its masks and counts say so. */
  ghost predicate RowShape(ctx: Ctx, row: Row, b: nat, k: nat)
    requires ctx.Shaped() && b < |ctx.sequences|
  {
    && row.prompt != []
    && ctx.length == |row.padding| + |row.prompt| + k && ctx.counts[b] <= k
    && (ctx.unfinished[b] ==> ctx.counts[b] == k)
    && ctx.sequences[b][..|row.padding + row.prompt|] == row.padding + row.prompt
    && OrOnes(RowMask(ctx.mask, b), ctx.length) == row.Mask() + Ones(k)
    && OrNone(RowMask(ctx.prefixMask, b)) == row.prefixMask
    && ctx.promptLengths[b] == |row.prompt| && ctx.prefixValid[b] == |row.prefix|
  }

  /** What a row has generated is a part of what it would generate alone; once it is finished, all of it. */
  ghost predicate Alone<E, L>(m: Model<E, L>, cfg: Config<L>, row: Row, done: seq<Token>, unfinished: bool, k: nat)
    requires row.prompt != []
  {
    && k <= cfg.maxNewTokens && (cfg.eos.None? ==> unfinished)
    && Continue(m, cfg, row.prefix, row.padding, row.prompt, cfg.maxNewTokens) ==
       if unfinished
       then done + Continue(m, cfg, row.prefix, row.padding, row.prompt + done, cfg.maxNewTokens - k)
       else done
  }

  ghost predicate TextInv<E, L>(m: Model<E, L>, cfg: Config<L>, ctx: Ctx, row: Row, b: nat, k: nat)
    requires ctx.Shaped() && b < |ctx.sequences|
  {
    RowShape(ctx, row, b, k) && Alone(m, cfg, row, Generated(ctx, row, b), ctx.unfinished[b], k)
  }

  /** The cached entries a row's valid keys have are those of a history without padding. */
  ghost predicate CachedKeys<E, L>(m: Model<E, L>, row: Row, b: nat, cache: Cache<E>, known: seq<Token>, k: nat)
    requires forall j | 0 <= j < |cache| :: b < |cache[j]|
  {
    var keyMask := row.prefixMask + (row.Mask() + Ones(k));
    |cache| == |keyMask| && Pick(RowOf(cache, b), keyMask) == Entries(m, known)
  }

  /** An unfinished row's logits and cached entries are those of its own history. */
  ghost predicate ModelInv<E, L>(m: Model<E, L>, row: Row, b: nat, cached: bool, cache: Cache<E>, logits: L,
                                 done: seq<Token>, k: nat)
    requires row.prompt != [] && (cached ==> forall j | 0 <= j < |cache| :: b < |cache[j]|)
  {
    var known := row.prefix + (row.prompt + done);
    && logits == NextLogits(m, known)
    && (cached ==> CachedKeys(m, row, b, cache, known, k))
  }

  lemma ContinueStep<E, L>(m: Model<E, L>, cfg: Config<L>, prefix: seq<Token>, left: seq<Token>, tokens: seq<Token>,
                           n: nat, t: Token)
    requires prefix + tokens != [] && n > 0 && t == cfg.sample(NextLogits(m, prefix + tokens), left + tokens)
    ensures Continue(m, cfg, prefix, left, tokens, n) ==
            [t] + (if cfg.eos == Some(t) then [] else Continue(m, cfg, prefix, left, tokens + [t], n - 1))
  {
  }

  /** The token an unfinished row samples is the one it would sample alone, behind its own padding. */
  lemma SampledAlone<L>(cfg: Config<L>, ctx: Ctx, row: Row, b: nat, k: nat, logits: seq<L>)
    requires ctx.Shaped() && b < |ctx.sequences| == |logits| && RowShape(ctx, row, b, k) && ctx.unfinished[b]
    ensures Sampled(cfg, ctx, logits)[b] == cfg.sample(logits[b], row.padding + (row.prompt + Generated(ctx, row, b)))
  {
    var n := |row.padding + row.prompt|;
    assert |ctx.sequences[b]| == n + k;
    assert ctx.sequences[b] == ctx.sequences[b][..n] + ctx.sequences[b][n..n + k];
    Associate(row.padding, row.prompt, Generated(ctx, row, b));
  }

  /** Appending extends what an unfinished row has generated by its own next token, and a finished row by nothing. */
  lemma AppendedText<L>(cfg: Config<L>, ctx: Ctx, row: Row, b: nat, next: seq<Token>, k: nat)
    requires ctx.Shaped() && b < |ctx.sequences| == |next|
    requires ctx.length == |row.padding| + |row.prompt| + k && ctx.counts[b] <= k
    requires ctx.unfinished[b] ==> ctx.counts[b] == k
    ensures var after := Appended(cfg, ctx, next);
            var n := |row.padding + row.prompt|;
            && after.sequences[b][..n] == ctx.sequences[b][..n]
            && after.counts[b] == ctx.counts[b] + (if ctx.unfinished[b] then 1 else 0)
            && Generated(after, row, b) == Generated(ctx, row, b) + (if ctx.unfinished[b] then [next[b]] else [])
  {
  }

  lemma AppendedMask<L>(cfg: Config<L>, ctx: Ctx, row: Row, b: nat, next: seq<Token>, k: nat)
    requires ctx.Shaped() && b < |ctx.sequences| == |next|
    requires OrOnes(RowMask(ctx.mask, b), ctx.length) == row.Mask() + Ones(k)
    ensures var after := Appended(cfg, ctx, next);
            OrOnes(RowMask(after.mask, b), after.length) == row.Mask() + Ones(k + 1)
  {
    assert Ones(k + 1) == Ones(k) + [true];
    assert Ones(ctx.length + 1) == Ones(ctx.length) + [true];
  }

  /** What is left to generate moves to what is generated, one token at a time. */
  lemma ContinueMoves<E, L>(m: Model<E, L>, cfg: Config<L>, row: Row, done: seq<Token>, t: Token, n: nat)
    requires row.prompt != [] && n > 0
    requires t == cfg.sample(NextLogits(m, row.prefix + (row.prompt + done)), row.padding + (row.prompt + done))
    ensures done + Continue(m, cfg, row.prefix, row.padding, row.prompt + done, n) ==
            done + [t] + (if cfg.eos == Some(t) then []
                          else Continue(m, cfg, row.prefix, row.padding, row.prompt + (done + [t]), n - 1))
  {
    ContinueStep(m, cfg, row.prefix, row.padding, row.prompt + done, n, t);
    Associate(row.prompt, done, [t]);
  }

  lemma AppendKeepsShape<L>(cfg: Config<L>, ctx: Ctx, row: Row, b: nat, k: nat, next: seq<Token>)
    requires ctx.Shaped() && b < |ctx.sequences| == |next| && RowShape(ctx, row, b, k)
    ensures RowShape(Appended(cfg, ctx, next), row, b, k + 1)
    ensures Generated(Appended(cfg, ctx, next), row, b) ==
            Generated(ctx, row, b) + (if ctx.unfinished[b] then [next[b]] else [])
  {
    AppendedText(cfg, ctx, row, b, next, k);
    AppendedMask(cfg, ctx, row, b, next, k);
  }

  lemma AppendKeepsText<E, L>(m: Model<E, L>, cfg: Config<L>, ctx: Ctx, row: Row, b: nat, k: nat, logits: seq<L>)
    requires ctx.Shaped() && b < |ctx.sequences| == |logits| && TextInv(m, cfg, ctx, row, b, k)
    requires k < cfg.maxNewTokens
    requires ctx.unfinished[b] ==> logits[b] == NextLogits(m, row.prefix + (row.prompt + Generated(ctx, row, b)))
    ensures TextInv(m, cfg, Appended(cfg, ctx, Sampled(cfg, ctx, logits)), row, b, k + 1)
  {
    var next, done := Sampled(cfg, ctx, logits), Generated(ctx, row, b);
    var after := Appended(cfg, ctx, next);
    AppendKeepsShape(cfg, ctx, row, b, k, next);
    if ctx.unfinished[b] {
      SampledAlone(cfg, ctx, row, b, k, logits);
      AloneMovesOn(m, cfg, row, done, next[b], k, Generated(after, row, b), after.unfinished[b]);
    } else {
      assert done + [] == done;
    }
  }

  lemma AloneMovesOn<E, L>(m: Model<E, L>, cfg: Config<L>, row: Row, done: seq<Token>, t: Token, k: nat,
                           done': seq<Token>, unfinished: bool)
    requires row.prompt != [] && k < cfg.maxNewTokens && Alone(m, cfg, row, done, true, k)
    requires t == cfg.sample(NextLogits(m, row.prefix + (row.prompt + done)), row.padding + (row.prompt + done))
    requires done' == done + [t] && (unfinished <==> cfg.eos != Some(t))
    ensures Alone(m, cfg, row, done', unfinished, k + 1)
  {
    MovesOn(m, cfg, row, done, t, cfg.maxNewTokens - k);
  }

  /** What a row has still to generate once it has appended its next token: nothing more after EOS. */
  lemma MovesOn<E, L>(m: Model<E, L>, cfg: Config<L>, row: Row, done: seq<Token>, t: Token, n: nat)
    requires row.prompt != [] && n > 0
    requires t == cfg.sample(NextLogits(m, row.prefix + (row.prompt + done)), row.padding + (row.prompt + done))
    ensures var rest := done + Continue(m, cfg, row.prefix, row.padding, row.prompt + done, n);
            && (cfg.eos == Some(t) ==> rest == done + [t])
            && (cfg.eos != Some(t) ==>
                  rest == done + [t] + Continue(m, cfg, row.prefix, row.padding, row.prompt + (done + [t]), n - 1))
  {
    ContinueMoves(m, cfg, row, done, t, n);
    assert done + [t] + [] == done + [t];
  }

  lemma PickPrompt(row: Row)
    ensures Pick(row.padding + row.prompt, row.Mask()) == row.prompt
  {
    PickAppend(row.padding, seq(|row.padding|, _ => false), row.prompt, Ones(|row.prompt|));
    PickNothing(row.padding);
    PickAll(row.prompt);
  }

  /** The valid tokens of a row are its prompt and what it has generated. */
  lemma PickRow(row: Row, done: seq<Token>)
    ensures Pick(row.padding + row.prompt + done, row.Mask() + Ones(|done|)) == row.prompt + done
  {
    PickPrompt(row);
    PickAll(done);
    PickAppend(row.padding + row.prompt, row.Mask(), done, Ones(|done|));
  }

  lemma {:induction false} PickNothing<T>(s: seq<T>)
    ensures Pick(s, seq(|s|, _ => false)) == []
  {
    if s != [] {
      assert seq(|s|, _ => false)[..|s| - 1] == seq(|s| - 1, _ => false);
      PickNothing(s[..|s| - 1]);
    }
  }

  /** The mask a cached decode step hands a row: every key so far as it was, and the new one valid. */
  lemma CombinedMaskGrows<E, L>(m: Model<E, L>, cfg: Config<L>, ctx: Ctx, row: Row, b: nat, k: nat)
    requires ctx.Shaped() && b < |ctx.sequences| && TextInv(m, cfg, ctx, row, b, k + 1)
    requires ctx.prefixMask.Some? ==> ctx.mask.Some?
    ensures var keyMask := row.prefixMask + (row.Mask() + Ones(k));
            && |keyMask| + 1 == ctx.prefixLen + ctx.length
            && (CombinedMask(ctx, b).Some? ==> |CombinedMask(ctx, b).value| == |keyMask| + 1)
            && OrOnes(CombinedMask(ctx, b), |keyMask| + 1) == keyMask + [true]
  {
    OneMoreValid(row, k);
  }

  lemma OneMoreValid(row: Row, k: nat)
    ensures row.Mask() + Ones(k + 1) == row.Mask() + Ones(k) + [true]
    ensures row.prefixMask + (row.Mask() + Ones(k + 1)) == row.prefixMask + (row.Mask() + Ones(k)) + [true]
  {
    assert Ones(k + 1) == Ones(k) + [true];
  }

  /** What a cached step gives one row, by that row's input alone. */
  lemma DecodedRow<E, L>(m: Model<E, L>, ctx: Ctx, tokens: seq<Token>, cache: Cache<E>, b: nat, past: seq<E>,
                         input: RowInput)
    requires ctx.Shaped() && b < |ctx.sequences| == |tokens| && CacheFits(ctx, cache, true, ctx.length - 1)
    requires past == RowOf(cache, b)
    requires input == DecodeInput(tokens[b], DecodePosition(ctx, b), CombinedMask(ctx, b), |cache|)
    requires input.Valid(|past|)
    ensures var out := Decoded(m, ctx, tokens, cache, true);
            && out.logits[b] == LastLogits(m, past, input)
            && |out.cache| == |cache| + 1
            && RowOf(out.cache, b) == Keys(m, past, input, 1)
  {
    ForwardRow(m, cache, DecodeInputs(ctx, tokens), 1, b);
  }

  lemma CachedDecodeRow<E, L>(m: Model<E, L>, ctx: Ctx, tokens: seq<Token>, cache: Cache<E>, b: nat,
                              keyMask: seq<bool>, history: seq<Token>)
    requires ctx.Shaped() && b < |ctx.sequences| == |tokens| && CacheFits(ctx, cache, true, ctx.length - 1)
    requires |keyMask| == |cache| && Pick(RowOf(cache, b), keyMask) == Entries(m, history)
    requires CombinedMask(ctx, b).Some? ==> |CombinedMask(ctx, b).value| == |keyMask| + 1
    requires OrOnes(CombinedMask(ctx, b), |keyMask| + 1) == keyMask + [true]
    requires DecodePosition(ctx, b) == |history|
    ensures var out := Decoded(m, ctx, tokens, cache, true);
            && out.logits[b] == NextLogits(m, history + [tokens[b]])
            && |out.cache| == |keyMask| + 1
            && Pick(RowOf(out.cache, b), keyMask + [true]) == Entries(m, history + [tokens[b]])
  {
    var past, mask := RowOf(cache, b), CombinedMask(ctx, b);
    DecodeRow(m, past, keyMask, history, tokens[b], mask);
    DecodedRow(m, ctx, tokens, cache, b, past, DecodeInput(tokens[b], |history|, mask, |cache|));
  }

  /** Cached: the position by counts and the cached keys give an unfinished row its own next logits. */
  lemma CachedDecodeKeepsModel<E, L>(m: Model<E, L>, cfg: Config<L>, ctx: Ctx, tokens: seq<Token>, cache: Cache<E>,
                                     row: Row, b: nat, k: nat, done: seq<Token>)
    requires ctx.Shaped() && b < |ctx.sequences| == |tokens| && CacheFits(ctx, cache, true, ctx.length - 1)
    requires TextInv(m, cfg, ctx, row, b, k + 1) && ctx.unfinished[b] && |done| == k
    requires CachedKeys(m, row, b, cache, row.prefix + (row.prompt + done), k)
    ensures var out := Decoded(m, ctx, tokens, cache, true);
            ModelInv(m, row, b, true, out.cache, out.logits[b], done + [tokens[b]], k + 1)
  {
    var history := row.prefix + (row.prompt + done);
    var keyMask := row.prefixMask + (row.Mask() + Ones(k));
    CombinedMaskGrows(m, cfg, ctx, row, b, k);
    CachedDecodeRow(m, ctx, tokens, cache, b, keyMask, history);
    var out := Decoded(m, ctx, tokens, cache, true);
    SameHistory(row, done, tokens[b], k);
    var keyMask' := row.prefixMask + (row.Mask() + Ones(k + 1));
    assert |out.cache| == |keyMask'|;
  }

  lemma SameHistory(row: Row, done: seq<Token>, token: Token, k: nat)
    ensures row.prefix + (row.prompt + done) + [token] == row.prefix + (row.prompt + (done + [token]))
    ensures row.prefixMask + (row.Mask() + Ones(k)) + [true] == row.prefixMask + (row.Mask() + Ones(k + 1))
  {
    OneMoreValid(row, k);
  }

  /** What a full pass gives one row. */
  lemma RedecodedRow<E, L>(m: Model<E, L>, ctx: Ctx, tokens: seq<Token>, cache: Cache<E>, b: nat, row: seq<Token>,
                           mask: Option<seq<bool>>)
    requires ctx.Shaped() && b < |ctx.sequences| == |tokens| && CacheFits(ctx, cache, false, ctx.length - 1)
    requires row == ctx.sequences[b] && mask == RowMask(ctx.mask, b) && row != []
    requires OrOnes(mask, |row|)[|row| - 1]
    ensures Decoded(m, ctx, tokens, cache, false).logits[b] == NextLogits(m, Pick(row, OrOnes(mask, |row|)))
  {
    var inputs, none: seq<E> := PrefillInputs(ctx), [];
    ForwardRow(m, [], inputs, ctx.length, b);
    PrefillRow(m, none, None, [], row, mask);
    assert RowOf<E>([], b) == none;
    assert [] + Pick(row, OrOnes(mask, |row|)) == Pick(row, OrOnes(mask, |row|));
  }

  /** Not cached: a full pass over the padded row gives the same. */
  lemma UncachedDecodeKeepsModel<E, L>(m: Model<E, L>, cfg: Config<L>, ctx: Ctx, tokens: seq<Token>, cache: Cache<E>,
                                       row: Row, b: nat, k: nat)
    requires ctx.Shaped() && b < |ctx.sequences| == |tokens| && CacheFits(ctx, cache, false, ctx.length - 1)
    requires TextInv(m, cfg, ctx, row, b, k + 1) && ctx.unfinished[b] && row.prefix == []
    ensures var out := Decoded(m, ctx, tokens, cache, false);
            ModelInv(m, row, b, false, out.cache, out.logits[b], Generated(ctx, row, b), k + 1)
  {
    var done := Generated(ctx, row, b);
    WholeRow(row, k + 1, ctx.sequences[b], RowMask(ctx.mask, b), done);
    RedecodedRow(m, ctx, tokens, cache, b, ctx.sequences[b], RowMask(ctx.mask, b));
    assert row.prompt + done == row.prefix + (row.prompt + done);
  }

  lemma WholeRow(row: Row, k: nat, tokens: seq<Token>, mask: Option<seq<bool>>, done: seq<Token>)
    requires row.prompt != [] && |tokens| == |row.padding| + |row.prompt| + k
    requires mask.Some? ==> |mask.value| == |tokens|
    requires tokens[..|row.padding + row.prompt|] == row.padding + row.prompt
    requires done == tokens[|row.padding + row.prompt|..|row.padding + row.prompt| + k]
    requires OrOnes(mask, |tokens|) == row.Mask() + Ones(k)
    ensures OrOnes(mask, |tokens|)[|tokens| - 1]
    ensures Pick(tokens, OrOnes(mask, |tokens|)) == row.prompt + done
  {
    WholeText(row, tokens, k, done);
    LastIsValid(row, k);
    PickWhole(row, done, tokens, OrOnes(mask, |tokens|));
  }

  lemma PickWhole(row: Row, done: seq<Token>, tokens: seq<Token>, valid: seq<bool>)
    requires tokens == row.padding + row.prompt + done && valid == row.Mask() + Ones(|done|)
    ensures |tokens| == |valid| && Pick(tokens, valid) == row.prompt + done
  {
    PickRow(row, done);
  }

  lemma WholeText(row: Row, tokens: seq<Token>, k: nat, done: seq<Token>)
    requires |tokens| == |row.padding| + |row.prompt| + k
    requires tokens[..|row.padding + row.prompt|] == row.padding + row.prompt
    requires done == tokens[|row.padding + row.prompt|..|row.padding + row.prompt| + k]
    ensures tokens == row.padding + row.prompt + done
  {
    var n := |row.padding + row.prompt|;
    assert tokens == tokens[..n] + tokens[n..n + k];
  }

  lemma LastIsValid(row: Row, k: nat)
    requires row.prompt != []
    ensures (row.Mask() + Ones(k))[|row.padding| + |row.prompt| + k - 1]
  {
  }

  /** A row once the loop has ended: everything it would generate alone, behind its own padding and prompt. */
  ghost predicate RowDone<E, L>(m: Model<E, L>, cfg: Config<L>, end: Ctx, row: Row, b: nat)
    requires end.Shaped() && b < |end.sequences|
  {
    && row.prompt != []
    && |row.padding| + |row.prompt| + end.counts[b] <= end.length
    && end.sequences[b][..|row.padding + row.prompt|] == row.padding + row.prompt
    && end.promptLengths[b] == |row.prompt|
    && Generated(end, row, b) == Continue(m, cfg, row.prefix, row.padding, row.prompt, cfg.maxNewTokens)
  }

  lemma StoppedRowIsDone<E, L>(m: Model<E, L>, cfg: Config<L>, ctx: Ctx, row: Row, b: nat, step: nat)
    requires ctx.Shaped() && b < |ctx.sequences| && TextInv(m, cfg, ctx, row, b, step + 1)
    requires ShouldFinish(cfg, ctx, step)
    ensures RowDone(m, cfg, ctx, row, b)
  {
  }

  /** The invariants of one row at the head of an iteration. */
  ghost predicate RowInv<E, L>(m: Model<E, L>, cfg: Config<L>, cached: bool, loop: Loop<E, L>, row: Row, b: nat,
                               step: nat)
    requires loop.Fits(cached) && b < |loop.ctx.sequences|
  {
    && TextInv(m, cfg, loop.ctx, row, b, step)
    && (!cached ==> row.prefix == [])
    && (loop.ctx.unfinished[b] ==>
          ModelInv(m, row, b, cached, loop.cache, loop.logits[b], Generated(loop.ctx, row, b), step))
  }

  lemma SequelKeepsText<E, L>(m: Model<E, L>, cfg: Config<L>, cached: bool, loop: Loop<E, L>, row: Row, b: nat,
                              step: nat)
    requires loop.Fits(cached) && b < |loop.ctx.sequences| && RowInv(m, cfg, cached, loop, row, b, step)
    requires step < cfg.maxNewTokens
    ensures TextInv(m, cfg, Sequel(cfg, loop), row, b, step + 1)
  {
    AppendKeepsText(m, cfg, loop.ctx, row, b, step, loop.logits);
  }

  lemma IterationKeepsRow<E, L>(m: Model<E, L>, cfg: Config<L>, cached: bool, loop: Loop<E, L>, row: Row, b: nat,
                                step: nat)
    requires loop.Fits(cached) && b < |loop.ctx.sequences| && RowInv(m, cfg, cached, loop, row, b, step)
    requires step < cfg.maxNewTokens
    ensures RowInv(m, cfg, cached, Iterated(m, cfg, cached, loop), row, b, step + 1)
  {
    var ctx, after := loop.ctx, Sequel(cfg, loop);
    var next := Sampled(cfg, ctx, loop.logits);
    SequelKeepsText(m, cfg, cached, loop, row, b, step);
    if after.unfinished[b] {
      var tokens, done := Emitted(cfg, ctx, next), Generated(ctx, row, b);
      AppendedText(cfg, ctx, row, b, next, step);
      if cached {
        CachedDecodeKeepsModel(m, cfg, after, tokens, loop.cache, row, b, step, done);
      } else {
        UncachedDecodeKeepsModel(m, cfg, after, tokens, loop.cache, row, b, step);
      }
    }
  }

  ghost predicate RowsInv<E, L>(m: Model<E, L>, cfg: Config<L>, cached: bool, loop: Loop<E, L>, rows: seq<Row>,
                                step: nat)
    requires loop.Fits(cached)
  {
    |rows| == |loop.ctx.sequences| && forall b | 0 <= b < |rows| :: RowInv(m, cfg, cached, loop, rows[b], b, step)
  }

  ghost predicate RowsDone<E, L>(m: Model<E, L>, cfg: Config<L>, end: Ctx, rows: seq<Row>)
    requires end.Shaped()
  {
    |rows| == |end.sequences| && forall b | 0 <= b < |rows| :: RowDone(m, cfg, end, rows[b], b)
  }

  lemma LastIteration<E, L>(m: Model<E, L>, cfg: Config<L>, cached: bool, loop: Loop<E, L>, rows: seq<Row>, step: nat)
    requires loop.Fits(cached) && RowsInv(m, cfg, cached, loop, rows, step) && step < cfg.maxNewTokens
    requires ShouldFinish(cfg, Sequel(cfg, loop), step)
    ensures RowsDone(m, cfg, Sequel(cfg, loop), rows)
  {
    forall b | 0 <= b < |rows|
      ensures RowDone(m, cfg, Sequel(cfg, loop), rows[b], b)
    {
      SequelKeepsText(m, cfg, cached, loop, rows[b], b, step);
      StoppedRowIsDone(m, cfg, Sequel(cfg, loop), rows[b], b, step);
    }
  }

  lemma IterationKeepsRows<E, L>(m: Model<E, L>, cfg: Config<L>, cached: bool, loop: Loop<E, L>, rows: seq<Row>,
                                 step: nat)
    requires loop.Fits(cached) && RowsInv(m, cfg, cached, loop, rows, step) && step < cfg.maxNewTokens
    ensures RowsInv(m, cfg, cached, Iterated(m, cfg, cached, loop), rows, step + 1)
  {
    forall b | 0 <= b < |rows|
      ensures RowInv(m, cfg, cached, Iterated(m, cfg, cached, loop), rows[b], b, step + 1)
    {
      IterationKeepsRow(m, cfg, cached, loop, rows[b], b, step);
    }
  }

  /** Whatever the other rows of the batch do, each row ends with what it generates by itself. */
  lemma {:induction false} RunIsPerRow<E, L>(m: Model<E, L>, cfg: Config<L>, cached: bool, loop: Loop<E, L>,
                                             rows: seq<Row>, step: nat)
    requires loop.Fits(cached) && RowsInv(m, cfg, cached, loop, rows, step) && step < cfg.maxNewTokens
    ensures RowsDone(m, cfg, Run(m, cfg, cached, loop, step), rows)
    decreases cfg.maxNewTokens - step
  {
    if ShouldFinish(cfg, Sequel(cfg, loop), step) {
      LastIteration(m, cfg, cached, loop, rows, step);
    } else {
      IterationKeepsRows(m, cfg, cached, loop, rows, step);
      RunIsPerRow(m, cfg, cached, Iterated(m, cfg, cached, loop), rows, step + 1);
    }
  }
}
