/** The generation context as the object it is, and the generate loop that updates it step by step. */
module GenerationContext {
  import opened Common
  import opened LanguageModel
  import opened Generation
  import opened GenerationLoop
  import FinalRows
  import opened Generate

  class Context<E(0)> {
    var sequences: Rows<Token>
    var length: nat
    var prefixMask: Option<Rows<bool>>
    var prefixLen: nat
    var currentMask: Option<Rows<bool>>
    var initialMask: Option<Rows<bool>>
    var promptLengths: seq<nat>
    var prefixValidLengths: seq<nat>
    var generatedCounts: seq<nat>
    var unfinished: seq<bool>
    var cache: Cache<E>

    function View(): Ctx
      reads this
    {
      Ctx(sequences, length, prefixMask, prefixLen, currentMask, promptLengths, prefixValidLengths, generatedCounts,
          unfinished)
    }

    constructor Prepare<L>(m: Model<E, L>, cfg: Config<L>, req: Request<E>)
      requires Accepted(m, cfg, req)
      ensures View() == StartContext(m, cfg, req) && cache == StartCache(req) && initialMask == View().mask
    {
      var b, prefix := |req.ids|, UsedPrefix(req);
      var masks := None;
      if prefix.Some? {
        masks := if prefix.value.mask.Some? then prefix.value.mask else Some(AllOnes(b, |prefix.value.cache|));
      }
      var mask := if prefix.Some? && req.mask.None? then Some(AllOnes(b, req.n)) else req.mask;
      sequences, length := req.ids, req.n;
      prefixMask, prefixLen := masks, |StartCache(req)|;
      currentMask, initialMask := mask, mask;
      promptLengths := seq(b, i requires 0 <= i < b => Count(OrOnes(RowMask(mask, i), req.n)));
      prefixValidLengths := seq(b, i requires 0 <= i < b => if masks.Some? then Count(masks.value[i]) else 0);
      generatedCounts := seq(b, _ => 0);
      unfinished := seq(b, _ => true);
      cache := StartCache(req);
    }

    /** Append a token to every row and advance its counts, mask and status. */
    method AppendNextToken<L>(cfg: Config<L>, next: seq<Token>) returns (tokens: seq<Token>)
      requires View().Shaped() && |next| == |sequences|
      modifies `sequences, `length, `generatedCounts, `currentMask, `unfinished
      ensures View() == Appended(cfg, old(View()), next)
      ensures tokens == Emitted(cfg, old(View()), next)
    {
      tokens := next;
      if cfg.eos.Some? {
        tokens := seq(|next|, b requires 0 <= b < |next| reads this`unfinished requires |unfinished| == |next| =>
          if unfinished[b] then next[b] else cfg.pad);
      }
      sequences := WithColumn(sequences, tokens);
      length := length + 1;
      generatedCounts := CountUnfinished(generatedCounts, unfinished);
      if currentMask.Some? {
        currentMask := Some(WithColumn(currentMask.value, Ones(|next|)));
      }
      if cfg.eos.Some? {
        unfinished := StillUnfinished(unfinished, tokens, cfg.eos.value);
      }
      ghost var after := Appended(cfg, old(View()), next);
      assert View().sequences == after.sequences && View().counts == after.counts;
      assert currentMask.Some? ==> currentMask.value == after.mask.value;
      assert View().unfinished == after.unfinished;
    }
  }

  function WithColumn<T>(rows: Rows<T>, column: seq<T>): Rows<T>
    requires |rows| == |column|
  {
    seq(|rows|, b requires 0 <= b < |rows| => rows[b] + [column[b]])
  }

  function CountUnfinished(counts: seq<nat>, unfinished: seq<bool>): seq<nat>
    requires |counts| == |unfinished|
  {
    seq(|counts|, b requires 0 <= b < |counts| => counts[b] + (if unfinished[b] then 1 else 0))
  }

  function StillUnfinished(unfinished: seq<bool>, tokens: seq<Token>, eos: Token): seq<bool>
    requires |unfinished| == |tokens|
  {
    seq(|tokens|, b requires 0 <= b < |tokens| => unfinished[b] && tokens[b] != eos)
  }

  /** Generate token ids from a causal language model. */
  method GenerateTokens<E(0), L>(m: Model<E, L>, cfg: Config<L>, req: Request<E>)
    returns (r: Result<Rows<Token>, GenerateError>)
    requires Rectangular(req.ids, |req.ids|, req.n)
    ensures r == GeneratedRows(m, cfg, req)
  {
    var error := InputError(req);
    if error.Some? {
      return Err(error.value);
    }
    if cfg.maxNewTokens == 0 {
      var lengths := seq(|req.ids|, b requires 0 <= b < |req.ids| => Count(OrOnes(RowMask(req.mask, b), req.n)));
      var prompts := FinalRows.FinalizeSequences(req.ids, req.mask, lengths, cfg.pad);
      return Ok(prompts);
    }
    error := PrefixError(m, cfg, req);
    if error.Some? {
      return Err(error.value);
    }
    if req.n == 0 {
      return Err(EmptyPrompt);
    }
    var context := new Context<E>.Prepare(m, cfg, req);
    Decode(m, cfg, req, context);
    var totals := seq(|context.sequences|, b requires 0 <= b < |context.sequences| reads context
                        requires |context.promptLengths| == |context.generatedCounts| == |context.sequences| =>
                        context.promptLengths[b] + context.generatedCounts[b]);
    assert totals == Totals(context.View());
    var output := FinalRows.FinalizeSequences(context.sequences, context.initialMask, totals, cfg.pad);
    r := Ok(output);
  }

  /** One decode step from the cache, which it updates, or over everything again. */
  method DecodeStep<E(0), L>(m: Model<E, L>, context: Context<E>, tokens: seq<Token>, cached: bool)
    returns (logits: seq<L>)
    requires context.View().Shaped() && |tokens| == |context.sequences|
    requires CacheFits(context.View(), context.cache, cached, context.length - 1)
    modifies context`cache
    ensures logits == Decoded(m, context.View(), tokens, old(context.cache), cached).logits
    ensures context.cache == if cached then Decoded(m, context.View(), tokens, old(context.cache), cached).cache
                             else old(context.cache)
  {
    var out := Decoded(m, context.View(), tokens, context.cache, cached);
    if cached {
      context.cache := out.cache;
    }
    logits := out.logits;
  }

  /** One iteration: sample, append, and decode unless that was the last one. */
  method Iterate<E(0), L>(m: Model<E, L>, cfg: Config<L>, context: Context<E>, logits: seq<L>, cached: bool, step: nat)
    returns (finished: bool, next: seq<L>)
    requires Loop(context.View(), context.cache, logits).Fits(cached)
    modifies context
    ensures context.initialMask == old(context.initialMask)
    ensures var loop := old(Loop(context.View(), context.cache, logits));
            && finished == ShouldFinish(cfg, Sequel(cfg, loop), step)
            && if finished then context.View() == Sequel(cfg, loop)
               else Loop(context.View(), context.cache, next) == Iterated(m, cfg, cached, loop)
  {
    var tokens := context.AppendNextToken(cfg, Sampled(cfg, context.View(), logits));
    finished, next := ShouldFinish(cfg, context.View(), step), logits;
    if !finished {
      next := DecodeStep(m, context, tokens, cached);
    }
  }

  lemma RunStep<E, L>(m: Model<E, L>, cfg: Config<L>, cached: bool, loop: Loop<E, L>, step: nat)
    requires loop.Fits(cached) && step < cfg.maxNewTokens
    ensures GenerationLoop.Run(m, cfg, cached, loop, step) ==
            if ShouldFinish(cfg, Sequel(cfg, loop), step) then Sequel(cfg, loop)
            else GenerationLoop.Run(m, cfg, cached, Iterated(m, cfg, cached, loop), step + 1)
  {
  }

  /** Prefill, then one token at a time until every row is finished or the limit is reached. */
  method Decode<E(0), L>(m: Model<E, L>, cfg: Config<L>, req: Request<E>, context: Context<E>)
    requires Accepted(m, cfg, req) && cfg.maxNewTokens > 0
    requires context.View() == StartContext(m, cfg, req) && context.cache == StartCache(req)
    modifies context
    ensures context.View() == GenerationLoop.Run(m, cfg, UsesCache(m, cfg), Start(m, cfg, req), 0)
    ensures context.initialMask == old(context.initialMask)
  {
    var prefill := Prefilled(m, context.View(), context.cache);
    context.cache := prefill.cache;
    DecodeLoop(m, cfg, context, prefill.logits, UsesCache(m, cfg), Start(m, cfg, req));
  }

  method DecodeLoop<E(0), L>(m: Model<E, L>, cfg: Config<L>, context: Context<E>, prefilled: seq<L>, cached: bool,
                             ghost start: Loop<E, L>)
    requires start.Fits(cached) && cfg.maxNewTokens > 0
    requires start == Loop(context.View(), context.cache, prefilled)
    modifies context
    ensures context.View() == GenerationLoop.Run(m, cfg, cached, start, 0)
    ensures context.initialMask == old(context.initialMask)
  {
    var logits, finished, step := prefilled, false, 0;
    ghost var loop := start;
    while !finished
      invariant context.initialMask == old(context.initialMask)
      invariant !finished ==>
                  && step < cfg.maxNewTokens && loop.Fits(cached)
                  && loop == Loop(context.View(), context.cache, logits)
                  && GenerationLoop.Run(m, cfg, cached, loop, step) == GenerationLoop.Run(m, cfg, cached, start, 0)
      invariant finished ==> context.View() == GenerationLoop.Run(m, cfg, cached, start, 0)
      decreases !finished, cfg.maxNewTokens - step
    {
      RunStep(m, cfg, cached, loop, step);
      finished, logits := Iterate(m, cfg, context, logits, cached, step);
      if !finished {
        loop := Iterated(m, cfg, cached, loop);
        step := step + 1;
      }
    }
  }
}
