/**
 * Autoregressive generation: a padded batch, an optional prefix cache, and one token at a time
 * from a K/V cache or from a full forward pass.
 */
module Generation {
  import opened Common
  import opened LanguageModel

  /** A tensor of rows, and a K/V cache by position and then by row. */
  type Rows<T> = seq<seq<T>>
  type Cache<E> = seq<seq<E>>

  predicate Rectangular<T>(rows: Rows<T>, b: nat, n: nat) {
    |rows| == b && forall i | 0 <= i < b :: |rows[i]| == n
  }

  datatype Config<!L> = Config(
    maxNewTokens: nat,
    eos: Option<Token>,
    pad: Token,
    useCache: bool,
    sample: (L, seq<Token>) -> Token)     // a row's next token from its logits and its sequence so far

  /** A reusable prefix: its cache and which of its keys are valid, all of them if not said. */
  datatype Prefix<E> = Prefix(cache: Cache<E>, mask: Option<Rows<bool>>)

  datatype GenerateError = BadMaskShape | EmptyMaskRow | EmptyPrompt
    | PrefixNeedsCache | PrefixMismatch | CacheNotReturned

  // ---- masks and positions of one row ---------------------------------------------

  function CausalMask(n: nat, mask: Option<seq<bool>>): seq<seq<bool>>
    requires mask.Some? ==> |mask.value| == n
  {
    seq(n, i requires 0 <= i < n =>
      seq(n, j requires 0 <= j < n =>
        if mask.Some? && !mask.value[i] then true else j <= i && (mask.Some? ==> mask.value[j])))
  }

  function PrefillMask(n: nat, mask: Option<seq<bool>>, prefix: Option<seq<bool>>): seq<seq<bool>>
    requires mask.Some? ==> |mask.value| == n
  {
    if prefix.None? then CausalMask(n, mask)
    else
      var cur := OrOnes(mask, n);
      var p := |prefix.value|;
      seq(n, i requires 0 <= i < n =>
        seq(p + n, k requires 0 <= k < p + n =>
          if !cur[i] then true
          else if k < p then prefix.value[k]
          else k - p <= i && cur[k - p]))
  }

  function OrOnes(mask: Option<seq<bool>>, n: nat): (row: seq<bool>)
    requires mask.Some? ==> |mask.value| == n
    ensures |row| == n
  {
    if mask.Some? then mask.value else Ones(n)
  }

  function OrNone(prefix: Option<seq<bool>>): seq<bool> {
    if prefix.Some? then prefix.value else []
  }

  function PositionIds(n: nat, mask: Option<seq<bool>>): seq<int>
    requires mask.Some? ==> |mask.value| == n
  {
    seq(n, i requires 0 <= i < n => if mask.None? then i else Max(Count(mask.value[..i + 1]) - 1, 0))
  }

  function PrefillPositions(n: nat, mask: Option<seq<bool>>, prefix: Option<seq<bool>>): seq<int>
    requires mask.Some? ==> |mask.value| == n
  {
    seq(n, i requires 0 <= i < n =>
      PositionIds(n, mask)[i] + (if prefix.Some? then Count(prefix.value) else 0))
  }

  function PrefillInput(tokens: seq<Token>, mask: Option<seq<bool>>, prefix: Option<seq<bool>>): RowInput
    requires mask.Some? ==> |mask.value| == |tokens|
  {
    RowInput(tokens, PrefillPositions(|tokens|, mask, prefix), PrefillMask(|tokens|, mask, prefix))
  }

  /** One new token after keys that are cached; without a mask every key is seen. */
  function DecodeInput(token: Token, position: int, mask: Option<seq<bool>>, keys: nat): RowInput {
    RowInput([token], [position], [if mask.Some? then mask.value else Ones(keys + 1)])
  }

  lemma PrefillQuery(tokens: seq<Token>, mask: Option<seq<bool>>, prefix: Option<seq<bool>>, i: nat)
    requires (mask.Some? ==> |mask.value| == |tokens|) && i < |tokens| && OrOnes(mask, |tokens|)[i]
    ensures var input := PrefillInput(tokens, mask, prefix);
            var p := |OrNone(prefix)|;
            SeesItsPast(input.sees[i], p + i)
            && input.sees[i][..p + i] == OrNone(prefix) + OrOnes(mask, |tokens|)[..i]
  {
  }

  lemma PrefillPosition(tokens: seq<Token>, mask: Option<seq<bool>>, prefix: Option<seq<bool>>, i: nat)
    requires (mask.Some? ==> |mask.value| == |tokens|) && i < |tokens| && OrOnes(mask, |tokens|)[i]
    ensures PrefillInput(tokens, mask, prefix).positions[i] ==
            Count(OrNone(prefix)) + Count(OrOnes(mask, |tokens|)[..i])
  {
    assert PrefillInput(tokens, mask, prefix).positions[i] ==
           Count(OrNone(prefix)) + PositionIds(|tokens|, mask)[i] by {
      assert Count([]) == 0;
    }
    PositionCountsValid(|tokens|, mask, i);
  }

  /** A valid token's position is the number of valid tokens before it. */
  lemma PositionCountsValid(n: nat, mask: Option<seq<bool>>, i: nat)
    requires (mask.Some? ==> |mask.value| == n) && i < n && OrOnes(mask, n)[i]
    ensures PositionIds(n, mask)[i] == Count(OrOnes(mask, n)[..i])
  {
    if mask.Some? {
      CountPositive(mask.value, i);
      assert PositionIds(n, mask)[i] == Max(Count(mask.value[..i + 1]) - 1, 0);
    } else {
      assert Ones(n)[..i] == Ones(i);
      PickAll(Ones(i));
    }
  }

  /** What the mask and position builders give a row is causal sight of its valid keys. */
  lemma PrefillInputIsCausal(tokens: seq<Token>, mask: Option<seq<bool>>, prefix: Option<seq<bool>>)
    requires (mask.Some? ==> |mask.value| == |tokens|) && tokens != []
    ensures CausalInput(PrefillInput(tokens, mask, prefix), OrNone(prefix), OrOnes(mask, |tokens|),
                        Count(OrNone(prefix)))
  {
    var input, cur := PrefillInput(tokens, mask, prefix), OrOnes(mask, |tokens|);
    forall i {:trigger CausalQuery(input, OrNone(prefix), cur, Count(OrNone(prefix)), i)} | 0 <= i < |cur| && cur[i]
      ensures CausalQuery(input, OrNone(prefix), cur, Count(OrNone(prefix)), i)
    {
      PrefillQuery(tokens, mask, prefix, i);
      PrefillPosition(tokens, mask, prefix, i);
    }
  }

  lemma DecodeInputIsCausal(token: Token, position: nat, mask: Option<seq<bool>>, keyMask: seq<bool>)
    requires (mask.Some? ==> |mask.value| == |keyMask| + 1) && OrOnes(mask, |keyMask| + 1) == keyMask + [true]
    ensures CausalInput(DecodeInput(token, position, mask, |keyMask|), keyMask, [true], position)
  {
    var input := DecodeInput(token, position, mask, |keyMask|);
    assert input.sees[0] == keyMask + [true];
    assert input.sees[0][..|keyMask|] == keyMask + [true][..0];
    assert CausalQuery(input, keyMask, [true], position, 0);
  }

  // ---- one row's prefill and decode steps ---------------------------------------------

  /** A prefill pass gives a row the logits and the entries of its prefix and prompt without padding. */
  lemma PrefillRow<E, L>(m: Model<E, L>, past: seq<E>, prefix: Option<seq<bool>>, history: seq<Token>,
                         tokens: seq<Token>, mask: Option<seq<bool>>)
    requires (mask.Some? ==> |mask.value| == |tokens|) && tokens != [] && OrOnes(mask, |tokens|)[|tokens| - 1]
    requires |past| == |OrNone(prefix)| && Pick(past, OrNone(prefix)) == Entries(m, history)
    ensures var input := PrefillInput(tokens, mask, prefix);
            var known := history + Pick(tokens, OrOnes(mask, |tokens|));
            && input.Valid(|past|) && known != []
            && LastLogits(m, past, input) == NextLogits(m, known)
            && Pick(Keys(m, past, input, |tokens|), OrNone(prefix) + OrOnes(mask, |tokens|)) == Entries(m, known)
  {
    var input, cur := PrefillInput(tokens, mask, prefix), OrOnes(mask, |tokens|);
    PickCount(past, OrNone(prefix));
    PrefillInputIsCausal(tokens, mask, prefix);
    KeysAreTheHistorys(m, past, input, OrNone(prefix), cur, history, |tokens|);
    LastLogitsAreTheHistorys(m, past, input, OrNone(prefix), cur, history, history + Pick(tokens, cur));
    assert cur[..|tokens|] == cur && input.tokens[..|tokens|] == tokens;
  }

  /** A cached decode step gives a row the logits and the entries of its history and the new token. */
  lemma DecodeRow<E, L>(m: Model<E, L>, past: seq<E>, keyMask: seq<bool>, history: seq<Token>,
                        token: Token, mask: Option<seq<bool>>)
    requires |past| == |keyMask| && Pick(past, keyMask) == Entries(m, history)
    requires (mask.Some? ==> |mask.value| == |past| + 1) && OrOnes(mask, |past| + 1) == keyMask + [true]
    ensures var input := DecodeInput(token, |history|, mask, |past|);
            && input.Valid(|past|)
            && LastLogits(m, past, input) == NextLogits(m, history + [token])
            && Pick(Keys(m, past, input, 1), keyMask + [true]) == Entries(m, history + [token])
  {
    var input := DecodeInput(token, |history|, mask, |past|);
    DecodeInputIsCausal(token, |history|, mask, keyMask);
    OneToken(token);
    KeysAreTheHistorys(m, past, input, keyMask, [true], history, 1);
    LastLogitsAreTheHistorys(m, past, input, keyMask, [true], history, history + [token]);
  }

  lemma OneToken(token: Token)
    ensures Pick([token], [true]) == [token] == Pick([token][..1], [true][..1])
    ensures [true][..1] == [true]
  {
  }
}
