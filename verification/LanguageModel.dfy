/**
 * An abstract causal language model with a K/V cache.
 *
 * What a query computes is an uninterpreted function of the cache entries it may see, its token
 * and its position.  A query that sees more than its past, as a padding query does, computes
 * something arbitrary.
 */
module LanguageModel {
  import opened Common

  type Token = int

  datatype Model<!E, !L> = Model(
    entry: (seq<E>, Token, int) -> E,             // the entry a token adds, given those it sees
    logits: (seq<E>, Token, int) -> L,            // its next-token logits
    strayEntry: (seq<E>, seq<Token>, nat) -> E,   // the entry of a query that does not see exactly its past
    strayLogits: (seq<E>, seq<Token>, nat) -> L,
    returnsCache: bool)                           // whether forward returns past_key_values when asked to

  // ---- masks ----------------------------------------------------------------------

  /** The elements a mask keeps, in order. */
  function Pick<T>(s: seq<T>, mask: seq<bool>): seq<T>
    requires |s| == |mask|
  {
    if s == [] then []
    else
      var n := |s| - 1;
      Pick(s[..n], mask[..n]) + (if mask[n] then [s[n]] else [])
  }

  function Count(mask: seq<bool>): nat {
    if mask == [] then 0 else Count(mask[..|mask| - 1]) + (if mask[|mask| - 1] then 1 else 0)
  }

  function Ones(n: nat): (mask: seq<bool>)
    ensures |mask| == n
  {
    seq(n, _ => true)
  }

  lemma {:induction false} PickCount<T>(s: seq<T>, mask: seq<bool>)
    requires |s| == |mask|
    ensures |Pick(s, mask)| == Count(mask)
  {
    if s != [] { PickCount(s[..|s| - 1], mask[..|s| - 1]); }
  }

  lemma {:induction false} PickAppend<T>(s: seq<T>, mask: seq<bool>, t: seq<T>, more: seq<bool>)
    requires |s| == |mask| && |t| == |more|
    ensures Pick(s + t, mask + more) == Pick(s, mask) + Pick(t, more)
  {
    if t == [] {
      assert s + t == s && mask + more == mask;
    } else {
      var n := |t| - 1;
      PickAppend(s, mask, t[..n], more[..n]);
      assert (s + t)[..|s + t| - 1] == s + t[..n];
      assert (mask + more)[..|s + t| - 1] == mask + more[..n];
    }
  }

  lemma {:induction false} PickAll<T>(s: seq<T>)
    ensures Pick(s, Ones(|s|)) == s && Count(Ones(|s|)) == |s|
  {
    if s != [] {
      var n := |s| - 1;
      PickAll(s[..n]);
      assert Ones(|s|)[..n] == Ones(n);
    }
  }

  lemma {:induction false} CountAppend(mask: seq<bool>, more: seq<bool>)
    ensures Count(mask + more) == Count(mask) + Count(more)
  {
    PickCount(mask, mask);
    PickCount(more, more);
    PickCount(mask + more, mask + more);
    PickAppend(mask, mask, more, more);
  }

  lemma {:induction false} CountPositive(mask: seq<bool>, i: nat)
    requires i < |mask| && mask[i]
    ensures Count(mask) >= 1 && Count(mask[..i + 1]) == Count(mask[..i]) + 1
  {
    assert mask[..i + 1][..i] == mask[..i];
    assert mask == mask[..i + 1] + mask[i + 1..];
    CountAppend(mask[..i + 1], mask[i + 1..]);
  }

  lemma PickStep<T>(s: seq<T>, mask: seq<bool>, i: nat)
    requires i < |s| == |mask|
    ensures Pick(s[..i + 1], mask[..i + 1]) == Pick(s[..i], mask[..i]) + (if mask[i] then [s[i]] else [])
  {
    assert s[..i + 1][..i] == s[..i] && mask[..i + 1][..i] == mask[..i];
  }

  lemma Associate<T>(a: seq<T>, b: seq<T>, c: seq<T>)
    ensures a + b + c == a + (b + c)
  {
  }

  // ---- one row's forward pass ---------------------------------------------------------

  /** Whether a query sees itself and nothing after itself. */
  predicate SeesItsPast(sees: seq<bool>, own: nat) {
    own < |sees| && sees[own] && forall k | own < k < |sees| :: !sees[k]
  }

  /** What a forward pass over one row takes: its new tokens, their positions, and what each sees. */
  datatype RowInput = RowInput(tokens: seq<Token>, positions: seq<int>, sees: seq<seq<bool>>) {
    predicate Valid(past: nat) {
      && |tokens| == |positions| == |sees| > 0
      && forall i | 0 <= i < |sees| :: |sees[i]| == past + |tokens|
    }
  }

  /** The row's cache after the first n new tokens. */
  function Keys<E, L>(m: Model<E, L>, past: seq<E>, input: RowInput, n: nat): (keys: seq<E>)
    requires input.Valid(|past|) && n <= |input.tokens|
    ensures |keys| == |past| + n
  {
    if n == 0 then past
    else
      var before := Keys(m, past, input, n - 1);
      var own := |past| + n - 1;
      var seen := input.sees[n - 1];
      before + [if SeesItsPast(seen, own)
                then m.entry(Pick(before, seen[..own]), input.tokens[n - 1], input.positions[n - 1])
                else m.strayEntry(past, input.tokens, n - 1)]
  }

  /** The logits of the row's last query. */
  function LastLogits<E, L>(m: Model<E, L>, past: seq<E>, input: RowInput): L
    requires input.Valid(|past|)
  {
    var n := |input.tokens| - 1;
    var own := |past| + n;
    if SeesItsPast(input.sees[n], own)
    then m.logits(Pick(Keys(m, past, input, n), input.sees[n][..own]), input.tokens[n], input.positions[n])
    else m.strayLogits(past, input.tokens, n)
  }

  // ---- the reference: a history without padding, seen token by token ----------------------

  function Entries<E, L>(m: Model<E, L>, history: seq<Token>): (entries: seq<E>)
    ensures |entries| == |history|
  {
    if history == [] then []
    else
      var n := |history| - 1;
      var before := Entries(m, history[..n]);
      before + [m.entry(before, history[n], n)]
  }

  function NextLogits<E, L>(m: Model<E, L>, history: seq<Token>): L
    requires history != []
  {
    var n := |history| - 1;
    m.logits(Entries(m, history[..n]), history[n], n)
  }

  lemma EntriesStep<E, L>(m: Model<E, L>, history: seq<Token>, token: Token)
    ensures Entries(m, history + [token]) == Entries(m, history) + [m.entry(Entries(m, history), token, |history|)]
    ensures NextLogits(m, history + [token]) == m.logits(Entries(m, history), token, |history|)
  {
    assert (history + [token])[..|history|] == history;
  }

  /** Query i sees the valid keys before it and itself, at the count of the valid tokens before it. */
  ghost predicate CausalQuery(input: RowInput, prefix: seq<bool>, cur: seq<bool>, before: nat, i: nat)
    requires input.Valid(|prefix|) && i < |input.tokens| == |cur|
  {
    && SeesItsPast(input.sees[i], |prefix| + i)
    && input.sees[i][..|prefix| + i] == prefix + cur[..i]
    && input.positions[i] == before + Count(cur[..i])
  }

  /** A row's input over a mask of valid keys; nothing is said of what its padding queries see. */
  ghost predicate CausalInput(input: RowInput, prefix: seq<bool>, cur: seq<bool>, before: nat) {
    && input.Valid(|prefix|) && |input.tokens| == |cur|
    && forall i {:trigger CausalQuery(input, prefix, cur, before, i)} | 0 <= i < |cur| && cur[i] ::
         CausalQuery(input, prefix, cur, before, i)
  }

  /**
   * Whatever padding a row holds and wherever it is, the entries its valid keys have are those of
   * the history without padding.
   */
  lemma {:induction false} KeysAreTheHistorys<E, L>(m: Model<E, L>, past: seq<E>, input: RowInput,
                                                     prefix: seq<bool>, cur: seq<bool>, history: seq<Token>, n: nat)
    requires |past| == |prefix| && CausalInput(input, prefix, cur, |history|) && n <= |cur|
    requires Pick(past, prefix) == Entries(m, history)
    ensures Pick(Keys(m, past, input, n), prefix + cur[..n]) ==
            Entries(m, history + Pick(input.tokens[..n], cur[..n]))
  {
    if n == 0 {
      assert prefix + cur[..0] == prefix;
      assert history + Pick(input.tokens[..0], cur[..0]) == history;
    } else {
      KeysAreTheHistorys(m, past, input, prefix, cur, history, n - 1);
      NextKey(m, past, input, prefix, cur, history, n - 1);
    }
  }

  /** One more key: a valid token's extends the history, a padding token's is not picked. */
  lemma NextKey<E, L>(m: Model<E, L>, past: seq<E>, input: RowInput, prefix: seq<bool>, cur: seq<bool>,
                      history: seq<Token>, i: nat)
    requires |past| == |prefix| && CausalInput(input, prefix, cur, |history|) && i < |cur|
    requires Pick(Keys(m, past, input, i), prefix + cur[..i]) ==
             Entries(m, history + Pick(input.tokens[..i], cur[..i]))
    ensures Pick(Keys(m, past, input, i + 1), prefix + cur[..i + 1]) ==
            Entries(m, history + Pick(input.tokens[..i + 1], cur[..i + 1]))
  {
    var valid := Pick(input.tokens[..i], cur[..i]);
    if cur[i] {
      var key := Keys(m, past, input, i + 1)[|past| + i];
      ValidKeyStep(m, past, input, prefix, cur, history, i);
      assert Pick(Keys(m, past, input, i + 1), prefix + cur[..i + 1]) ==
             Pick(Keys(m, past, input, i), prefix + cur[..i]) + [key] by {
        KeysStep(m, past, input, prefix, cur, i);
      }
    } else {
      assert Pick(input.tokens[..i + 1], cur[..i + 1]) == valid by {
        PickStep(input.tokens, cur, i);
        assert valid + [] == valid;
      }
      assert Pick(Keys(m, past, input, i + 1), prefix + cur[..i + 1]) ==
             Pick(Keys(m, past, input, i), prefix + cur[..i]) by {
        KeysStep(m, past, input, prefix, cur, i);
        var keys := Pick(Keys(m, past, input, i), prefix + cur[..i]);
        assert keys + [] == keys;
      }
    }
  }

  /** A valid token's key extends the history's entries by the one the history gives it. */
  lemma ValidKeyStep<E, L>(m: Model<E, L>, past: seq<E>, input: RowInput, prefix: seq<bool>, cur: seq<bool>,
                           history: seq<Token>, i: nat)
    requires |past| == |prefix| && CausalInput(input, prefix, cur, |history|) && i < |cur| && cur[i]
    requires Pick(Keys(m, past, input, i), prefix + cur[..i]) ==
             Entries(m, history + Pick(input.tokens[..i], cur[..i]))
    ensures Entries(m, history + Pick(input.tokens[..i + 1], cur[..i + 1])) ==
            Entries(m, history + Pick(input.tokens[..i], cur[..i])) + [Keys(m, past, input, i + 1)[|past| + i]]
  {
    CausalAt(input, prefix, cur, |history|, i, |past|);
    KeyOfQuery(m, past, input, prefix + cur[..i], i);
    LongerHistory(input.tokens, cur, history, i);
    Extend(m, Pick(Keys(m, past, input, i), prefix + cur[..i]), history + Pick(input.tokens[..i], cur[..i]),
           input.tokens[i], history + Pick(input.tokens[..i + 1], cur[..i + 1]));
  }

  /** One more token of a history, from the entries seen before it. */
  lemma Extend<E, L>(m: Model<E, L>, entries: seq<E>, known: seq<Token>, token: Token, longer: seq<Token>)
    requires entries == Entries(m, known) && longer == known + [token]
    ensures Entries(m, longer) == entries + [m.entry(entries, token, |known|)]
    ensures NextLogits(m, longer) == m.logits(entries, token, |known|)
  {
    EntriesStep(m, known, token);
  }

  lemma LongerHistory(tokens: seq<Token>, cur: seq<bool>, history: seq<Token>, i: nat)
    requires i < |tokens| == |cur| && cur[i]
    ensures history + Pick(tokens[..i + 1], cur[..i + 1]) == history + Pick(tokens[..i], cur[..i]) + [tokens[i]]
    ensures |history + Pick(tokens[..i], cur[..i])| == |history| + Count(cur[..i])
  {
    PickStep(tokens, cur, i);
    PickCount(tokens[..i], cur[..i]);
    Associate(history, Pick(tokens[..i], cur[..i]), [tokens[i]]);
  }

  lemma KeyOfQuery<E, L>(m: Model<E, L>, past: seq<E>, input: RowInput, seen: seq<bool>, i: nat)
    requires input.Valid(|past|) && i < |input.tokens| && |seen| == |past| + i
    requires SeesItsPast(input.sees[i], |past| + i) && input.sees[i][..|past| + i] == seen
    ensures Keys(m, past, input, i + 1)[|past| + i] ==
            m.entry(Pick(Keys(m, past, input, i), seen), input.tokens[i], input.positions[i])
  {
  }

  lemma KeysStep<E, L>(m: Model<E, L>, past: seq<E>, input: RowInput, prefix: seq<bool>, cur: seq<bool>, i: nat)
    requires |past| == |prefix| && |cur| == |input.tokens| && input.Valid(|past|) && i < |cur|
    ensures var keys := Keys(m, past, input, i + 1);
            Pick(keys, prefix + cur[..i + 1]) ==
            Pick(Keys(m, past, input, i), prefix + cur[..i]) + (if cur[i] then [keys[|past| + i]] else [])
  {
    var keys := Keys(m, past, input, i + 1);
    assert keys[..|past| + i] == Keys(m, past, input, i);
    assert (prefix + cur[..i + 1])[..|past| + i] == prefix + cur[..i];
  }

  /** ... and so are the last query's logits, if it is not padding. */
  lemma LastLogitsAreTheHistorys<E, L>(m: Model<E, L>, past: seq<E>, input: RowInput,
                                        prefix: seq<bool>, cur: seq<bool>, history: seq<Token>, known: seq<Token>)
    requires |past| == |prefix| && CausalInput(input, prefix, cur, |history|)
    requires Pick(past, prefix) == Entries(m, history) && cur[|cur| - 1]
    requires known == history + Pick(input.tokens, cur)
    ensures known != [] && LastLogits(m, past, input) == NextLogits(m, known)
  {
    var i := |input.tokens| - 1;
    var before := history + Pick(input.tokens[..i], cur[..i]);
    CausalAt(input, prefix, cur, |history|, i, |past|);
    KeysAreTheHistorys(m, past, input, prefix, cur, history, i);
    assert known == before + [input.tokens[i]] && |before| == input.positions[i] by {
      LongerHistory(input.tokens, cur, history, i);
      assert input.tokens[..i + 1] == input.tokens && cur[..i + 1] == cur;
    }
    LastQuery(m, past, input, prefix + cur[..i]);
    Extend(m, Pick(Keys(m, past, input, i), prefix + cur[..i]), before, input.tokens[i], known);
  }

  lemma CausalAt(input: RowInput, prefix: seq<bool>, cur: seq<bool>, before: nat, i: nat, past: nat)
    requires CausalInput(input, prefix, cur, before) && i < |cur| && cur[i] && past == |prefix|
    ensures SeesItsPast(input.sees[i], past + i) && input.sees[i][..past + i] == prefix + cur[..i]
    ensures input.positions[i] == before + Count(cur[..i])
  {
    assert CausalQuery(input, prefix, cur, before, i);
  }

  lemma LastQuery<E, L>(m: Model<E, L>, past: seq<E>, input: RowInput, seen: seq<bool>)
    requires input.Valid(|past|)
    requires var n := |input.tokens| - 1;
             && |seen| == |past| + n
             && SeesItsPast(input.sees[n], |past| + n) && input.sees[n][..|past| + n] == seen
    ensures var n := |input.tokens| - 1;
            LastLogits(m, past, input) ==
            m.logits(Pick(Keys(m, past, input, n), seen), input.tokens[n], input.positions[n])
  {
  }
}
