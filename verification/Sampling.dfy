/** Greedy sampling with a repetition penalty, over logits as numbers. */
module Sampling {
  import opened Common
  import opened LanguageModel
  import opened Generation
  import opened GenerationLoop

  /** Logits with every seen token's pushed down (up, for a penalty below one). */
  function Penalized(logits: seq<real>, seen: seq<Token>, penalty: real): (adjusted: seq<real>)
    requires penalty > 0.0
    ensures |adjusted| == |logits|
  {
    seq(|logits|, i requires 0 <= i < |logits| =>
      if penalty == 1.0 || i !in seen then logits[i]
      else if logits[i] < 0.0 then logits[i] * penalty
      else logits[i] / penalty)
  }

  /** The first index of the largest value. */
  function ArgMax(values: seq<real>): (best: nat)
    requires values != []
    ensures best < |values| && forall i | 0 <= i < |values| :: values[i] <= values[best]
    ensures forall i | 0 <= i < best :: values[i] < values[best]
  {
    if |values| == 1 then 0
    else
      var before := ArgMax(values[..|values| - 1]);
      if values[|values| - 1] > values[before] then |values| - 1 else before
  }

  function Greedy(logits: seq<real>, row: seq<Token>, penalty: real): Token
    requires penalty > 0.0
  {
    if logits == [] then 0 else ArgMax(Penalized(logits, row, penalty))
  }

  /** A configuration that samples greedily. */
  function GreedyConfig(maxNewTokens: nat, eos: Option<Token>, pad: Token, useCache: bool, penalty: real)
    : Config<seq<real>>
    requires penalty > 0.0
  {
    Config(maxNewTokens, eos, pad, useCache, (logits, row) => Greedy(logits, row, penalty))
  }

  /**
   * The penalty counts padding as seen.  Greedy sampling does not depend on what stands left of a
   * row exactly when the penalty is off or nothing there is the id of a token.
   */
  lemma GreedyIsPaddingBlindIff(cfg: Config<seq<real>>, penalty: real, left: seq<Token>)
    requires penalty > 0.0
    requires cfg == GreedyConfig(cfg.maxNewTokens, cfg.eos, cfg.pad, cfg.useCache, penalty)
    ensures PaddingBlind(cfg, left) <==> penalty == 1.0 || forall t | t in left :: t < 0
  {
    if penalty != 1.0 && exists t :: t in left && t >= 0 {
      var t :| t in left && t >= 0;
      var logits, q := PenaltyWitness(left, penalty, t);
      assert cfg.sample(logits, left + [q]) != cfg.sample(logits, [q]);
    } else {
      forall logits: seq<real>, row: seq<Token>
        ensures cfg.sample(logits, left + row) == cfg.sample(logits, row)
      {
        assert Penalized(logits, left + row, penalty) == Penalized(logits, row, penalty);
      }
    }
  }

  /** Logits, and a row of one token, whose best token changes when t counts as seen. */
  lemma PenaltyWitness(left: seq<Token>, penalty: real, t: nat) returns (logits: seq<real>, q: nat)
    requires penalty > 0.0 && penalty != 1.0 && t in left
    ensures Greedy(logits, left + [q], penalty) != Greedy(logits, [q], penalty)
  {
    var rival: nat :| rival !in left && rival > t by { Unseen(left, t); }
    var middle := (1.0 + penalty) / 2.0;
    q := rival + 1;
    logits := seq(q + 1, i => if i == t then penalty else if i == rival then middle else 0.0);
    Quotients(penalty);
    PenaltyMoves(Penalized(logits, left + [q], penalty), t, rival, 1.0, middle);
    PenaltyMoves(Penalized(logits, [q], penalty), t, rival, penalty, middle);
  }

  lemma Quotients(penalty: real)
    requires penalty > 0.0
    ensures penalty / penalty == 1.0 && 0.0 / penalty == 0.0
  {
  }

  lemma PenaltyMoves(values: seq<real>, t: nat, rival: nat, best: real, middle: real)
    requires t < rival < |values| && best > 0.0 && middle > 0.0 && best != middle
    requires values[t] == best && values[rival] == middle
    requires forall i | 0 <= i < |values| && i != t && i != rival :: values[i] == 0.0
    ensures ArgMax(values) == if best > middle then t else rival
  {
  }

  lemma {:induction false} Unseen(left: seq<Token>, t: nat)
    ensures exists rival: nat :: rival !in left && rival > t
  {
    var bound := Above(left, t);
    assert bound !in left && bound > t;
  }

  lemma {:induction false} Above(left: seq<Token>, t: nat) returns (bound: nat)
    ensures bound > t && forall x | x in left :: x < bound
  {
    bound := t + 1;
    if left != [] {
      bound := Above(left[1..], t);
      if left[0] >= bound { bound := left[0] + 1; }
      assert left == [left[0]] + left[1..];
    }
  }
}
