/** The rows generate returns: left padding stripped, right padding added. */
module FinalRows {
  import opened Common
  import opened LanguageModel
  import opened Generation
  import opened GenerationLoop

  /** The first valid column of a mask row. */
  function FirstValid(mask: seq<bool>): (start: nat)
    requires Count(mask) > 0
    ensures start < |mask| && mask[start] && forall j | 0 <= j < start :: !mask[j]
  {
    if Count(mask[..|mask| - 1]) > 0 then FirstValid(mask[..|mask| - 1])
    else
      NoneValid(mask[..|mask| - 1]);
      |mask| - 1
  }

  lemma {:induction false} NoneValid(mask: seq<bool>)
    ensures Count(mask) == 0 <==> forall j | 0 <= j < |mask| :: !mask[j]
  {
    if mask != [] {
      NoneValid(mask[..|mask| - 1]);
      if Count(mask) == 0 {
        forall j | 0 <= j < |mask| ensures !mask[j] {
          if j < |mask| - 1 { assert !mask[..|mask| - 1][j]; }
        }
      } else if !mask[|mask| - 1] {
        var j :| 0 <= j < |mask| - 1 && mask[..|mask| - 1][j];
        assert mask[j];
      }
    }
  }

  /** A row from its first valid column on, at most total long. */
  function FinalRow(row: seq<Token>, mask: Option<seq<bool>>, total: nat): seq<Token>
    requires mask.Some? ==> |mask.value| <= |row| && Count(mask.value) > 0
  {
    var start := if mask.Some? then FirstValid(mask.value) else 0;
    row[start..Min(start + total, |row|)]
  }

  function MaxLength(rows: Rows<Token>): nat {
    if rows == [] then 0 else Max(MaxLength(rows[..|rows| - 1]), |rows[|rows| - 1]|)
  }

  function PadTo(row: seq<Token>, n: nat, pad: Token): seq<Token> {
    row + seq(Max(n - |row|, 0), _ => pad)
  }

  /** Rows as one tensor, padded on the right to the longest. */
  function RightPadded(rows: Rows<Token>, pad: Token): (out: Rows<Token>)
    ensures |out| == |rows|
  {
    seq(|rows|, b requires 0 <= b < |rows| => PadTo(rows[b], MaxLength(rows), pad))
  }

  predicate MaskRowsValid(mask: Option<Rows<bool>>, rows: nat) {
    mask.Some? ==> |mask.value| == rows && forall b | 0 <= b < rows :: Count(mask.value[b]) > 0
  }

  predicate CanFinalize(sequences: Rows<Token>, mask: Option<Rows<bool>>, totals: seq<nat>) {
    && MaskRowsValid(mask, |sequences|) && |totals| == |sequences|
    && (mask.Some? ==> forall b | 0 <= b < |sequences| :: |mask.value[b]| <= |sequences[b]|)
  }

  function FinalRows(sequences: Rows<Token>, mask: Option<Rows<bool>>, totals: seq<nat>): (rows: Rows<Token>)
    requires CanFinalize(sequences, mask, totals)
    ensures |rows| == |sequences|
  {
    seq(|sequences|, b requires 0 <= b < |sequences| => FinalRow(sequences[b], RowMask(mask, b), totals[b]))
  }

  lemma OneMoreRow(rows: Rows<Token>, row: seq<Token>)
    ensures MaxLength(rows + [row]) == Max(MaxLength(rows), |row|)
  {
    assert (rows + [row])[..|rows|] == rows;
  }

  /** Strip left padding and right-pad the rows to one length. */
  method FinalizeSequences(sequences: Rows<Token>, mask: Option<Rows<bool>>, totals: seq<nat>, pad: Token)
    returns (output: Rows<Token>)
    requires CanFinalize(sequences, mask, totals)
    ensures output == RightPadded(FinalRows(sequences, mask, totals), pad)
  {
    var rows: Rows<Token> := [];
    var maxLength := 0;
    ghost var final := FinalRows(sequences, mask, totals);
    for b := 0 to |sequences|
      invariant rows == final[..b]
      invariant maxLength == MaxLength(rows)
    {
      var start := if mask.Some? then FirstValid(mask.value[b]) else 0;
      var row := sequences[b][start..Min(start + totals[b], |sequences[b]|)];
      assert row == final[b];
      OneMoreRow(rows, row);
      rows := rows + [row];
      maxLength := Max(maxLength, |row|);
    }
    assert rows == final;
    output := PadRows(rows, maxLength, pad);
  }

  /** The padded tensor, filled row by row. */
  method PadRows(rows: Rows<Token>, maxLength: nat, pad: Token) returns (output: Rows<Token>)
    requires maxLength == MaxLength(rows)
    ensures output == RightPadded(rows, pad)
  {
    output := [];
    for b := 0 to |rows|
      invariant output == RightPadded(rows, pad)[..b]
    {
      output := output + [PadTo(rows[b], maxLength, pad)];
    }
  }

  /** No hole between valid columns. */
  predicate Contiguous(mask: seq<bool>) {
    forall i, j, k | 0 <= i < j < k < |mask| && mask[i] && mask[k] :: mask[j]
  }

  predicate LeftPadded(mask: seq<bool>) {
    forall i, j | 0 <= i < j < |mask| && mask[i] :: mask[j]
  }

  /**
   * The slice from the first valid column is a row's valid tokens, whatever the row holds, exactly
   * when its valid columns are contiguous.
   */
  lemma SliceIsValidTokensIffContiguous(mask: seq<bool>)
    requires Count(mask) > 0
    ensures (forall row: seq<Token> | |row| == |mask| :: FinalRow(row, Some(mask), Count(mask)) == Pick(row, mask))
            <==> Contiguous(mask)
  {
    if Contiguous(mask) {
      forall row: seq<Token> | |row| == |mask|
        ensures FinalRow(row, Some(mask), Count(mask)) == Pick(row, mask)
      {
        ContiguousSlice(row, mask);
      }
    } else {
      var row := seq(|mask|, i => i);
      if FinalRow(row, Some(mask), Count(mask)) == Pick(row, mask) {
        SliceHasNoHole(row, mask);
      }
    }
  }

  /** Once a token is appended, that is so exactly when the prompt was padded on the left. */
  lemma ContiguousOnceGenerated(mask: seq<bool>, k: nat)
    requires k > 0
    ensures Contiguous(mask + Ones(k)) <==> LeftPadded(mask)
  {
    var grown := mask + Ones(k);
    if Contiguous(grown) {
      forall i, j | 0 <= i < j < |mask| && mask[i] ensures mask[j] {
        assert grown[i] && grown[|mask|] ==> grown[j];
      }
    }
  }

  lemma {:induction false} LastValid(mask: seq<bool>) returns (last: nat)
    requires Count(mask) > 0
    ensures last < |mask| && mask[last] && forall j | last < j < |mask| :: !mask[j]
  {
    last := |mask| - 1;
    if !mask[last] {
      last := LastValid(mask[..last]);
    }
  }

  lemma ContiguousSlice(row: seq<Token>, mask: seq<bool>)
    requires Count(mask) > 0 && Contiguous(mask) && |row| == |mask|
    ensures FinalRow(row, Some(mask), Count(mask)) == Pick(row, mask)
  {
    var last := LastValid(mask);
    ContiguousParts(mask, FirstValid(mask), last);
    PickParts(row, mask, FirstValid(mask), last + 1);
  }

  lemma PickParts(row: seq<Token>, mask: seq<bool>, a: nat, b: nat)
    requires a <= b <= |row| == |mask|
    requires mask[..a] == seq(a, _ => false)
    requires mask[a..b] == Ones(b - a)
    requires mask[b..] == seq(|mask| - b, _ => false)
    ensures Pick(row, mask) == row[a..b] && Count(mask) == b - a
  {
    SplitInThree(row, a, b);
    SplitInThree(mask, a, b);
    PickMiddle(row[..a], row[a..b], row[b..]);
    PickCount(row, mask);
  }

  lemma SplitInThree<T>(s: seq<T>, a: nat, b: nat)
    requires a <= b <= |s|
    ensures s == s[..a] + s[a..b] + s[b..]
  {
  }

  lemma ContiguousParts(mask: seq<bool>, first: nat, last: nat)
    requires first <= last < |mask| && mask[first] && mask[last] && Contiguous(mask)
    requires (forall j | 0 <= j < first :: !mask[j]) && (forall j | last < j < |mask| :: !mask[j])
    ensures mask[..first] == seq(first, _ => false)
    ensures mask[first..last + 1] == Ones(last + 1 - first)
    ensures mask[last + 1..] == seq(|mask| - last - 1, _ => false)
  {
  }

  lemma PickMiddle(before: seq<Token>, middle: seq<Token>, after: seq<Token>)
    ensures Pick(before + middle + after,
                 seq(|before|, _ => false) + Ones(|middle|) + seq(|after|, _ => false)) == middle
  {
    PickNothing(before);
    PickNothing(after);
    PickAll(middle);
    PickAppend(before, seq(|before|, _ => false), middle, Ones(|middle|));
    PickAppend(before + middle, seq(|before|, _ => false) + Ones(|middle|), after, seq(|after|, _ => false));
  }

  /** A row of distinct tokens whose slice is its valid tokens has no hole. */
  lemma SliceHasNoHole(row: seq<Token>, mask: seq<bool>)
    requires Count(mask) > 0 && |row| == |mask| && forall i | 0 <= i < |row| :: row[i] == i
    requires FinalRow(row, Some(mask), Count(mask)) == Pick(row, mask)
    ensures Contiguous(mask)
  {
    var start, slice := FirstValid(mask), FinalRow(row, Some(mask), Count(mask));
    PickCount(row, mask);
    var end := start + Count(mask);
    forall k | start <= k < end
      ensures mask[k]
    {
      assert slice[k - start] == k && k in Pick(row, mask);
      PickedAreValid(row, mask, k);
    }
    NothingBeyond(mask, start, end);
  }

  lemma NothingBeyond(mask: seq<bool>, start: nat, end: nat)
    requires start <= end <= |mask| && Count(mask) == end - start
    requires forall k | start <= k < end :: mask[k]
    ensures forall k | end <= k < |mask| :: !mask[k]
  {
    CountThree(mask, start, end);
    CountBlock(mask[start..end]);
    assert Count(mask[end..]) == 0;
    NoneValid(mask[end..]);
    forall k | end <= k < |mask| ensures !mask[k] {
      assert mask[k] == mask[end..][k - end];
    }
  }

  lemma CountBlock(block: seq<bool>)
    requires forall k | 0 <= k < |block| :: block[k]
    ensures Count(block) == |block|
  {
    assert block == Ones(|block|);
    PickAll(block);
  }

  lemma CountThree(mask: seq<bool>, a: nat, b: nat)
    requires a <= b <= |mask|
    ensures Count(mask) == Count(mask[..a]) + Count(mask[a..b]) + Count(mask[b..])
  {
    CountSplit(mask, b);
    CountSplit(mask[..b], a);
    assert mask[..b][..a] == mask[..a] && mask[..b][a..] == mask[a..b];
  }

  lemma CountSplit(mask: seq<bool>, i: nat)
    requires i <= |mask|
    ensures Count(mask) == Count(mask[..i]) + Count(mask[i..])
  {
    CountAppend(mask[..i], mask[i..]);
    assert mask[..i] + mask[i..] == mask;
  }

  lemma {:induction false} PickedAreValid(row: seq<Token>, mask: seq<bool>, k: Token)
    requires |row| == |mask| && k in Pick(row, mask) && forall i | 0 <= i < |row| :: row[i] == i
    ensures 0 <= k < |mask| && mask[k]
  {
    var n := |row| - 1;
    if k in Pick(row[..n], mask[..n]) {
      PickedAreValid(row[..n], mask[..n], k);
    }
  }
}
