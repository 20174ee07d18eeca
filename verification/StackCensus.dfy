/** Per-kind records of a census of a whole layer stack, and the totals they give back. */
module StackCensus {
  import opened Common

  /** A group of layers of one kind, or of a multi-token-prediction head, which the census leaves out. */
  datatype Group = Group(kind: string, count: nat, mtp: bool)

  /** The kind of each decoder layer, in model order. */
  function Kinds(groups: seq<Group>): seq<string> {
    if groups == [] then []
    else
      var last := groups[|groups| - 1];
      Kinds(groups[..|groups| - 1]) + (if last.mtp then [] else seq(last.count, _ => last.kind))
  }

  /** Per token, what a layer keeps however many ranks share it, and what tensor parallelism splits. */
  datatype Record = Record(whole: real, split: real)

  /** The bytes a record prices a layer at, on a number of tensor-parallel ranks. */
  function Bytes(r: Record, seqLength: nat, tp: nat): real
    requires tp > 0
  {
    (r.whole + r.split / tp as real) * seqLength as real
  }

  function Clamp(x: real): real { if x > 0.0 then x else 0.0 }

  /** A record from what a layer of a kind keeps on the mean at TP 1 and at TP 2. */
  function RecordOf(one: real, two: real, seqLength: nat): Record
    requires seqLength > 0
  {
    Record(Clamp(2.0 * two - one) / seqLength as real, Clamp(2.0 * (one - two)) / seqLength as real)
  }

  /** Whether a difference is clamped at zero. */
  predicate Clamped(one: real, two: real) { 2.0 * two < one || one < two }

  lemma Scales(x: real, n: nat)
    requires n > 0
    ensures x / n as real * n as real == x
  {
  }

  lemma BytesOf(one: real, two: real, seqLength: nat)
    requires seqLength > 0
    ensures Bytes(RecordOf(one, two, seqLength), seqLength, 1) == Clamp(2.0 * two - one) + Clamp(2.0 * (one - two))
    ensures Bytes(RecordOf(one, two, seqLength), seqLength, 2) ==
              Clamp(2.0 * two - one) + Clamp(2.0 * (one - two)) / 2.0
  {
    var whole, split, n := Clamp(2.0 * two - one), Clamp(2.0 * (one - two)), seqLength as real;
    Scales(whole, seqLength);
    Scales(split, seqLength);
    assert (whole / n + split / n / 1.0) * n == whole / n * n + split / n * n;
    assert (whole / n + split / n / 2.0) * n == whole / n * n + split / n * n / 2.0;
  }

  /** A record gives back both means exactly when nothing is clamped, and never less than either. */
  lemma RecordGivesBack(one: real, two: real, seqLength: nat)
    requires seqLength > 0 && one >= 0.0 && two >= 0.0
    ensures var r := RecordOf(one, two, seqLength);
            && Bytes(r, seqLength, 1) >= one && Bytes(r, seqLength, 2) >= two
            && (Bytes(r, seqLength, 1) == one && Bytes(r, seqLength, 2) == two <==> !Clamped(one, two))
  {
    BytesOf(one, two, seqLength);
  }

  // ---- the sum over a stack --------------------------------------------------------------

  function Sum(values: seq<real>): real {
    if values == [] then 0.0 else Sum(values[..|values| - 1]) + values[|values| - 1]
  }

  /** The sum over the layers whose kind is in a set. */
  function SumIn(values: seq<real>, kinds: seq<string>, among: set<string>): real
    requires |values| == |kinds|
  {
    if values == [] then 0.0
    else
      var n := |values| - 1;
      SumIn(values[..n], kinds[..n], among) + (if kinds[n] in among then values[n] else 0.0)
  }

  function CountIn(kinds: seq<string>, kind: string): nat {
    if kinds == [] then 0
    else CountIn(kinds[..|kinds| - 1], kind) + (if kinds[|kinds| - 1] == kind then 1 else 0)
  }

  lemma {:induction false} SumInAll(values: seq<real>, kinds: seq<string>, among: set<string>)
    requires |values| == |kinds| && forall k | k in kinds :: k in among
    ensures SumIn(values, kinds, among) == Sum(values)
  {
    if values != [] {
      var n := |values| - 1;
      assert kinds == kinds[..n] + [kinds[n]];
      SumInAll(values[..n], kinds[..n], among);
    }
  }

  lemma {:induction false} SumInOneMore(values: seq<real>, kinds: seq<string>, among: set<string>, kind: string)
    requires |values| == |kinds| && kind !in among
    ensures SumIn(values, kinds, among + {kind}) == SumIn(values, kinds, among) + SumIn(values, kinds, {kind})
  {
    if values != [] {
      SumInOneMore(values[..|values| - 1], kinds[..|kinds| - 1], among, kind);
    }
  }

  lemma {:induction false} KindCounts(kinds: seq<string>, kind: string)
    ensures CountIn(kinds, kind) > 0 <==> kind in kinds
  {
    if kinds != [] {
      var n := |kinds| - 1;
      KindCounts(kinds[..n], kind);
      assert kinds == kinds[..n] + [kinds[n]];
    }
  }

  /** What each layer of a stack is priced at when every layer takes a value of its kind. */
  function ByKind(kinds: seq<string>, value: string -> real): (values: seq<real>)
    ensures |values| == |kinds|
  {
    seq(|kinds|, i requires 0 <= i < |kinds| => value(kinds[i]))
  }

  /** n layers of one size. */
  function Scaled(n: nat, x: real): real { n as real * x }

  lemma {:induction false} SumOfKind(kinds: seq<string>, value: string -> real, kind: string)
    ensures SumIn(ByKind(kinds, value), kinds, {kind}) == Scaled(CountIn(kinds, kind), value(kind))
  {
    if kinds != [] {
      var n := |kinds| - 1;
      SumOfKind(kinds[..n], value, kind);
      assert ByKind(kinds, value)[..n] == ByKind(kinds[..n], value);
      Times(CountIn(kinds[..n], kind), value(kind));
    }
  }

  lemma Times(n: nat, x: real)
    ensures Scaled(n + 1, x) == Scaled(n, x) + x
  {
  }

  /** Sums that compare kind by kind compare over the stack; a strict kind makes the stack strict. */
  lemma {:induction false} CompareByKind(a: seq<real>, b: seq<real>, kinds: seq<string>, among: set<string>)
    requires |a| == |b| == |kinds|
    requires forall k | k in among :: SumIn(a, kinds, {k}) >= SumIn(b, kinds, {k})
    ensures SumIn(a, kinds, among) >= SumIn(b, kinds, among)
    ensures SumIn(a, kinds, among) == SumIn(b, kinds, among) <==>
            forall k | k in among :: SumIn(a, kinds, {k}) == SumIn(b, kinds, {k})
    decreases |among|
  {
    if k :| k in among {
      var rest := among - {k};
      CompareByKind(a, b, kinds, rest);
      SumInOneMore(a, kinds, rest, k);
      SumInOneMore(b, kinds, rest, k);
      assert rest + {k} == among;
    } else {
      NothingIn(a, kinds, among);
      NothingIn(b, kinds, among);
    }
  }

  lemma {:induction false} NothingIn(values: seq<real>, kinds: seq<string>, among: set<string>)
    requires |values| == |kinds| && among == {}
    ensures SumIn(values, kinds, among) == 0.0
  {
    if values != [] {
      NothingIn(values[..|values| - 1], kinds[..|kinds| - 1], among);
    }
  }

  /** The mean of a kind's layers. */
  function Mean(values: seq<real>, kinds: seq<string>, kind: string): real
    requires |values| == |kinds|
  {
    if CountIn(kinds, kind) == 0 then 0.0 else SumIn(values, kinds, {kind}) / CountIn(kinds, kind) as real
  }

  function KindRecord(one: seq<real>, two: seq<real>, kinds: seq<string>, seqLength: nat, kind: string): Record
    requires |one| == |two| == |kinds| && seqLength > 0
  {
    RecordOf(Mean(one, kinds, kind), Mean(two, kinds, kind), seqLength)
  }

  /** What a layer of a kind is priced at. */
  function PriceOf(one: seq<real>, two: seq<real>, kinds: seq<string>, seqLength: nat, tp: nat): string -> real
    requires |one| == |two| == |kinds| && seqLength > 0 && tp > 0
  {
    kind => Bytes(KindRecord(one, two, kinds, seqLength, kind), seqLength, tp)
  }

  /** What the records price each layer of a stack at. */
  function Priced(one: seq<real>, two: seq<real>, kinds: seq<string>, seqLength: nat, tp: nat): (values: seq<real>)
    requires |one| == |two| == |kinds| && seqLength > 0 && tp > 0
    ensures |values| == |kinds|
  {
    ByKind(kinds, PriceOf(one, two, kinds, seqLength, tp))
  }

  predicate NonNegative(values: seq<real>) {
    forall i | 0 <= i < |values| :: values[i] >= 0.0
  }

  lemma {:induction false} SumInNonNegative(values: seq<real>, kinds: seq<string>, among: set<string>)
    requires |values| == |kinds| && NonNegative(values)
    ensures SumIn(values, kinds, among) >= 0.0
  {
    if values != [] {
      SumInNonNegative(values[..|values| - 1], kinds[..|kinds| - 1], among);
    }
  }

  lemma MeanScales(values: seq<real>, kinds: seq<string>, kind: string)
    requires |values| == |kinds| && NonNegative(values) && kind in kinds
    ensures CountIn(kinds, kind) > 0 && Mean(values, kinds, kind) >= 0.0
    ensures Scaled(CountIn(kinds, kind), Mean(values, kinds, kind)) == SumIn(values, kinds, {kind})
  {
    KindCounts(kinds, kind);
    SumInNonNegative(values, kinds, {kind});
    MeanOf(SumIn(values, kinds, {kind}), CountIn(kinds, kind));
  }

  lemma MeanOf(sum: real, n: nat)
    requires n > 0 && sum >= 0.0
    ensures sum / n as real >= 0.0 && Scaled(n, sum / n as real) == sum
  {
    Scales(sum, n);
  }

  lemma Monotone(n: nat, x: real, y: real)
    requires n > 0 && x >= y
    ensures Scaled(n, x) >= Scaled(n, y)
    ensures Scaled(n, x) == Scaled(n, y) <==> x == y
  {
  }

  /** One kind's layers are priced at no less than they measure, and at just that unless it is clamped. */
  lemma KindIsCovered(one: seq<real>, two: seq<real>, kinds: seq<string>, seqLength: nat, kind: string)
    requires |one| == |two| == |kinds| && seqLength > 0 && NonNegative(one) && NonNegative(two) && kind in kinds
    ensures var at1, at2 := Priced(one, two, kinds, seqLength, 1), Priced(one, two, kinds, seqLength, 2);
            && SumIn(at1, kinds, {kind}) >= SumIn(one, kinds, {kind})
            && SumIn(at2, kinds, {kind}) >= SumIn(two, kinds, {kind})
            && (SumIn(at1, kinds, {kind}) == SumIn(one, kinds, {kind})
                && SumIn(at2, kinds, {kind}) == SumIn(two, kinds, {kind}) <==>
                !Clamped(Mean(one, kinds, kind), Mean(two, kinds, kind)))
  {
    var a, b, n := Mean(one, kinds, kind), Mean(two, kinds, kind), CountIn(kinds, kind);
    var r := KindRecord(one, two, kinds, seqLength, kind);
    MeanScales(one, kinds, kind);
    MeanScales(two, kinds, kind);
    RecordGivesBack(a, b, seqLength);
    PricedKind(one, two, kinds, seqLength, kind, 1);
    PricedKind(one, two, kinds, seqLength, kind, 2);
    CoveredTimes(n, Bytes(r, seqLength, 1), a, Bytes(r, seqLength, 2), b, !Clamped(a, b));
  }

  lemma CoveredTimes(n: nat, x: real, a: real, y: real, b: real, exact: bool)
    requires n > 0 && x >= a && y >= b && (x == a && y == b <==> exact)
    ensures Scaled(n, x) >= Scaled(n, a) && Scaled(n, y) >= Scaled(n, b)
    ensures Scaled(n, x) == Scaled(n, a) && Scaled(n, y) == Scaled(n, b) <==> exact
  {
    Monotone(n, x, a);
    Monotone(n, y, b);
  }

  lemma PricedKind(one: seq<real>, two: seq<real>, kinds: seq<string>, seqLength: nat, kind: string, tp: nat)
    requires |one| == |two| == |kinds| && seqLength > 0 && tp > 0
    ensures SumIn(Priced(one, two, kinds, seqLength, tp), kinds, {kind}) ==
            Scaled(CountIn(kinds, kind), Bytes(KindRecord(one, two, kinds, seqLength, kind), seqLength, tp))
  {
    SumOfKind(kinds, PriceOf(one, two, kinds, seqLength, tp), kind);
  }

  /**
   * Over the whole stack the records give back both measured totals exactly when no kind's difference
   * is clamped, and with clamps never less, for any assignment of layers to kinds.
   */
  lemma StackTotals(one: seq<real>, two: seq<real>, kinds: seq<string>, seqLength: nat)
    requires |one| == |two| == |kinds| && seqLength > 0 && NonNegative(one) && NonNegative(two)
    ensures var at1, at2 := Sum(Priced(one, two, kinds, seqLength, 1)), Sum(Priced(one, two, kinds, seqLength, 2));
            && at1 >= Sum(one) && at2 >= Sum(two)
            && (at1 == Sum(one) && at2 == Sum(two) <==>
                forall kind | kind in kinds :: !Clamped(Mean(one, kinds, kind), Mean(two, kinds, kind)))
  {
    var at1, at2 := Priced(one, two, kinds, seqLength, 1), Priced(one, two, kinds, seqLength, 2);
    var among := set k | k in kinds;
    forall kind | kind in kinds
      ensures SumIn(at1, kinds, {kind}) >= SumIn(one, kinds, {kind})
              && SumIn(at2, kinds, {kind}) >= SumIn(two, kinds, {kind})
      ensures SumIn(at1, kinds, {kind}) == SumIn(one, kinds, {kind})
              && SumIn(at2, kinds, {kind}) == SumIn(two, kinds, {kind}) <==>
              !Clamped(Mean(one, kinds, kind), Mean(two, kinds, kind))
    {
      KindIsCovered(one, two, kinds, seqLength, kind);
    }
    CompareByKind(at1, one, kinds, among);
    CompareByKind(at2, two, kinds, among);
    SumInAll(at1, kinds, among);
    SumInAll(at2, kinds, among);
    SumInAll(one, kinds, among);
    SumInAll(two, kinds, among);
  }

  // ---- the records of a stack -------------------------------------------------------------

  datatype Activations = Activations(saved: Record, working: Record)

  /** Each kind's records from a stack measured at TP 1 and TP 2, unless it has another number of layers. */
  function StackActivations(groups: seq<Group>, kept1: seq<real>, held1: seq<real>, kept2: seq<real>, held2: seq<real>,
                            seqLength: nat): (records: Option<map<string, Activations>>)
    requires |kept1| == |held1| == |kept2| == |held2| && seqLength > 0
    ensures records.None? <==> |kept1| != |Kinds(groups)|
    ensures records.Some? ==> forall kind :: kind in records.value <==> kind in Kinds(groups)
  {
    var kinds := Kinds(groups);
    if |kept1| != |kinds| then None
    else Some(map kind | kind in kinds ::
      Activations(KindRecord(kept1, kept2, kinds, seqLength, kind), KindRecord(held1, held2, kinds, seqLength, kind)))
  }

  /** What some records price each layer's saves, or its backward's working bytes, at. */
  function PricedBy(records: map<string, Activations>, kinds: seq<string>, working: bool, seqLength: nat, tp: nat)
    : (values: seq<real>)
    requires tp > 0 && forall kind | kind in kinds :: kind in records
    ensures |values| == |kinds|
  {
    seq(|kinds|, i requires 0 <= i < |kinds| =>
      Bytes(if working then records[kinds[i]].working else records[kinds[i]].saved, seqLength, tp))
  }

  lemma RecordsAreKindRecords(groups: seq<Group>, kept1: seq<real>, held1: seq<real>, kept2: seq<real>,
                              held2: seq<real>, seqLength: nat, tp: nat)
    requires |kept1| == |held1| == |kept2| == |held2| == |Kinds(groups)| && seqLength > 0 && tp > 0
    ensures var kinds, records := Kinds(groups), StackActivations(groups, kept1, held1, kept2, held2, seqLength).value;
            && PricedBy(records, kinds, false, seqLength, tp) == Priced(kept1, kept2, kinds, seqLength, tp)
            && PricedBy(records, kinds, true, seqLength, tp) == Priced(held1, held2, kinds, seqLength, tp)
  {
  }

  /** A stack's records give back its measured saves and working bytes, at TP 1 and TP 2, as StackTotals says. */
  lemma StackRecordsGiveBack(groups: seq<Group>, kept1: seq<real>, held1: seq<real>, kept2: seq<real>, held2: seq<real>,
                             seqLength: nat, working: bool)
    requires |kept1| == |held1| == |kept2| == |held2| == |Kinds(groups)| && seqLength > 0
    requires NonNegative(kept1) && NonNegative(kept2) && NonNegative(held1) && NonNegative(held2)
    ensures var kinds, records := Kinds(groups), StackActivations(groups, kept1, held1, kept2, held2, seqLength).value;
            var one, two := if working then held1 else kept1, if working then held2 else kept2;
            var at1 := Sum(PricedBy(records, kinds, working, seqLength, 1));
            var at2 := Sum(PricedBy(records, kinds, working, seqLength, 2));
            && at1 >= Sum(one) && at2 >= Sum(two)
            && (at1 == Sum(one) && at2 == Sum(two) <==>
                forall kind | kind in kinds :: !Clamped(Mean(one, kinds, kind), Mean(two, kinds, kind)))
  {
    var kinds := Kinds(groups);
    RecordsAreKindRecords(groups, kept1, held1, kept2, held2, seqLength, 1);
    RecordsAreKindRecords(groups, kept1, held1, kept2, held2, seqLength, 2);
    StackTotals(if working then held1 else kept1, if working then held2 else kept2, kinds, seqLength);
  }
}
