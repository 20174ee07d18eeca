/** The K/V containers of generation: a full cache, and one rank's shard of it. */
module KvCache {
  import opened Common
  import opened SequenceShards

  /** A 4-D tensor, seen along its sequence dimension; T is what one position holds. */
  datatype Tensor<T> = Tensor(batch: nat, heads: nat, dim: nat, slices: seq<T>) {
    predicate SameShape(other: Tensor<T>) {
      batch == other.batch && heads == other.heads && dim == other.dim && |slices| == |other.slices|
    }

    predicate SameOuterShape(other: Tensor<T>) {
      batch == other.batch && heads == other.heads && dim == other.dim
    }

    function Narrow(start: nat, length: nat): Tensor<T>
      requires start + length <= |slices|
    {
      this.(slices := slices[start..start + length])
    }

    function Cat(other: Tensor<T>): Tensor<T> {
      this.(slices := slices + other.slices)
    }
  }

  datatype Layer<T> = Layer(key: Tensor<T>, value: Tensor<T>) {
    predicate Valid() { key.SameShape(value) }

    function SeqLen(): nat { |key.slices| }
  }

  type Layers<T> = seq<Layer<T>>

  datatype CacheError =
    | PairShapeMismatch | LayerCountMismatch | CacheShapeMismatch | ShardInfoMismatch | LocalLengthMismatch
    | NarrowOutOfRange | GlobalLengthRequired | GrowthMismatch | BadGlobalLength

  predicate AllValid<T>(layers: Layers<T>) {
    forall i | 0 <= i < |layers| :: layers[i].Valid()
  }

  predicate AllOfLength<T>(layers: Layers<T>, n: int) {
    forall i | 0 <= i < |layers| :: |layers[i].key.slices| == n && |layers[i].value.slices| == n
  }

  /** Whether the layers agree on one sequence length. */
  predicate Uniform<T>(layers: Layers<T>) {
    forall i | 0 <= i < |layers| :: layers[i].SeqLen() == layers[0].SeqLen()
  }

  /** Whether the shard of the first layer's length lies within every layer. */
  predicate CutFits<T>(layers: Layers<T>, rank: nat, worldSize: nat)
    requires layers != [] && rank < worldSize
  {
    forall i | 0 <= i < |layers| :: Shard(layers[0].SeqLen(), rank, worldSize).end <= layers[i].SeqLen()
  }

  predicate Mergeable<T>(old_: Layers<T>, new_: Layers<T>) {
    && |old_| == |new_|
    && forall i | 0 <= i < |old_| ::
         old_[i].key.SameOuterShape(new_[i].key) && old_[i].value.SameOuterShape(new_[i].value)
  }

  function Merged<T>(old_: Layers<T>, new_: Layers<T>): Layers<T>
    requires |old_| == |new_|
  {
    seq(|old_|, i requires 0 <= i < |old_| =>
      Layer(old_[i].key.Cat(new_[i].key), old_[i].value.Cat(new_[i].value)))
  }

  function Narrowed<T>(layers: Layers<T>, start: nat, length: nat): Layers<T>
    requires forall i | 0 <= i < |layers| ::
               start + length <= |layers[i].key.slices| && start + length <= |layers[i].value.slices|
  {
    seq(|layers|, i requires 0 <= i < |layers| =>
      Layer(layers[i].key.Narrow(start, length), layers[i].value.Narrow(start, length)))
  }

  class KVCache<T> {
    var past: Option<Layers<T>>

    ghost predicate Valid()
      reads this
    {
      past.Some? ==> AllValid(past.value)
    }

    constructor ()
      ensures Valid() && past == None
    {
      past := None;
    }

    method Clear()
      modifies this
      ensures Valid() && past == None
    {
      past := None;
    }

    method Update(values: Option<Layers<T>>) returns (error: Option<CacheError>)
      requires Valid()
      modifies this
      ensures Valid()
      ensures error.Some? <==> values.Some? && !AllValid(values.value)
      ensures error.Some? || values.None? ==> past == old(past)
      ensures error.None? && values.Some? ==> past == if values.value == [] then None else values
    {
      if values.None? {
        return None;
      }
      if !AllValid(values.value) {
        return Some(PairShapeMismatch);
      }
      past := if values.value == [] then None else values;
      error := None;
    }

    method Merge(values: Option<Layers<T>>) returns (error: Option<CacheError>)
      requires Valid()
      modifies this
      ensures Valid()
      ensures error.None? <==>
                values.None? || (AllValid(values.value) &&
                                 (values.value == [] || old(past).None? || Mergeable(old(past).value, values.value)))
      ensures error.Some? || values.None? || values.value == [] ==> past == old(past)
      ensures error.None? && values.Some? && values.value != [] ==>
                past == if old(past).None? then values else Some(Merged(old(past).value, values.value))
    {
      if values.None? {
        return None;
      }
      var added := values.value;
      if !AllValid(added) {
        return Some(PairShapeMismatch);
      }
      if added == [] {
        return None;
      }
      if past.None? {
        past := Some(added);
        return None;
      }
      error := CannotMerge(past.value, added);
      if error.None? {
        past := Some(Merged(past.value, added));
      }
    }
  }

  function CannotMerge<T>(old_: Layers<T>, new_: Layers<T>): (error: Option<CacheError>)
    ensures error.None? <==> Mergeable(old_, new_)
  {
    if |old_| != |new_| then Some(LayerCountMismatch)
    else if Mergeable(old_, new_) then None else Some(CacheShapeMismatch)
  }

  /** A rank's shard of the cache, with the range of the sequence it is. */
  class ContextParallelKVCache<T> {
    var past: Option<Layers<T>>
    var shardInfo: ShardInfo
    const rank: nat
    const worldSize: nat

    /** The shard info is this rank's, and every stored layer is as long as it says. */
    ghost predicate Valid()
      reads this
    {
      && rank < worldSize
      && shardInfo.rank == rank && shardInfo.worldSize == worldSize
      && (past.None? ==> shardInfo == Shard(0, rank, worldSize))
      && (past.Some? ==> AllValid(past.value) && AllOfLength(past.value, shardInfo.LocalSeqLen()))
    }

    constructor (rank: nat, worldSize: nat)
      requires rank < worldSize
      ensures Valid() && past == None && this.rank == rank && this.worldSize == worldSize
    {
      this.rank := rank;
      this.worldSize := worldSize;
      past := None;
      shardInfo := Shard(0, rank, worldSize);
      new;
      assert Shard(0, rank, worldSize).rank == rank;
    }

    method Clear()
      requires rank < worldSize
      modifies this
      ensures Valid() && past == None && shardInfo == Shard(0, rank, worldSize)
    {
      past := None;
      shardInfo := Shard(0, rank, worldSize);
    }

    /** Keep this rank's slice of a full cache. */
    method UpdateFull(values: Option<Layers<T>>) returns (error: Option<CacheError>)
      requires Valid()
      modifies this
      ensures Valid()
      ensures error.Some? || values.None? ==> past == old(past) && shardInfo == old(shardInfo)
      ensures error.None? <==>
                values.None? || (AllValid(values.value) &&
                                 (values.value == [] || CutFits(values.value, rank, worldSize)))
      ensures values.Some? && AllValid(values.value) && Uniform(values.value) ==> error.None?
      ensures error.None? && values.Some? ==>
                var length := if values.value == [] then 0 else values.value[0].SeqLen();
                && shardInfo == Shard(length, rank, worldSize)
                && past.Some? && |past.value| == |values.value|
                && (Uniform(values.value) ==> forall i | 0 <= i < |past.value| ::
                      && past.value[i].key.slices == ShardOf(values.value[i].key.slices, rank, worldSize)
                      && past.value[i].value.slices == ShardOf(values.value[i].value.slices, rank, worldSize))
    {
      if values.None? {
        return None;
      }
      var layers := values.value;
      if !AllValid(layers) {
        return Some(PairShapeMismatch);
      }
      var length := if layers == [] then 0 else layers[0].SeqLen();
      var info := Shard(length, rank, worldSize);
      ShardInRange(length, rank, worldSize);
      UniformFits(layers, rank, worldSize);
      assert layers != [] ==> info == Shard(layers[0].SeqLen(), rank, worldSize);
      if exists i :: 0 <= i < |layers| && info.end > layers[i].SeqLen() {
        return Some(NarrowOutOfRange);
      }
      past := Some(Narrowed(layers, info.start, info.LocalSeqLen()));
      shardInfo := info;
      error := None;
    }

    /** Keep tensors that are already local, with the range they are. */
    method UpdateLocal(values: Option<Layers<T>>, info: ShardInfo) returns (error: Option<CacheError>)
      requires Valid()
      modifies this
      ensures Valid()
      ensures values.Some? ==>
                (error.None? <==> info.rank == rank && info.worldSize == worldSize && AllValid(values.value)
                                  && AllOfLength(values.value, info.LocalSeqLen()))
      ensures error.Some? || values.None? ==> past == old(past) && shardInfo == old(shardInfo)
      ensures error.None? && values.Some? ==> past == values && shardInfo == info
    {
      if values.None? {
        return None;
      }
      if info.rank != rank || info.worldSize != worldSize {
        return Some(ShardInfoMismatch);
      }
      if !AllValid(values.value) {
        return Some(PairShapeMismatch);
      }
      if !AllOfLength(values.value, info.LocalSeqLen()) {
        return Some(LocalLengthMismatch);
      }
      past := values;
      shardInfo := info;
      error := None;
    }

    /** The global length a merge leads to, where the call or the cache says it. */
    function MergedGlobalLen(values: Layers<T>, globalSeqLen: Option<int>): Option<int>
      reads this
    {
      if globalSeqLen.Some? then globalSeqLen
      else if past.Some? && values == [] then None
      else if past.None? && worldSize > 1 then None
      else if values == [] then Some(0)
      else Some(shardInfo.globalSeqLen + values[0].SeqLen())
    }

    /** A merge is accepted when this rank's shard of that length is as long as the old one and the first new layer. */
    predicate Accepts(values: Layers<T>, globalSeqLen: Option<int>)
      requires rank < worldSize
      reads this
    {
      var next := MergedGlobalLen(values, globalSeqLen);
      && AllValid(values) && next.Some? && next.value >= 0
      && var len := Shard(next.value, rank, worldSize).LocalSeqLen();
      && if past.None? then AllOfLength(values, len)
         else
           && len == shardInfo.LocalSeqLen() + (if values == [] then 0 else values[0].SeqLen())
           && (values == [] || Mergeable(past.value, values))
    }

    /**
     * Append local tensors and advance the shard info.  A rejected call changes nothing; an accepted
     * one keeps the stored length equal to the shard info's exactly when the new layers agree on
     * their length, since only the first layer's is checked against the growth.
     */
    method MergeLocal(values: Option<Layers<T>>, globalSeqLen: Option<int>) returns (error: Option<CacheError>)
      requires Valid()
      modifies this
      ensures error.Some? || values.None? ==> past == old(past) && shardInfo == old(shardInfo)
      ensures values.Some? ==> (error.None? <==> old(Accepts(values.value, globalSeqLen)))
      ensures error.None? && values.Some? ==> ((old(past).None? || Uniform(values.value)) <==> Valid())
      ensures error.None? && values.Some? && old(past).Some? ==>
                && (values.value != [] ==> |old(past).value| == |values.value|)
                && past == (if values.value == [] then old(past) else Some(Merged(old(past).value, values.value)))
                && var grown := if values.value == [] then 0 else values.value[0].SeqLen();
                && shardInfo.LocalSeqLen() == old(shardInfo).LocalSeqLen() + grown
                && shardInfo.globalSeqLen
                     == (if globalSeqLen.Some? then globalSeqLen.value else old(shardInfo).globalSeqLen + grown)
                && GetShardInfo(shardInfo.globalSeqLen, rank, worldSize) == Ok(shardInfo)
      ensures error.None? && values.Some? && old(past).None? ==>
                past == values && GetShardInfo(shardInfo.globalSeqLen, rank, worldSize) == Ok(shardInfo)
    {
      if values.None? {
        return None;
      }
      var added := values.value;
      if !AllValid(added) {
        return Some(PairShapeMismatch);
      }
      var grown := if added == [] then 0 else added[0].SeqLen();
      if past.None? {
        if globalSeqLen.None? && worldSize > 1 {
          return Some(GlobalLengthRequired);
        }
        var inferred :=
          if globalSeqLen.Some? then globalSeqLen.value
          else if added != [] then shardInfo.globalSeqLen + grown
          else 0;
        if inferred < 0 {
          return Some(BadGlobalLength);
        }
        var info := Shard(inferred, rank, worldSize);
        if !AllOfLength(added, info.LocalSeqLen()) {
          return Some(LocalLengthMismatch);
        }
        past := values;
        shardInfo := info;
        return None;
      }
      if globalSeqLen.None? && added == [] {
        return Some(GlobalLengthRequired);
      }
      var next := if globalSeqLen.Some? then globalSeqLen.value else shardInfo.globalSeqLen + grown;
      if next < 0 {
        return Some(BadGlobalLength);
      }
      var info := Shard(next, rank, worldSize);
      if info.LocalSeqLen() - shardInfo.LocalSeqLen() != grown {
        return Some(GrowthMismatch);
      }
      if added != [] {
        error := CannotMerge(past.value, added);
        if error.Some? {
          return;
        }
        MergedLengths(past.value, added, shardInfo.LocalSeqLen());
        past := Some(Merged(past.value, added));
      }
      shardInfo := info;
      error := None;
    }
  }

  /** Of layers with one length, the cut is each layer's own shard. */
  lemma UniformFits<T>(layers: Layers<T>, rank: nat, worldSize: nat)
    requires AllValid(layers) && rank < worldSize
    ensures layers != [] && Uniform(layers) ==>
              && CutFits(layers, rank, worldSize)
              && var info := Shard(layers[0].SeqLen(), rank, worldSize);
              && 0 <= info.start <= info.end
              && forall i | 0 <= i < |layers| ::
                   && layers[i].key.slices[info.start..info.end] == ShardOf(layers[i].key.slices, rank, worldSize)
                   && layers[i].value.slices[info.start..info.end] == ShardOf(layers[i].value.slices, rank, worldSize)
  {
    if layers != [] {
      ShardInRange(layers[0].SeqLen(), rank, worldSize);
    }
  }

  /** Appending layers keeps one length over all layers exactly when the appended ones share one. */
  lemma MergedLengths<T>(old_: Layers<T>, new_: Layers<T>, n: int)
    requires |old_| == |new_| > 0 && AllOfLength(old_, n) && AllValid(old_) && AllValid(new_) && Mergeable(old_, new_)
    ensures AllValid(Merged(old_, new_))
    ensures AllOfLength(Merged(old_, new_), n + new_[0].SeqLen()) <==> Uniform(new_)
  {
    var merged := Merged(old_, new_);
    forall i | 0 <= i < |old_|
      ensures |merged[i].key.slices| == n + new_[i].SeqLen() == |merged[i].value.slices|
    {
      assert new_[i].Valid();
    }
    if AllOfLength(merged, n + new_[0].SeqLen()) {
      forall i | 0 <= i < |new_|
        ensures new_[i].SeqLen() == new_[0].SeqLen()
      {
        assert |merged[i].key.slices| == n + new_[0].SeqLen();
      }
    }
  }

  /** When every rank's shard info is canonical for one length, the stored lengths add up to it. */
  lemma {:induction false} LocalLengthsAddUp(g: nat, w: nat, n: nat)
    requires n <= w && 0 < w
    ensures TotalLength(g, w, n) == if n == 0 then 0 else Shard(g, n - 1, w).end
    ensures n == w ==> TotalLength(g, w, n) == g
  {
    if n > 0 {
      LocalLengthsAddUp(g, w, n - 1);
      ShardsMeet(g, n - 1, w);
      if n > 1 { ShardsMeet(g, n - 2, w); }
    }
  }

  /** The lengths the first n of w ranks store for a sequence of length g. */
  function TotalLength(g: nat, w: nat, n: nat): int
    requires n <= w
  {
    if n == 0 then 0 else TotalLength(g, w, n - 1) + Shard(g, n - 1, w).LocalSeqLen()
  }
}
