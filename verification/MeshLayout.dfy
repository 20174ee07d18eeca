/** Rank layout: row-major views of one list of ranks, and the groups along their axes. */
module MeshLayout {
  import opened Common
  import opened SequenceShards

  // ---- mixed-radix coordinates ----------------------------------------------------------

  type Shape = seq<nat>

  function Size(shape: Shape): nat {
    if shape == [] then 1 else Size(shape[..|shape| - 1]) * shape[|shape| - 1]
  }

  predicate ValidCoords(shape: Shape, c: seq<nat>) {
    |c| == |shape| && forall k | 0 <= k < |shape| :: c[k] < shape[k]
  }

  /** The row-major index of coordinates. */
  function Flat(shape: Shape, c: seq<nat>): nat
    requires ValidCoords(shape, c)
  {
    if shape == [] then 0
    else
      var n := |shape| - 1;
      Flat(shape[..n], c[..n]) * shape[n] + c[n]
  }

  lemma {:induction false} FlatInRange(shape: Shape, c: seq<nat>)
    requires ValidCoords(shape, c)
    ensures Flat(shape, c) < Size(shape)
  {
    if shape != [] {
      var n := |shape| - 1;
      var row, rows, t := Flat(shape[..n], c[..n]), Size(shape[..n]), shape[n];
      FlatInRange(shape[..n], c[..n]);
      Distribute(rows - row - 1, row + 1, t);
      Distribute(row, 1, t);
      NonNegative(rows - row - 1, t);
    }
  }

  lemma IndexSplits(i: nat, rows: nat, t: nat)
    requires i < rows * t
    ensures t > 0 && i / t < rows && i == (i / t) * t + i % t
  {
    if t > 0 && i / t >= rows {
      Distribute(rows, i / t - rows, t);
      NonNegative(i / t - rows, t);
    }
  }

  function Coords(shape: Shape, i: nat): (c: seq<nat>)
    requires i < Size(shape)
    ensures ValidCoords(shape, c)
  {
    if shape == [] then []
    else
      var n := |shape| - 1;
      IndexSplits(i, Size(shape[..n]), shape[n]);
      Coords(shape[..n], i / shape[n]) + [i % shape[n]]
  }

  lemma {:induction false} FlatOfCoords(shape: Shape, i: nat)
    requires i < Size(shape)
    ensures Flat(shape, Coords(shape, i)) == i
  {
    if shape != [] {
      var n := |shape| - 1;
      IndexSplits(i, Size(shape[..n]), shape[n]);
      FlatOfCoords(shape[..n], i / shape[n]);
      assert Coords(shape, i)[..n] == Coords(shape[..n], i / shape[n]);
    }
  }

  lemma {:induction false} CoordsOfFlat(shape: Shape, c: seq<nat>)
    requires ValidCoords(shape, c)
    ensures Flat(shape, c) < Size(shape) && Coords(shape, Flat(shape, c)) == c
  {
    FlatInRange(shape, c);
    if shape != [] {
      var n := |shape| - 1;
      var row := Flat(shape[..n], c[..n]);
      CoordsOfFlat(shape[..n], c[..n]);
      Commute(row, shape[n]);
      DivModUnique(Flat(shape, c), shape[n], row, c[n]);
      assert c == c[..n] + [c[n]];
    }
  }

  // ---- groups along an axis ----------------------------------------------------------------

  /** Coordinates moved along one axis. */
  function Moved(c: seq<nat>, axis: nat, k: nat): seq<nat>
    requires axis < |c|
  {
    c[axis := k]
  }

  /** The indices that differ from some coordinates only along one axis. */
  function Group(shape: Shape, axis: nat, c: seq<nat>): (group: seq<nat>)
    requires ValidCoords(shape, c) && axis < |shape|
    ensures |group| == shape[axis]
  {
    seq(shape[axis], k requires 0 <= k < shape[axis] => Flat(shape, Moved(c, axis, k)))
  }

  /** Groups along an axis partition the indices: two that share an index are one, and none repeats an index. */
  lemma GroupsPartition(shape: Shape, axis: nat, c: seq<nat>, d: seq<nat>, j: nat, k: nat)
    requires ValidCoords(shape, c) && ValidCoords(shape, d) && axis < |shape|
    requires j < shape[axis] && k < shape[axis] && Group(shape, axis, c)[j] == Group(shape, axis, d)[k]
    ensures j == k && Group(shape, axis, c) == Group(shape, axis, d)
  {
    CoordsOfFlat(shape, Moved(c, axis, j));
    CoordsOfFlat(shape, Moved(d, axis, k));
    assert Moved(c, axis, j) == Moved(d, axis, k);
    assert Moved(c, axis, j)[axis] == j && Moved(d, axis, k)[axis] == k;
    forall x | 0 <= x < shape[axis]
      ensures Moved(c, axis, x) == Moved(d, axis, x)
    {
      assert Moved(c, axis, x) == Moved(Moved(c, axis, j), axis, x);
      assert Moved(d, axis, x) == Moved(Moved(d, axis, k), axis, x);
    }
  }

  /** Along the last axis a group is a block of consecutive indices. */
  lemma LastAxisGroup(shape: Shape, i: nat)
    requires shape != [] && i < Size(shape)
    ensures var t, n := shape[|shape| - 1], |shape| - 1;
            && t > 0 && Coords(shape, i)[n] == i % t
            && forall k | 0 <= k < t :: Group(shape, n, Coords(shape, i))[k] == (i / t) * t + k
  {
    var n := |shape| - 1;
    var t, c := shape[n], Coords(shape, i);
    IndexSplits(i, Size(shape[..n]), t);
    FlatOfCoords(shape[..n], i / t);
    forall k | 0 <= k < t
      ensures Group(shape, n, c)[k] == (i / t) * t + k
    {
      assert Moved(c, n, k)[..n] == Coords(shape[..n], i / t);
    }
  }

  // ---- meshes over a list of ranks --------------------------------------------------------------

  datatype Mesh = Mesh(shape: Shape, names: seq<string>, ranks: seq<int>) {
    predicate Valid() {
      |ranks| == Size(shape) && |names| == |shape| && forall i, j | 0 <= i < j < |ranks| :: ranks[i] != ranks[j]
    }
  }

  function At(mesh: Mesh, c: seq<nat>): int
    requires mesh.Valid() && ValidCoords(mesh.shape, c)
  {
    FlatInRange(mesh.shape, c);
    mesh.ranks[Flat(mesh.shape, c)]
  }

  /** A mesh indexes each of its ranks exactly once. */
  lemma EveryRankOnce(mesh: Mesh, rank: int) returns (c: seq<nat>)
    requires mesh.Valid() && rank in mesh.ranks
    ensures ValidCoords(mesh.shape, c) && At(mesh, c) == rank
    ensures forall d | ValidCoords(mesh.shape, d) && At(mesh, d) == rank :: d == c
  {
    var i :| 0 <= i < |mesh.ranks| && mesh.ranks[i] == rank;
    c := Coords(mesh.shape, i);
    FlatOfCoords(mesh.shape, i);
    forall d | ValidCoords(mesh.shape, d) && At(mesh, d) == rank
      ensures d == c
    {
      CoordsOfFlat(mesh.shape, d);
    }
  }

  function IndexOf(ranks: seq<int>, rank: int): (i: nat)
    requires rank in ranks
    ensures i < |ranks| && ranks[i] == rank
  {
    if ranks[|ranks| - 1] == rank then |ranks| - 1 else IndexOf(ranks[..|ranks| - 1], rank)
  }

  /** The group of a rank along an axis, and where the rank is in it. */
  datatype Child = Child(ranks: seq<int>, localRank: nat)

  function ChildOf(mesh: Mesh, axis: nat, rank: int): Child
    requires mesh.Valid() && axis < |mesh.shape| && rank in mesh.ranks
  {
    var c := Coords(mesh.shape, IndexOf(mesh.ranks, rank));
    Child(seq(mesh.shape[axis], k requires 0 <= k < mesh.shape[axis] => At(mesh, Moved(c, axis, k))), c[axis])
  }

  /** The groups of two ranks along one axis are one group or share no rank; each rank is in its own. */
  lemma ChildrenPartition(mesh: Mesh, axis: nat, r: int, q: int)
    requires mesh.Valid() && axis < |mesh.shape| && r in mesh.ranks && q in mesh.ranks
    ensures var a, b := ChildOf(mesh, axis, r), ChildOf(mesh, axis, q);
            && a.localRank < |a.ranks| && a.ranks[a.localRank] == r
            && (a.ranks == b.ranks || forall x | x in a.ranks :: x !in b.ranks)
  {
    OwnPlace(mesh, axis, r);
    var a, b := ChildOf(mesh, axis, r), ChildOf(mesh, axis, q);
    if x :| x in a.ranks && x in b.ranks {
      MeetingGroups(mesh, axis, r, q, x);
    }
  }

  lemma OwnPlace(mesh: Mesh, axis: nat, r: int)
    requires mesh.Valid() && axis < |mesh.shape| && r in mesh.ranks
    ensures var a := ChildOf(mesh, axis, r); a.localRank < |a.ranks| && a.ranks[a.localRank] == r
  {
    var c := Coords(mesh.shape, IndexOf(mesh.ranks, r));
    FlatOfCoords(mesh.shape, IndexOf(mesh.ranks, r));
    assert Moved(c, axis, c[axis]) == c;
  }

  lemma MeetingGroups(mesh: Mesh, axis: nat, r: int, q: int, x: int)
    requires mesh.Valid() && axis < |mesh.shape| && r in mesh.ranks && q in mesh.ranks
    requires x in ChildOf(mesh, axis, r).ranks && x in ChildOf(mesh, axis, q).ranks
    ensures ChildOf(mesh, axis, r).ranks == ChildOf(mesh, axis, q).ranks
  {
    var c, d := Coords(mesh.shape, IndexOf(mesh.ranks, r)), Coords(mesh.shape, IndexOf(mesh.ranks, q));
    var a, b := ChildOf(mesh, axis, r), ChildOf(mesh, axis, q);
    var j :| 0 <= j < |a.ranks| && a.ranks[j] == x;
    var k :| 0 <= k < |b.ranks| && b.ranks[k] == x;
    SameIndex(mesh, Moved(c, axis, j), Moved(d, axis, k));
    GroupsPartition(mesh.shape, axis, c, d, j, k);
    SameGroup(mesh, axis, c, d);
  }

  lemma SameIndex(mesh: Mesh, c: seq<nat>, d: seq<nat>)
    requires mesh.Valid() && ValidCoords(mesh.shape, c) && ValidCoords(mesh.shape, d) && At(mesh, c) == At(mesh, d)
    ensures Flat(mesh.shape, c) == Flat(mesh.shape, d)
  {
    FlatInRange(mesh.shape, c);
    FlatInRange(mesh.shape, d);
  }

  lemma SameGroup(mesh: Mesh, axis: nat, c: seq<nat>, d: seq<nat>)
    requires mesh.Valid() && axis < |mesh.shape| && ValidCoords(mesh.shape, c) && ValidCoords(mesh.shape, d)
    requires Group(mesh.shape, axis, c) == Group(mesh.shape, axis, d)
    ensures forall k | 0 <= k < mesh.shape[axis] :: At(mesh, Moved(c, axis, k)) == At(mesh, Moved(d, axis, k))
  {
    forall k | 0 <= k < mesh.shape[axis]
      ensures At(mesh, Moved(c, axis, k)) == At(mesh, Moved(d, axis, k))
    {
      assert Group(mesh.shape, axis, c)[k] == Group(mesh.shape, axis, d)[k];
    }
  }

  /** Two meshes over one list of ranks with one last dimension have the same last-axis groups and local ranks. */
  lemma LastAxisChildrenAgree(a: Mesh, b: Mesh, rank: int)
    requires a.Valid() && b.Valid() && a.ranks == b.ranks && rank in a.ranks
    requires a.shape != [] && b.shape != [] && a.shape[|a.shape| - 1] == b.shape[|b.shape| - 1]
    ensures ChildOf(a, |a.shape| - 1, rank) == ChildOf(b, |b.shape| - 1, rank)
  {
    var i := IndexOf(a.ranks, rank);
    LastAxisGroup(a.shape, i);
    LastAxisGroup(b.shape, i);
    var x, y := ChildOf(a, |a.shape| - 1, rank), ChildOf(b, |b.shape| - 1, rank);
    forall k | 0 <= k < |x.ranks|
      ensures x.ranks[k] == y.ranks[k]
    {
      assert Group(a.shape, |a.shape| - 1, Coords(a.shape, i))[k] ==
             Group(b.shape, |b.shape| - 1, Coords(b.shape, i))[k];
    }
  }

  // ---- pipeline stages -----------------------------------------------------------------------------

  function StageStart(rank: nat, dense: nat): nat
    requires dense > 0
  {
    rank / dense * dense
  }

  function Range(start: int, n: nat): (ranks: seq<int>)
    ensures |ranks| == n
  {
    seq(n, i => start + i)
  }

  /** A rank's stage holds it and lies within the world. */
  lemma OwnStage(rank: nat, dense: nat, stages: nat)
    requires rank < dense * stages
    ensures dense > 0 && StageStart(rank, dense) <= rank < StageStart(rank, dense) + dense <= dense * stages
    ensures rank in Range(StageStart(rank, dense), dense)
  {
    Commute(dense, stages);
    IndexSplits(rank, stages, dense);
    var s := rank / dense;
    Distribute(s + 1, stages - s - 1, dense);
    Distribute(s, 1, dense);
    NonNegative(stages - s - 1, dense);
    assert Range(StageStart(rank, dense), dense)[rank - StageStart(rank, dense)] == rank;
  }

  /** The stages of two ranks are one stage, or share no rank: ranks of one stage agree on where it starts. */
  lemma StagesPartition(r: nat, q: nat, dense: nat)
    requires dense > 0
    ensures q in Range(StageStart(r, dense), dense) <==> StageStart(q, dense) == StageStart(r, dense)
  {
    var s := StageStart(r, dense);
    if q in Range(s, dense) {
      var k :| 0 <= k < dense && Range(s, dense)[k] == q;
      Commute(r / dense, dense);
      DivModUnique(q, dense, r / dense, k);
    }
    if StageStart(q, dense) == s {
      assert q == s + q % dense;
      assert Range(s, dense)[q - s] == q;
    }
  }

  // ---- the mesh context ------------------------------------------------------------------------------

  datatype MeshError = WorldSize | FsdpSize | TpLayout | ExpertDomain | ExpertShards

  datatype Topology = Topology(dp: nat, cp: nat, tp: nat, pp: nat, replicate: nat, shard: nat, ep: nat, edpShard: nat) {
    function Dense(): nat { dp * cp * tp }
  }

  function DeviceMesh(t: Topology, ranks: seq<int>): Mesh {
    Mesh([t.dp, t.cp, t.tp], ["dp", "cp", "tp"], ranks)
  }

  function DenseMesh(t: Topology, ranks: seq<int>): Mesh {
    Mesh([t.replicate, t.shard, t.tp], ["fsdp_replicate", "fsdp_shard", "tp"], ranks)
  }

  function ExpertError(t: Topology): Option<MeshError> {
    if t.ep <= 1 then None
    else if t.Dense() % t.ep != 0 then Some(ExpertDomain)
    else if t.edpShard == 0 || t.Dense() / t.ep % t.edpShard != 0 then Some(ExpertShards)
    else None
  }

  function ExpertMesh(t: Topology, ranks: seq<int>): Option<Mesh>
    requires ExpertError(t).None?
  {
    if t.ep <= 1 then None
    else
      var edp := t.Dense() / t.ep;
      var replicate := edp / t.edpShard;
      Some(if replicate > 1
           then Mesh([replicate, t.edpShard, t.ep], ["edp_replicate", "edp_shard", "ep"], ranks)
           else Mesh([t.edpShard, t.ep], ["edp_shard", "ep"], ranks))
  }

  function SizeError(t: Topology, world: nat): Option<MeshError> {
    if t.Dense() * t.pp != world then Some(WorldSize)
    else if t.replicate * t.shard != t.dp * t.cp then Some(FsdpSize)
    else None
  }

  /** The ranks a rank's meshes are built over: its pipeline stage. */
  function StageRanks(t: Topology, rank: nat): seq<int>
    requires t.Dense() > 0
  {
    Range(if t.pp > 1 then StageStart(rank, t.Dense()) else 0, t.Dense())
  }

  lemma Size2(a: nat, b: nat)
    ensures Size([a, b]) == a * b
  {
    assert [a, b][..1] == [a] && [a][..0] == [];
    assert Size([a]) == 1 * a;
  }

  lemma Size3(a: nat, b: nat, c: nat)
    ensures Size([a, b, c]) == a * b * c
  {
    assert [a, b, c][..2] == [a, b];
    Size2(a, b);
  }

  lemma DenseIsPositive(t: Topology, world: nat)
    requires SizeError(t, world).None? && world > 0
    ensures t.Dense() > 0
  {
  }

  /** A rank's own stage: for one stage it is the world. */
  lemma StageRanksHoldRank(t: Topology, world: nat, rank: nat)
    requires SizeError(t, world).None? && rank < world
    ensures t.Dense() > 0 && rank in StageRanks(t, rank) && forall r | r in StageRanks(t, rank) :: 0 <= r < world
  {
    DenseIsPositive(t, world);
    OwnStage(rank, t.Dense(), t.pp);
    if t.pp <= 1 {
      assert t.pp == 1;
      assert Range(0, t.Dense())[rank] == rank;
    }
  }

  /** In an accepted topology all three views are over the same ranks, each rank once. */
  lemma ViewsAreValid(t: Topology, world: nat, rank: nat)
    requires SizeError(t, world).None? && rank < world
    ensures t.Dense() > 0
    ensures DeviceMesh(t, StageRanks(t, rank)).Valid() && DenseMesh(t, StageRanks(t, rank)).Valid()
    ensures ExpertError(t).None? && t.ep > 1 ==> ExpertMesh(t, StageRanks(t, rank)).value.Valid()
  {
    DenseIsPositive(t, world);
    Size3(t.dp, t.cp, t.tp);
    Size3(t.replicate, t.shard, t.tp);
    if ExpertError(t).None? && t.ep > 1 {
      ExpertCovers(t.Dense(), t.ep, t.edpShard);
    }
  }

  lemma ExpertCovers(domain: nat, ep: nat, shard: nat)
    requires domain > 0 && ep > 1 && shard > 0 && domain % ep == 0 && domain / ep % shard == 0
    ensures var replicate := domain / ep / shard;
            replicate >= 1 && Size([replicate, shard, ep]) == domain && (replicate == 1 ==> Size([shard, ep]) == domain)
  {
    var edp := domain / ep;
    var replicate := edp / shard;
    Size3(replicate, shard, ep);
    Size2(shard, ep);
    assert edp == shard * replicate && domain == ep * edp;
    Commute(shard, replicate);
    Commute(ep, edp);
  }

  /** An expert group is ep consecutive ranks of the stage; its shard axis has the configured size. */
  lemma ExpertGroups(t: Topology, world: nat, rank: nat, r: int)
    requires SizeError(t, world).None? && rank < world && ExpertError(t).None? && t.ep > 1 && r in StageRanks(t, rank)
    ensures t.Dense() > 0
    ensures var mesh := ExpertMesh(t, StageRanks(t, rank)).value;
            var n := |mesh.shape|;
            && mesh.Valid() && r in mesh.ranks && n >= 2 && mesh.shape[n - 2] == t.edpShard
            && var group, start := ChildOf(mesh, n - 1, r), StageRanks(t, rank)[0];
               && |group.ranks| == t.ep && group.localRank == (r - start) % t.ep
               && forall k | 0 <= k < t.ep :: group.ranks[k] == start + (r - start) / t.ep * t.ep + k
  {
    ViewsAreValid(t, world, rank);
    var mesh := ExpertMesh(t, StageRanks(t, rank)).value;
    var i := IndexOf(mesh.ranks, r);
    LastAxisGroup(mesh.shape, i);
    var n, c := |mesh.shape|, Coords(mesh.shape, i);
    var group, start := ChildOf(mesh, n - 1, r), StageRanks(t, rank)[0];
    forall k | 0 <= k < t.ep
      ensures group.ranks[k] == start + i / t.ep * t.ep + k
    {
      assert Group(mesh.shape, n - 1, c)[k] == i / t.ep * t.ep + k;
      FlatInRange(mesh.shape, Moved(c, n - 1, k));
    }
  }

  /** Why the layout check raises, if it does: the two TP child meshes differ for a rank. */
  function LayoutError(device: Mesh, dense: Mesh, rank: int): Option<MeshError>
    requires device.Valid() && dense.Valid() && rank in device.ranks && rank in dense.ranks
    requires |device.shape| == |dense.shape| == 3
  {
    var a, b := ChildOf(device, 2, rank), ChildOf(dense, 2, rank);
    if a.ranks != b.ranks || a.localRank != b.localRank then Some(TpLayout) else None
  }

  /** The layout check never raises: both views split the stage into the same TP groups. */
  lemma LayoutCheckPasses(t: Topology, world: nat, rank: nat)
    requires SizeError(t, world).None? && rank < world
    ensures t.Dense() > 0
    ensures var ranks := StageRanks(t, rank);
            && rank in ranks && DeviceMesh(t, ranks).Valid() && DenseMesh(t, ranks).Valid()
            && LayoutError(DeviceMesh(t, ranks), DenseMesh(t, ranks), rank).None?
  {
    ViewsAreValid(t, world, rank);
    StageRanksHoldRank(t, world, rank);
    LastAxisChildrenAgree(DeviceMesh(t, StageRanks(t, rank)), DenseMesh(t, StageRanks(t, rank)), rank);
  }

  /** The mesh domains of one rank, built in place. */
  class MeshContext {
    const topology: Topology
    var deviceMesh: Option<Mesh>
    var fsdpNonMoeMesh: Option<Mesh>
    var fsdpMoeMesh: Option<Mesh>

    constructor (topology: Topology)
      ensures this.topology == topology && deviceMesh == fsdpNonMoeMesh == fsdpMoeMesh == None
    {
      this.topology := topology;
      deviceMesh, fsdpNonMoeMesh, fsdpMoeMesh := None, None, None;
    }

    /** Build the three domains; a refused size leaves the object as it was, a refused expert size no expert mesh. */
    method BuildMeshes(rank: nat, world: nat) returns (error: Option<MeshError>)
      requires rank < world
      modifies this
      ensures error == if SizeError(topology, world).Some? then SizeError(topology, world) else ExpertError(topology)
      ensures SizeError(topology, world).Some? ==>
                && deviceMesh == old(deviceMesh) && fsdpNonMoeMesh == old(fsdpNonMoeMesh)
                && fsdpMoeMesh == old(fsdpMoeMesh)
      ensures SizeError(topology, world).None? ==>
                && topology.Dense() > 0
                && var ranks := StageRanks(topology, rank);
                   && deviceMesh == Some(DeviceMesh(topology, ranks))
                   && fsdpNonMoeMesh == Some(DenseMesh(topology, ranks))
                   && fsdpMoeMesh == if ExpertError(topology).None? then ExpertMesh(topology, ranks) else None
    {
      error := SizeError(topology, world);
      if error.Some? {
        return;
      }
      LayoutCheckPasses(topology, world, rank);
      var ranks := StageRanks(topology, rank);
      deviceMesh := Some(DeviceMesh(topology, ranks));
      fsdpNonMoeMesh := Some(DenseMesh(topology, ranks));
      error := LayoutError(deviceMesh.value, fsdpNonMoeMesh.value, rank);
      if error.Some? {
        return;
      }
      fsdpMoeMesh := None;
      error := ExpertError(topology);
      if error.None? {
        fsdpMoeMesh := ExpertMesh(topology, ranks);
      }
    }
  }
}
