/** Attention swap: find every self_attn of a module graph, and replace its references in place. */
module AttentionSwap {
  import opened Common

  /** A registered child; a name may be registered without one. */
  datatype Edge = Edge(name: string, target: Option<Module>)

  class Module {
    var children: seq<Edge>

    constructor (children: seq<Edge>)
      ensures this.children == children
    {
      this.children := children;
    }
  }

  const SELF_ATTN := "self_attn"

  type Graph = map<Module, seq<Edge>>

  // ---- children by name, each module once -------------------------------------------

  predicate Reaches(edges: seq<Edge>, m: Module) {
    exists i :: 0 <= i < |edges| && edges[i].target == Some(m)
  }

  /** The children a module reports: each under the first name it is registered by. */
  function NamedChildren(edges: seq<Edge>): seq<(string, Module)> {
    if edges == [] then []
    else
      var n := |edges| - 1;
      NamedChildren(edges[..n]) +
      (if edges[n].target.Some? && !Reaches(edges[..n], edges[n].target.value)
       then [(edges[n].name, edges[n].target.value)] else [])
  }

  predicate UniqueNames(edges: seq<Edge>) {
    forall i, j | 0 <= i < j < |edges| :: edges[i].name != edges[j].name
  }

  /** Whether a module reports an attention as its self_attn. */
  ghost predicate Attends(edges: seq<Edge>, a: Module) {
    (SELF_ATTN, a) in NamedChildren(edges)
  }

  ghost predicate HasAttention(edges: seq<Edge>) {
    exists i :: 0 <= i < |NamedChildren(edges)| && NamedChildren(edges)[i].0 == SELF_ATTN
  }

  lemma {:induction false} NamedChildIsRegistered(edges: seq<Edge>, name: string, m: Module)
    ensures (name, m) in NamedChildren(edges) <==>
            exists i :: 0 <= i < |edges| && edges[i] == Edge(name, Some(m)) && !Reaches(edges[..i], m)
  {
    if edges != [] {
      var n := |edges| - 1;
      NamedChildIsRegistered(edges[..n], name, m);
      assert forall i | 0 <= i <= n :: edges[..n][..i] == edges[..i];
      if (name, m) in NamedChildren(edges[..n]) {
        var i :| 0 <= i < n && edges[..n][i] == Edge(name, Some(m)) && !Reaches(edges[..n][..i], m);
        assert edges[i] == Edge(name, Some(m));
      }
      if i :| 0 <= i < |edges| && edges[i] == Edge(name, Some(m)) && !Reaches(edges[..i], m) {
        if i < n { assert edges[..n][i] == edges[i]; }
      }
    }
  }

  lemma NamedAt(edges: seq<Edge>, k: nat, a: Module)
    requires UniqueNames(edges) && k < |edges| && edges[k] == Edge(SELF_ATTN, Some(a))
    ensures Attends(edges, a) <==> !Reaches(edges[..k], a)
  {
    NamedChildIsRegistered(edges, SELF_ATTN, a);
  }

  lemma OnlyAttention(edges: seq<Edge>, k: nat, a: Module)
    requires UniqueNames(edges) && k < |edges| && edges[k] == Edge(SELF_ATTN, Some(a)) && HasAttention(edges)
    ensures Attends(edges, a)
  {
    var i :| 0 <= i < |NamedChildren(edges)| && NamedChildren(edges)[i].0 == SELF_ATTN;
    var b := NamedChildren(edges)[i].1;
    assert NamedChildren(edges)[i] == (SELF_ATTN, b);
    NamedChildIsRegistered(edges, SELF_ATTN, b);
  }

  lemma AttendsHasAttention(edges: seq<Edge>, a: Module)
    requires Attends(edges, a)
    ensures HasAttention(edges)
  {
    var i :| 0 <= i < |NamedChildren(edges)| && NamedChildren(edges)[i] == (SELF_ATTN, a);
  }

  /**
   * A registered self_attn is found exactly when no earlier name of its parent holds the same module;
   * otherwise it is only seen under that other name, and searched instead of recorded.
   */
  lemma AliasedAttentionIsNotFound(edges: seq<Edge>, k: nat, a: Module)
    requires UniqueNames(edges) && k < |edges| && edges[k] == Edge(SELF_ATTN, Some(a))
    ensures HasAttention(edges) <==> !Reaches(edges[..k], a)
    ensures HasAttention(edges) <==> Attends(edges, a)
    ensures Reaches(edges[..k], a) ==>
              exists i :: 0 <= i < k && edges[i].name != SELF_ATTN && (edges[i].name, a) in NamedChildren(edges)
  {
    NamedAt(edges, k, a);
    if HasAttention(edges) { OnlyAttention(edges, k, a); }
    if Attends(edges, a) { AttendsHasAttention(edges, a); }
    if Reaches(edges[..k], a) { AliasIsFound(edges, k, a); }
  }

  lemma AliasIsFound(edges: seq<Edge>, k: nat, a: Module)
    requires UniqueNames(edges) && k < |edges| && edges[k].name == SELF_ATTN && Reaches(edges[..k], a)
    ensures exists i :: 0 <= i < k && edges[i].name != SELF_ATTN && (edges[i].name, a) in NamedChildren(edges)
  {
    var i := FirstName(edges[..k], a);
    assert edges[..k][..i] == edges[..i] && edges[..k][i] == edges[i];
    assert edges[i] == Edge(edges[i].name, Some(a));
    NamedChildIsRegistered(edges, edges[i].name, a);
  }

  lemma {:induction false} FirstName(edges: seq<Edge>, a: Module) returns (i: nat)
    requires Reaches(edges, a)
    ensures i < |edges| && edges[i].target == Some(a) && !Reaches(edges[..i], a)
  {
    var n := |edges| - 1;
    if Reaches(edges[..n], a) {
      i := FirstName(edges[..n], a);
      assert edges[..n][..i] == edges[..i];
    } else {
      i := n;
    }
  }

  lemma OneAttention(edges: seq<Edge>, a: Module, b: Module)
    requires UniqueNames(edges) && Attends(edges, a) && Attends(edges, b)
    ensures a == b
  {
    NamedChildIsRegistered(edges, SELF_ATTN, a);
    NamedChildIsRegistered(edges, SELF_ATTN, b);
  }

  // ---- the graph -----------------------------------------------------------------------

  ghost predicate Closed(g: Graph) {
    forall m | m in g :: UniqueNames(g[m]) && forall c | c in NamedChildren(g[m]) :: c.1 in g
  }

  /** The search goes from a module to a child that is not its self_attn. */
  ghost predicate Follows(g: Graph, p: Module, c: Module)
    requires p in g
  {
    exists i :: 0 <= i < |NamedChildren(g[p])| && NamedChildren(g[p])[i].1 == c && NamedChildren(g[p])[i].0 != SELF_ATTN
  }

  /** What is reached in at most k steps without crossing a self_attn. */
  ghost function Within(g: Graph, root: Module, k: nat): set<Module> {
    if k == 0 then {root}
    else Within(g, root, k - 1) + (set p, c | p in Within(g, root, k - 1) && p in g && c in g && Follows(g, p, c) :: c)
  }

  ghost predicate Reachable(g: Graph, root: Module, m: Module) {
    exists k: nat :: m in Within(g, root, k)
  }

  lemma FollowsReaches(g: Graph, root: Module, p: Module, c: Module)
    requires p in g && c in g && Reachable(g, root, p) && Follows(g, p, c)
    ensures Reachable(g, root, c)
  {
    var k: nat :| p in Within(g, root, k);
    assert c in Within(g, root, k + 1);
  }

  lemma {:induction false} ClosedSetHoldsReachable(g: Graph, root: Module, found: set<Module>, k: nat)
    requires root in found
    requires forall p, c | p in found && p in g && c in g && Follows(g, p, c) :: c in found
    ensures Within(g, root, k) <= found
  {
    if k > 0 {
      ClosedSetHoldsReachable(g, root, found, k - 1);
    }
  }

  // ---- the targets -----------------------------------------------------------------------

  /** One attention and every parent that references it. */
  datatype Target = Target(attention: Module, parents: seq<Module>)

  /** Record a reference, with the other references to the same attention. */
  function Record(targets: seq<Target>, parent: Module, attention: Module): seq<Target> {
    if targets == [] then [Target(attention, [parent])]
    else if targets[0].attention == attention
    then [Target(attention, targets[0].parents + [parent])] + targets[1..]
    else [targets[0]] + Record(targets[1..], parent, attention)
  }

  predicate NoDuplicates<T(==)>(s: seq<T>) {
    forall i, j | 0 <= i < j < |s| :: s[i] != s[j]
  }

  /** A target holds exactly the parents, among those done, of its attention, each once. */
  ghost predicate TargetExact(g: Graph, done: set<Module>, t: Target)
    requires done <= g.Keys
  {
    NoDuplicates(t.parents) && forall p | p in g :: p in t.parents <==> p in done && Attends(g[p], t.attention)
  }

  ghost predicate Exact(g: Graph, done: set<Module>, targets: seq<Target>)
    requires done <= g.Keys
  {
    && (forall i, j | 0 <= i < j < |targets| :: targets[i].attention != targets[j].attention)
    && (forall i | 0 <= i < |targets| ::
          TargetExact(g, done, targets[i]) && targets[i].parents != [] && forall p | p in targets[i].parents :: p in g)
    && forall p, c | p in done && c in NamedChildren(g[p]) && c.0 == SELF_ATTN :: Listed(targets, c.1)
  }

  ghost predicate Listed(targets: seq<Target>, a: Module) {
    exists i :: 0 <= i < |targets| && targets[i].attention == a
  }

  lemma {:induction false} RecordAt(targets: seq<Target>, parent: Module, a: Module)
    requires forall i, j | 0 <= i < j < |targets| :: targets[i].attention != targets[j].attention
    ensures var after := Record(targets, parent, a);
            if Listed(targets, a)
            then |after| == |targets|
                 && forall i | 0 <= i < |targets| ::
                      after[i] == if targets[i].attention == a then Target(a, targets[i].parents + [parent])
                                  else targets[i]
            else after == targets + [Target(a, [parent])]
  {
    if targets != [] {
      if targets[0].attention != a {
        RecordAt(targets[1..], parent, a);
        if Listed(targets, a) {
          var i :| 0 <= i < |targets| && targets[i].attention == a;
          assert targets[1..][i - 1].attention == a;
        }
      }
    }
  }

  lemma RecordKeepsTarget(g: Graph, done: set<Module>, t: Target, parent: Module, a: Module)
    requires done <= g.Keys && TargetExact(g, done, t) && parent in g && parent !in done
    requires UniqueNames(g[parent]) && Attends(g[parent], a)
    ensures TargetExact(g, done + {parent}, if t.attention == a then Target(a, t.parents + [parent]) else t)
  {
    if t.attention != a && Attends(g[parent], t.attention) {
      OneAttention(g[parent], a, t.attention);
    }
  }

  lemma RecordKeepsExact(g: Graph, done: set<Module>, targets: seq<Target>, parent: Module, a: Module)
    requires Closed(g) && done <= g.Keys && Exact(g, done, targets) && parent in g && parent !in done
    requires Attends(g[parent], a)
    ensures Exact(g, done + {parent}, Record(targets, parent, a))
  {
    var after := Record(targets, parent, a);
    RecordAt(targets, parent, a);
    forall i | 0 <= i < |after|
      ensures TargetExact(g, done + {parent}, after[i]) && after[i].parents != []
      ensures forall p | p in after[i].parents :: p in g
    {
      if i < |targets| {
        RecordKeepsTarget(g, done, targets[i], parent, a);
      } else {
        FirstReference(g, done, targets, parent, a);
      }
    }
    forall p, c | p in done + {parent} && c in NamedChildren(g[p]) && c.0 == SELF_ATTN
      ensures Listed(after, c.1)
    {
      if p == parent {
        OneAttention(g[parent], a, c.1);
        if Listed(targets, a) {
          var i :| 0 <= i < |targets| && targets[i].attention == a;
          assert after[i].attention == a;
        } else {
          assert after[|targets|].attention == a;
        }
      } else {
        var i :| 0 <= i < |targets| && targets[i].attention == c.1;
        assert after[i].attention == c.1;
      }
    }
  }

  lemma FirstReference(g: Graph, done: set<Module>, targets: seq<Target>, parent: Module, a: Module)
    requires done <= g.Keys && Exact(g, done, targets) && parent in g && parent !in done
    requires UniqueNames(g[parent]) && Attends(g[parent], a) && !Listed(targets, a)
    ensures TargetExact(g, done + {parent}, Target(a, [parent]))
  {
    AttendedIsListed(g, done, targets, a);
  }

  lemma AttendedIsListed(g: Graph, done: set<Module>, targets: seq<Target>, a: Module)
    requires done <= g.Keys && Exact(g, done, targets)
    ensures forall p | p in done :: Attends(g[p], a) ==> Listed(targets, a)
  {
    forall p | p in done && Attends(g[p], a)
      ensures Listed(targets, a)
    {
      assert (SELF_ATTN, a) in NamedChildren(g[p]);
    }
  }

  lemma NothingToRecord(g: Graph, done: set<Module>, targets: seq<Target>, parent: Module)
    requires done <= g.Keys && Exact(g, done, targets) && parent in g && !HasAttention(g[parent])
    ensures Exact(g, done + {parent}, targets)
  {
    forall a ensures Attends(g[parent], a) ==> HasAttention(g[parent]) {
      if Attends(g[parent], a) { AttendsHasAttention(g[parent], a); }
    }
  }

  // ---- the search ---------------------------------------------------------------------------

  /** The graph the modules form now. */
  ghost function Snapshot(nodes: set<Module>): Graph
    reads nodes
  {
    map m | m in nodes :: m.children
  }

  /** What a search keeps: it found only reachable modules, and recorded each of those done. */
  ghost predicate Searching(g: Graph, root: Module, visited: set<Module>, done: set<Module>, targets: seq<Target>) {
    && Closed(g) && done <= visited <= g.Keys && Exact(g, done, targets)
    && forall m | m in visited :: Reachable(g, root, m)
  }

  /** Modules whose search is over: whatever they lead to is visited. */
  ghost predicate Finished(g: Graph, news: set<Module>, visited: set<Module>)
    requires news <= g.Keys
  {
    forall p, c | p in news && c in g && Follows(g, p, c) :: c in visited
  }

  ghost predicate RecordedBefore(children: seq<(string, Module)>, i: nat)
    requires i <= |children|
  {
    exists j :: 0 <= j < i && children[j].0 == SELF_ATTN
  }

  /** A search that has looked at the first i children of a module. */
  ghost predicate Visiting(g: Graph, root: Module, parent: Module, visited0: set<Module>, done0: set<Module>, i: nat,
                           visited: set<Module>, done: set<Module>, targets: seq<Target>)
  {
    && Searching(g, root, visited, done, targets) && parent in g && parent !in visited0 && done0 <= visited0
    && visited0 + {parent} <= visited && i <= |NamedChildren(g[parent])|
    && done == done0 + (visited - visited0 - {parent})
               + (if RecordedBefore(NamedChildren(g[parent]), i) then {parent} else {})
    && Finished(g, visited - visited0 - {parent}, visited)
    && forall j | 0 <= j < i && NamedChildren(g[parent])[j].0 != SELF_ATTN :: NamedChildren(g[parent])[j].1 in visited
  }

  lemma AfterRecord(g: Graph, root: Module, parent: Module, visited0: set<Module>, done0: set<Module>, i: nat,
                    visited: set<Module>, done: set<Module>, targets: seq<Target>)
    requires Visiting(g, root, parent, visited0, done0, i, visited, done, targets) && i < |NamedChildren(g[parent])|
    requires NamedChildren(g[parent])[i].0 == SELF_ATTN
    ensures Visiting(g, root, parent, visited0, done0, i + 1, visited, done + {parent},
                     Record(targets, parent, NamedChildren(g[parent])[i].1))
  {
    OneRecord(g, parent, NamedChildren(g[parent]), i);
    RecordKeepsExact(g, done, targets, parent, NamedChildren(g[parent])[i].1);
  }

  lemma ChildIsReachable(g: Graph, root: Module, parent: Module, i: nat)
    requires Closed(g) && parent in g && Reachable(g, root, parent) && i < |NamedChildren(g[parent])|
    requires NamedChildren(g[parent])[i].0 != SELF_ATTN
    ensures NamedChildren(g[parent])[i].1 in g && Reachable(g, root, NamedChildren(g[parent])[i].1)
  {
    assert NamedChildren(g[parent])[i] in NamedChildren(g[parent]);
    FollowsReaches(g, root, parent, NamedChildren(g[parent])[i].1);
  }

  lemma AfterChild(g: Graph, root: Module, parent: Module, visited0: set<Module>, done0: set<Module>, i: nat,
                   visited: set<Module>, done: set<Module>, targets: seq<Target>,
                   visited': set<Module>, done': set<Module>, targets': seq<Target>)
    requires Visiting(g, root, parent, visited0, done0, i, visited, done, targets) && i < |NamedChildren(g[parent])|
    requires NamedChildren(g[parent])[i].0 != SELF_ATTN
    requires Searching(g, root, visited', done', targets')
    requires visited <= visited' && NamedChildren(g[parent])[i].1 in visited' && done' == done + (visited' - visited)
    requires Finished(g, visited' - visited, visited')
    ensures Visiting(g, root, parent, visited0, done0, i + 1, visited', done', targets')
  {
    NotRecordedHere(NamedChildren(g[parent]), i);
    var first, more := visited - visited0 - {parent}, visited' - visited;
    FinishedTogether(g, first, more, visited, visited');
    assert visited' - visited0 - {parent} == first + more;
  }

  lemma NotRecordedHere(children: seq<(string, Module)>, i: nat)
    requires i < |children| && children[i].0 != SELF_ATTN
    ensures RecordedBefore(children, i + 1) == RecordedBefore(children, i)
  {
  }

  lemma FinishedTogether(g: Graph, first: set<Module>, more: set<Module>, visited: set<Module>, visited': set<Module>)
    requires first + more <= g.Keys && Finished(g, first, visited)
    requires visited <= visited' && Finished(g, more, visited')
    ensures Finished(g, first + more, visited')
  {
  }

  lemma AfterVisit(g: Graph, root: Module, parent: Module, visited0: set<Module>, done0: set<Module>,
                   visited: set<Module>, done: set<Module>, targets: seq<Target>)
    requires parent in g
    requires Visiting(g, root, parent, visited0, done0, |NamedChildren(g[parent])|, visited, done, targets)
    ensures Searching(g, root, visited, done + {parent}, targets)
    ensures done + {parent} == done0 + (visited - visited0)
    ensures Finished(g, visited - visited0, visited)
  {
    if !RecordedBefore(NamedChildren(g[parent]), |NamedChildren(g[parent])|) {
      NothingToRecord(g, done, targets, parent);
    } else {
      assert done + {parent} == done;
    }
  }

  /** Search a module's children, each module once, whatever is shared or cyclic. */
  method Visit(parent: Module, visited0: set<Module>, targets0: seq<Target>, ghost g: Graph, ghost root: Module,
               ghost done0: set<Module>)
    returns (visited: set<Module>, targets: seq<Target>, ghost done: set<Module>)
    requires g == Snapshot(g.Keys)
    requires Searching(g, root, visited0, done0, targets0) && parent in g && Reachable(g, root, parent)
    ensures Searching(g, root, visited, done, targets)
    ensures visited0 <= visited && parent in visited && done == done0 + (visited - visited0)
    ensures Finished(g, visited - visited0, visited)
    decreases g.Keys - visited0
  {
    visited, targets, done := visited0, targets0, done0;
    if parent in visited {
      return;
    }
    visited := visited + {parent};
    var children := NamedChildren(parent.children);
    for i := 0 to |children|
      invariant children == NamedChildren(g[parent]) && g == Snapshot(g.Keys)
      invariant Visiting(g, root, parent, visited0, done0, i, visited, done, targets)
    {
      var name, child := children[i].0, children[i].1;
      if name == SELF_ATTN {
        AfterRecord(g, root, parent, visited0, done0, i, visited, done, targets);
        targets, done := Record(targets, parent, child), done + {parent};
      } else {
        ChildIsReachable(g, root, parent, i);
        var v, t;
        ghost var d;
        v, t, d := Visit(child, visited, targets, g, root, done);
        AfterChild(g, root, parent, visited0, done0, i, visited, done, targets, v, d, t);
        visited, targets, done := v, t, d;
      }
    }
    AfterVisit(g, root, parent, visited0, done0, visited, done, targets);
    done := done + {parent};
  }

  /** A parent reports one self_attn at most. */
  lemma OneRecord(g: Graph, parent: Module, children: seq<(string, Module)>, i: nat)
    requires parent in g && UniqueNames(g[parent]) && children == NamedChildren(g[parent]) && i < |children|
    requires children[i].0 == SELF_ATTN
    ensures !RecordedBefore(children, i) && Attends(g[parent], children[i].1)
  {
    assert children[i] == (SELF_ATTN, children[i].1);
    if j :| 0 <= j < i && children[j].0 == SELF_ATTN {
      NamesAreUnique(g[parent], j, i);
    }
  }

  lemma {:induction false} NamesAreUnique(edges: seq<Edge>, j: nat, i: nat)
    requires UniqueNames(edges) && j < i < |NamedChildren(edges)|
    ensures NamedChildren(edges)[j].0 != NamedChildren(edges)[i].0
  {
    var n := |edges| - 1;
    if i < |NamedChildren(edges[..n])| {
      NamesAreUnique(edges[..n], j, i);
    } else {
      var c := NamedChildren(edges[..n])[j];
      assert c == (c.0, c.1) && c in NamedChildren(edges[..n]);
      NamedChildIsRegistered(edges[..n], c.0, c.1);
    }
  }

  ghost function ReachSet(g: Graph, root: Module): set<Module> {
    set m | m in g && Reachable(g, root, m)
  }

  lemma VisitedIsReachable(g: Graph, root: Module, visited: set<Module>, done: set<Module>, targets: seq<Target>)
    requires Searching(g, root, visited, done, targets) && root in visited && Finished(g, visited, visited)
    ensures visited == ReachSet(g, root)
  {
    forall m | m in g && Reachable(g, root, m)
      ensures m in visited
    {
      var k: nat :| m in Within(g, root, k);
      ClosedSetHoldsReachable(g, root, visited, k);
    }
  }

  datatype SwapError = BadMode | NoAttention | Raised

  /** No module that the search reaches reports a self_attn. */
  ghost predicate NothingToSwap(g: Graph, model: Module) {
    forall m, c | m in ReachSet(g, model) && c in NamedChildren(g[m]) :: c.0 != SELF_ATTN
  }

  lemma TargetsMeanAttention(g: Graph, model: Module, targets: seq<Target>)
    requires Exact(g, ReachSet(g, model), targets) && targets != []
    ensures !NothingToSwap(g, model)
  {
    var t := targets[0];
    assert TargetExact(g, ReachSet(g, model), t);
    var p := t.parents[0];
    assert p in t.parents && (SELF_ATTN, t.attention) in NamedChildren(g[p]);
  }

  /**
   * The search ends on any finite graph, shared or cyclic, and finds every module reached without
   * crossing a self_attn that reports one, each once, by the attention it references.
   */
  method FindAttentionTargets(model: Module, ghost g: Graph) returns (r: Result<seq<Target>, SwapError>)
    requires g == Snapshot(g.Keys) && Closed(g) && model in g
    ensures r.Ok? ==> Exact(g, ReachSet(g, model), r.value)
    ensures r == Err(NoAttention) <==> NothingToSwap(g, model)
    ensures r.Err? ==> r.error == NoAttention
  {
    assert model in Within(g, model, 0);
    var visited, targets;
    ghost var done;
    visited, targets, done := Visit(model, {}, [], g, model, {});
    VisitedIsReachable(g, model, visited, done, targets);
    assert done == visited;
    if targets == [] {
      return Err(NoAttention);
    }
    TargetsMeanAttention(g, model, targets);
    r := Ok(targets);
  }

  // ---- rewiring -----------------------------------------------------------------------------

  function GetSelf(edges: seq<Edge>): Option<Module> {
    if edges == [] then None
    else if edges[0].name == SELF_ATTN then edges[0].target
    else GetSelf(edges[1..])
  }

  function SetSelf(edges: seq<Edge>, target: Option<Module>): seq<Edge> {
    seq(|edges|, i requires 0 <= i < |edges| =>
      if edges[i].name == SELF_ATTN then Edge(SELF_ATTN, target) else edges[i])
  }

  lemma {:induction false} GetSelfAt(edges: seq<Edge>, k: nat)
    requires UniqueNames(edges) && k < |edges| && edges[k].name == SELF_ATTN
    ensures GetSelf(edges) == edges[k].target
  {
    if k > 0 { GetSelfAt(edges[1..], k - 1); }
  }

  lemma AttendedIsSelf(edges: seq<Edge>, a: Module)
    requires UniqueNames(edges) && Attends(edges, a)
    ensures GetSelf(edges) == Some(a)
  {
    NamedChildIsRegistered(edges, SELF_ATTN, a);
    var k :| 0 <= k < |edges| && edges[k] == Edge(SELF_ATTN, Some(a)) && !Reaches(edges[..k], a);
    GetSelfAt(edges, k);
  }

  /** Setting self_attn back undoes any setting of it. */
  lemma SetSelfUndone(edges: seq<Edge>, m: Option<Module>)
    requires UniqueNames(edges)
    ensures SetSelf(SetSelf(edges, m), GetSelf(edges)) == edges == SetSelf(edges, GetSelf(edges))
  {
    if k :| 0 <= k < |edges| && edges[k].name == SELF_ATTN {
      GetSelfAt(edges, k);
    }
  }

  /** A reference as it was before it was replaced. */
  datatype Saved = Saved(parent: Module, original: Option<Module>)

  /** Every module is as it was, or has only its self_attn replaced and is saved. */
  ghost predicate Restorable(g: Graph, saved: seq<Saved>)
    reads g.Keys
  {
    && (forall m | m in g :: UniqueNames(g[m]))
    && (forall s | s in saved :: s.parent in g && s.original == GetSelf(g[s.parent]))
    && forall m | m in g :: m.children == g[m] || ReplacedAndSaved(g, m, saved)
  }

  ghost predicate ReplacedAndSaved(g: Graph, m: Module, saved: seq<Saved>)
    requires m in g
    reads m
  {
    && (exists s :: s in saved && s.parent == m)
    && exists i :: 0 <= i < |g[m]| && g[m][i].name == SELF_ATTN && i < |m.children|
                   && m.children == SetSelf(g[m], m.children[i].target)
  }

  method RestoreOne(s: Saved, rest: seq<Saved>, ghost g: Graph)
    requires Restorable(g, [s] + rest)
    modifies s.parent
    ensures Restorable(g, rest)
  {
    assert s in [s] + rest && forall x | x in rest :: x in [s] + rest;
    ghost var edges, was := g[s.parent], s.parent.children;
    SetSelfUndone(edges, GetSelf(edges));
    if was != edges {
      var k :| 0 <= k < |edges| && edges[k].name == SELF_ATTN && k < |was| && was == SetSelf(edges, was[k].target);
      SetSelfUndone(edges, was[k].target);
    }
    s.parent.children := SetSelf(s.parent.children, s.original);
    assert s.parent.children == edges;
  }

  /** Put every saved reference back. */
  method Restore(saved: seq<Saved>, ghost g: Graph)
    requires Restorable(g, saved)
    modifies g.Keys
    ensures g == Snapshot(g.Keys)
  {
    for i := 0 to |saved|
      invariant Restorable(g, saved[i..])
    {
      assert saved[i..] == [saved[i]] + saved[i + 1..];
      assert saved[i] in saved[i..];
      RestoreOne(saved[i], saved[i + 1..], g);
    }
  }

  /** The modules processed reference their attention's wrapper; every other edge is as it was. */
  ghost predicate RewiredTo(g: Graph, processed: set<Module>, wrapperOf: map<Module, Module>)
    reads g.Keys
  {
    && processed <= g.Keys
    && forall m | m in g ::
         if m in processed
         then GetSelf(g[m]).Some? && GetSelf(g[m]).value in wrapperOf
              && m.children == SetSelf(g[m], Some(wrapperOf[GetSelf(g[m]).value]))
         else m.children == g[m]
  }

  ghost predicate AllSaved(g: Graph, processed: set<Module>, saved: seq<Saved>) {
    && (forall m | m in g :: UniqueNames(g[m]))
    && (forall s | s in saved :: s.parent in g && s.original == GetSelf(g[s.parent]))
    && forall m | m in processed :: exists s :: s in saved && s.parent == m
  }

  lemma {:induction false} SelfIndex(edges: seq<Edge>) returns (k: nat)
    requires GetSelf(edges).Some?
    ensures k < |edges| && edges[k].name == SELF_ATTN
  {
    if edges[0].name == SELF_ATTN {
      k := 0;
    } else {
      k := SelfIndex(edges[1..]);
      k := k + 1;
    }
  }

  lemma RewiredIsRestorable(g: Graph, processed: set<Module>, wrapperOf: map<Module, Module>, saved: seq<Saved>)
    requires RewiredTo(g, processed, wrapperOf) && AllSaved(g, processed, saved)
    ensures Restorable(g, saved)
  {
    forall m | m in g
      ensures m.children == g[m] || ReplacedAndSaved(g, m, saved)
    {
      if m in processed {
        var k := SelfIndex(g[m]);
        assert m.children[k].target == Some(wrapperOf[GetSelf(g[m]).value]);
      }
    }
  }

  /** Whether one more operation raises, and how many more do not. */
  function Raises(budget: Option<nat>): bool { budget == Some(0) }

  function Spent(budget: Option<nat>): Option<nat>
    requires !Raises(budget)
  {
    if budget.None? then None else Some(budget.value - 1)
  }

  ghost function SetOf(parents: seq<Module>): set<Module> {
    set p | p in parents
  }

  /** Save one reference, and point it at the wrapper unless that raises. */
  method RewireOne(parent: Module, attention: Module, wrapper: Module, saved0: seq<Saved>, raises: bool, ghost g: Graph,
                   ghost processed: set<Module>, ghost wrapperOf: map<Module, Module>)
    returns (saved: seq<Saved>)
    requires RewiredTo(g, processed, wrapperOf) && AllSaved(g, processed, saved0)
    requires attention in wrapperOf && wrapperOf[attention] == wrapper
    requires parent in g && parent !in processed && GetSelf(g[parent]) == Some(attention)
    modifies parent
    ensures AllSaved(g, processed + {parent}, saved)
    ensures RewiredTo(g, if raises then processed else processed + {parent}, wrapperOf)
  {
    saved := saved0 + [Saved(parent, GetSelf(parent.children))];
    assert Saved(parent, GetSelf(g[parent])) in saved;
    assert forall s | s in saved0 :: s in saved;
    if !raises {
      parent.children := SetSelf(parent.children, Some(wrapper));
    }
  }

  /** Point every reference of one target at its wrapper. */
  method RewireTarget(t: Target, wrapper: Module, saved0: seq<Saved>, budget0: Option<nat>, ghost g: Graph,
                      ghost processed: set<Module>, ghost wrapperOf: map<Module, Module>)
    returns (ok: bool, saved: seq<Saved>, budget: Option<nat>)
    requires RewiredTo(g, processed, wrapperOf) && AllSaved(g, processed, saved0)
    requires t.attention in wrapperOf && wrapperOf[t.attention] == wrapper && NoDuplicates(t.parents)
    requires forall p | p in t.parents :: p in g && p !in processed && GetSelf(g[p]) == Some(t.attention)
    modifies g.Keys
    ensures ok ==> RewiredTo(g, processed + SetOf(t.parents), wrapperOf)
                   && AllSaved(g, processed + SetOf(t.parents), saved)
    ensures !ok ==> Restorable(g, saved)
    ensures budget0.None? ==> ok && budget.None?
  {
    ok, saved, budget := true, saved0, budget0;
    ghost var before := processed;
    for i := 0 to |t.parents|
      invariant budget0.None? ==> budget.None?
      invariant before == processed + SetOf(t.parents[..i])
      invariant RewiredTo(g, before, wrapperOf) && AllSaved(g, before, saved)
    {
      var parent, raises := t.parents[i], Raises(budget);
      assert parent in t.parents && parent !in before;
      saved := RewireOne(parent, t.attention, wrapper, saved, raises, g, before, wrapperOf);
      if raises {
        RewiredIsRestorable(g, before, wrapperOf, saved);
        return false, saved, budget;
      }
      budget, before := Spent(budget), before + {parent};
      assert t.parents[..i + 1] == t.parents[..i] + [parent];
    }
    assert t.parents[..|t.parents|] == t.parents;
  }

  const WRAPPED := "_wrapped"

  function AdjacentPairs(wrappers: seq<Module>): (pairs: seq<(Module, Module)>)
    ensures |pairs| == if wrappers == [] then 0 else |wrappers| - 1
  {
    seq(if wrappers == [] then 0 else |wrappers| - 1, i requires 0 <= i < |wrappers| - 1 =>
      (wrappers[i], wrappers[i + 1]))
  }

  /** The parents of the first k targets. */
  ghost function ParentsOf(targets: seq<Target>, k: nat): set<Module>
    requires k <= |targets|
  {
    set i, p | 0 <= i < k && p in targets[i].parents :: p
  }

  /** One wrapper of its own for each attention of the first k targets, holding that attention. */
  ghost predicate WrapsFirst(targets: seq<Target>, k: nat, wrappers: seq<Module>, wrapperOf: map<Module, Module>)
    requires k <= |targets|
    reads wrappers
  {
    && |wrappers| == k
    && (forall i | 0 <= i < k :: targets[i].attention in wrapperOf && wrapperOf[targets[i].attention] == wrappers[i])
    && (forall a | a in wrapperOf :: exists i :: 0 <= i < k && targets[i].attention == a)
    && (forall i, j | 0 <= i < j < k :: wrappers[i] != wrappers[j])
    && forall i | 0 <= i < k :: wrappers[i].children == [Edge(WRAPPED, Some(targets[i].attention))]
  }

  lemma NextTargetIsUnprocessed(g: Graph, done: set<Module>, targets: seq<Target>, k: nat)
    requires Closed(g) && done <= g.Keys && Exact(g, done, targets) && k < |targets|
    ensures forall p | p in targets[k].parents ::
              p in g && p !in ParentsOf(targets, k) && GetSelf(g[p]) == Some(targets[k].attention)
    ensures ParentsOf(targets, k + 1) == ParentsOf(targets, k) + SetOf(targets[k].parents)
  {
    assert TargetExact(g, done, targets[k]);
    forall p | p in targets[k].parents
      ensures p !in ParentsOf(targets, k) && GetSelf(g[p]) == Some(targets[k].attention)
    {
      assert Attends(g[p], targets[k].attention);
      AttendedIsSelf(g[p], targets[k].attention);
      if p in ParentsOf(targets, k) {
        var i :| 0 <= i < k && p in targets[i].parents;
        assert TargetExact(g, done, targets[i]);
        OneAttention(g[p], targets[i].attention, targets[k].attention);
      }
    }
  }

  /** Wrap the next target's attention. */
  method WrapNext(targets: seq<Target>, k: nat, wrappers0: seq<Module>, ghost wrapperOf0: map<Module, Module>,
                  ghost g: Graph, ghost processed: set<Module>)
    returns (wrapper: Module, wrappers: seq<Module>, ghost wrapperOf: map<Module, Module>)
    requires k < |targets| && WrapsFirst(targets, k, wrappers0, wrapperOf0)
    requires forall i, j | 0 <= i < j < |targets| :: targets[i].attention != targets[j].attention
    requires RewiredTo(g, processed, wrapperOf0)
    ensures fresh(wrapper) && wrappers == wrappers0 + [wrapper]
    ensures wrapperOf == wrapperOf0[targets[k].attention := wrapper]
    ensures WrapsFirst(targets, k + 1, wrappers, wrapperOf)
    ensures RewiredTo(g, processed, wrapperOf)
  {
    assert targets[k].attention !in wrapperOf0;
    wrapper := new Module([Edge(WRAPPED, Some(targets[k].attention))]);
    wrapperOf, wrappers := wrapperOf0[targets[k].attention := wrapper], wrappers0 + [wrapper];
  }

  /** The first k targets are wrapped and rewired, and their references saved. */
  ghost predicate Wiring(g: Graph, targets: seq<Target>, k: nat, saved: seq<Saved>, wrappers: seq<Module>,
                         wrapperOf: map<Module, Module>)
    requires k <= |targets|
    reads g.Keys, wrappers
  {
    && RewiredTo(g, ParentsOf(targets, k), wrapperOf) && AllSaved(g, ParentsOf(targets, k), saved)
    && WrapsFirst(targets, k, wrappers, wrapperOf)
  }

  method RewireNext(targets: seq<Target>, k: nat, saved0: seq<Saved>, budget0: Option<nat>, wrappers0: seq<Module>,
                    ghost wrapperOf0: map<Module, Module>, ghost g: Graph, ghost done: set<Module>)
    returns (ok: bool, saved: seq<Saved>, budget: Option<nat>, wrappers: seq<Module>,
             ghost wrapperOf: map<Module, Module>)
    requires Closed(g) && done <= g.Keys && Exact(g, done, targets) && k < |targets|
    requires Wiring(g, targets, k, saved0, wrappers0, wrapperOf0) && !Raises(budget0)
    requires forall w | w in wrappers0 :: w !in g
    modifies g.Keys
    ensures forall w | w in wrappers :: (w in wrappers0 || fresh(w)) && w !in g
    ensures ok ==> Wiring(g, targets, k + 1, saved, wrappers, wrapperOf)
    ensures !ok ==> Restorable(g, saved)
    ensures budget0.None? ==> ok && budget.None?
  {
    var wrapper;
    wrapper, wrappers, wrapperOf := WrapNext(targets, k, wrappers0, wrapperOf0, g, ParentsOf(targets, k));
    ok, saved, budget := RewireWrapped(targets, k, saved0, Spent(budget0), wrappers, wrapperOf, g, done);
  }

  method RewireWrapped(targets: seq<Target>, k: nat, saved0: seq<Saved>, budget0: Option<nat>, wrappers: seq<Module>,
                       ghost wrapperOf: map<Module, Module>, ghost g: Graph, ghost done: set<Module>)
    returns (ok: bool, saved: seq<Saved>, budget: Option<nat>)
    requires Closed(g) && done <= g.Keys && Exact(g, done, targets) && k < |targets|
    requires RewiredTo(g, ParentsOf(targets, k), wrapperOf) && AllSaved(g, ParentsOf(targets, k), saved0)
    requires WrapsFirst(targets, k + 1, wrappers, wrapperOf) && forall w | w in wrappers :: w !in g
    modifies g.Keys
    ensures ok ==> Wiring(g, targets, k + 1, saved, wrappers, wrapperOf)
    ensures !ok ==> Restorable(g, saved)
    ensures budget0.None? ==> ok && budget.None?
  {
    NextTargetIsUnprocessed(g, done, targets, k);
    assert TargetExact(g, done, targets[k]);
    ok, saved, budget := RewireTarget(targets[k], wrappers[k], saved0, budget0, g, ParentsOf(targets, k), wrapperOf);
  }

  /** Wrap and rewire every target in order; wrapping and setting may each raise. */
  method RewireAll(targets: seq<Target>, budget0: Option<nat>, ghost g: Graph, ghost done: set<Module>)
    returns (ok: bool, saved: seq<Saved>, budget: Option<nat>, wrappers: seq<Module>,
             ghost wrapperOf: map<Module, Module>)
    requires g == Snapshot(g.Keys) && Closed(g) && done <= g.Keys && Exact(g, done, targets)
    modifies g.Keys
    ensures ok ==> Wiring(g, targets, |targets|, saved, wrappers, wrapperOf)
    ensures forall w | w in wrappers :: fresh(w) && w !in g
    ensures Restorable(g, saved)
    ensures budget0.None? ==> ok && budget.None?
  {
    ok, saved, budget, wrappers, wrapperOf := true, [], budget0, [], map[];
    for k := 0 to |targets|
      invariant Wiring(g, targets, k, saved, wrappers, wrapperOf)
      invariant forall w | w in wrappers :: fresh(w) && w !in g
      invariant budget0.None? ==> budget.None?
    {
      RewiredIsRestorable(g, ParentsOf(targets, k), wrapperOf, saved);
      ok := !Raises(budget);
      if ok {
        ok, saved, budget, wrappers, wrapperOf := RewireNext(targets, k, saved, budget, wrappers, wrapperOf, g, done);
      }
      if !ok {
        return;
      }
    }
    RewiredIsRestorable(g, ParentsOf(targets, |targets|), wrapperOf, saved);
  }

  /** The parents that attention swap rewires: reached, and reporting a self_attn. */
  ghost function Rewired(g: Graph, model: Module): set<Module> {
    set m | m in ReachSet(g, model) && HasAttention(g[m])
  }

  lemma ParentsAreTheRewired(g: Graph, model: Module, targets: seq<Target>)
    requires Exact(g, ReachSet(g, model), targets)
    ensures ParentsOf(targets, |targets|) == Rewired(g, model)
  {
    forall p | p in ParentsOf(targets, |targets|)
      ensures p in Rewired(g, model)
    {
      var i :| 0 <= i < |targets| && p in targets[i].parents;
      assert TargetExact(g, ReachSet(g, model), targets[i]);
      AttendsHasAttention(g[p], targets[i].attention);
    }
    forall p | p in Rewired(g, model)
      ensures p in ParentsOf(targets, |targets|)
    {
      var c :| 0 <= c < |NamedChildren(g[p])| && NamedChildren(g[p])[c].0 == SELF_ATTN;
      var a := NamedChildren(g[p])[c].1;
      assert NamedChildren(g[p])[c] == (SELF_ATTN, a) && NamedChildren(g[p])[c] in NamedChildren(g[p]);
      assert Listed(targets, a);
      var i :| 0 <= i < |targets| && targets[i].attention == a;
      assert TargetExact(g, ReachSet(g, model), targets[i]);
      assert p in targets[i].parents;
    }
  }

  /** Every reference to one attention is one new wrapper's, no two attentions share one, and the rest is as it was. */
  ghost predicate Swapped(g: Graph, model: Module, wrapperOf: map<Module, Module>)
    reads g.Keys
  {
    && RewiredTo(g, Rewired(g, model), wrapperOf)
    && (forall a, b | a in wrapperOf && b in wrapperOf && a != b :: wrapperOf[a] != wrapperOf[b])
    && forall a | a in wrapperOf :: wrapperOf[a] !in g
  }

  lemma WiredIsSwapped(g: Graph, model: Module, targets: seq<Target>, saved: seq<Saved>, wrappers: seq<Module>,
                       wrapperOf: map<Module, Module>)
    requires Exact(g, ReachSet(g, model), targets) && forall w | w in wrappers :: w !in g
    requires Wiring(g, targets, |targets|, saved, wrappers, wrapperOf)
    ensures Swapped(g, model, wrapperOf)
    ensures forall a | a in wrapperOf :: wrapperOf[a] in wrappers && wrapperOf[a].children == [Edge(WRAPPED, Some(a))]
  {
    ParentsAreTheRewired(g, model, targets);
    forall a | a in wrapperOf
      ensures wrapperOf[a] in wrappers && wrapperOf[a].children == [Edge(WRAPPED, Some(a))]
    {
      var i :| 0 <= i < |targets| && targets[i].attention == a;
      assert wrapperOf[targets[i].attention] == wrappers[i];
    }
    forall a, b | a in wrapperOf && b in wrapperOf && a != b
      ensures wrapperOf[a] != wrapperOf[b]
    {
      assert wrapperOf[a].children == [Edge(WRAPPED, Some(a))] && wrapperOf[b].children == [Edge(WRAPPED, Some(b))];
    }
  }

  /** After a swap, a reached parent's self_attn is its wrapper, unless an earlier name holds the same module. */
  lemma ReplacedUnlessAliased(g: Graph, model: Module, wrapperOf: map<Module, Module>, p: Module, k: nat, a: Module)
    requires Closed(g) && Swapped(g, model, wrapperOf) && p in ReachSet(g, model)
    requires k < |g[p]| && g[p][k] == Edge(SELF_ATTN, Some(a))
    ensures Reaches(g[p][..k], a) ==> p.children == g[p]
    ensures !Reaches(g[p][..k], a) ==>
              && a in wrapperOf && wrapperOf[a] != a
              && k < |p.children| && p.children[k] == Edge(SELF_ATTN, Some(wrapperOf[a]))
  {
    AliasedAttentionIsNotFound(g[p], k, a);
    GetSelfAt(g[p], k);
    if !Reaches(g[p][..k], a) {
      assert (SELF_ATTN, a) in NamedChildren(g[p]);
      assert a in g;
    }
  }

  /** Every self_attn the search reaches is replaced. */
  ghost predicate AllReplaced(g: Graph, model: Module)
    reads g.Keys
  {
    forall p, k | p in ReachSet(g, model) && 0 <= k < |g[p]| && g[p][k].name == SELF_ATTN && g[p][k].target.Some? ::
      k < |p.children| && p.children[k].target != g[p][k].target
  }

  /** No parent reached registers its self_attn by an earlier name too. */
  ghost predicate NoEarlierAlias(g: Graph, model: Module) {
    forall p, k | p in ReachSet(g, model) && 0 <= k < |g[p]| && g[p][k].name == SELF_ATTN && g[p][k].target.Some? ::
      !Reaches(g[p][..k], g[p][k].target.value)
  }

  /** A swap replaces every self_attn it reaches exactly when none is registered by an earlier name too. */
  lemma AllReplacedIffNoAlias(g: Graph, model: Module, wrapperOf: map<Module, Module>)
    requires Closed(g) && Swapped(g, model, wrapperOf)
    ensures AllReplaced(g, model) <==> NoEarlierAlias(g, model)
  {
    forall p, k | p in ReachSet(g, model) && 0 <= k < |g[p]| && g[p][k].name == SELF_ATTN && g[p][k].target.Some?
      ensures k < |p.children|
      ensures p.children[k].target != g[p][k].target <==> !Reaches(g[p][..k], g[p][k].target.value)
    {
      var a := g[p][k].target.value;
      assert g[p][k] == Edge(SELF_ATTN, Some(a));
      ReplacedUnlessAliased(g, model, wrapperOf, p, k, a);
    }
  }

  /**
   * Whether linking n wrappers raises: the manager is made, each of the n - 1 pairs is linked, and the
   * finalizer is registered.
   */
  predicate LinkingRaises(budget: Option<nat>, n: nat) {
    budget.Some? && budget.value <= n
  }

  /**
   * Wrap the attention modules in place.  Whatever operation raises, every edge is as it was; with
   * none raising, every parent that the search records references its attention's wrapper.
   */
  method ApplyAttentionSwap(model: Module, mode: string, failing: Option<nat>, ghost g: Graph)
    returns (r: Result<seq<(Module, Module)>, SwapError>, wrappers: seq<Module>, ghost wrapperOf: map<Module, Module>)
    requires g == Snapshot(g.Keys) && Closed(g) && model in g
    modifies g.Keys
    ensures r.Err? ==> g == Snapshot(g.Keys)
    ensures mode != "attention" ==> r == Err(BadMode)
    ensures mode == "attention" ==> (r == Err(NoAttention) <==> NothingToSwap(g, model))
    ensures mode == "attention" && failing.None? && !NothingToSwap(g, model) ==> r.Ok?
    ensures r.Ok? ==> Swapped(g, model, wrapperOf) && r.value == AdjacentPairs(wrappers)
    ensures forall w | w in wrappers :: fresh(w)
    ensures r.Ok? ==> forall a | a in wrapperOf ::
              wrapperOf[a] in wrappers && wrapperOf[a].children == [Edge(WRAPPED, Some(a))]
  {
    wrappers, wrapperOf := [], map[];
    if mode != "attention" {
      r := Err(BadMode);
      return;
    }
    var found := FindAttentionTargets(model, g);
    if found.Err? {
      r := Err(found.error);
      return;
    }
    var targets := found.value;
    var ok, saved, budget;
    ok, saved, budget, wrappers, wrapperOf := RewireAll(targets, failing, g, ReachSet(g, model));
    if !ok || LinkingRaises(budget, |wrappers|) {
      Restore(saved, g);
      r := Err(Raised);
      return;
    }
    WiredIsSwapped(g, model, targets, saved, wrappers, wrapperOf);
    r := Ok(AdjacentPairs(wrappers));
  }
}
