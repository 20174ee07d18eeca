/** Recompute regions: which dotted module names are checkpointed, and which are kept out. */
module RecomputeRegions {
  import opened Common

  type Fqn = string

  // ---- dotted names -------------------------------------------------------------------

  /** Whether a name lies strictly below another. */
  predicate Under(name: Fqn, other: Fqn) {
    other + "." <= name
  }

  predicate Within(name: Fqn, other: Fqn) {
    name == other || Under(name, other)
  }

  lemma UnderIsTransitive(a: Fqn, b: Fqn, c: Fqn)
    requires Under(a, b) && Under(b, c)
    ensures Under(a, c)
  {
  }

  /** Two names above one name are one above the other. */
  lemma AncestorsAreOrdered(name: Fqn, a: Fqn, b: Fqn)
    requires Within(name, a) && Within(name, b)
    ensures Within(a, b) || Within(b, a)
  {
    if |a| == |b| {
      assert a == name[..|a|] && b == name[..|b|];
    } else if Under(name, a) && Under(name, b) {
      if |a| < |b| {
        assert b == name[..|b|] && a + "." == name[..|a| + 1] == b[..|a| + 1];
      } else {
        assert a == name[..|a|] && b + "." == name[..|b| + 1] == a[..|b| + 1];
      }
    }
  }

  // ---- selection ----------------------------------------------------------------------

  function Filter(names: seq<Fqn>, keep: Fqn -> bool): (kept: seq<Fqn>)
    ensures forall n :: n in kept <==> n in names && keep(n)
  {
    if names == [] then []
    else
      var last := names[|names| - 1];
      Filter(names[..|names| - 1], keep) + (if keep(last) then [last] else [])
  }

  function Matched(names: seq<Fqn>, matches: Fqn -> bool): seq<Fqn> {
    Filter(names, n => n != "" && matches(n))
  }

  function Outermost(matched: seq<Fqn>): seq<Fqn> {
    Filter(matched, n => !exists o :: o in matched && n != o && Under(n, o))
  }

  /** A selected layer: a block of a container of repeated blocks, named below it. */
  datatype Block = Block(container: Fqn, child: string) {
    function Name(): Fqn { container + "." + child }
  }

  /** The checkpoint region roots inside the selected layers. */
  function Roots(names: seq<Fqn>, matches: Fqn -> bool, layers: set<Block>): seq<Fqn> {
    Filter(Outermost(Matched(names, matches)), n => exists l :: l in layers && Within(n, l.Name()))
  }

  function Excluded(names: seq<Fqn>, roots: seq<Fqn>, excludes: Fqn -> bool): seq<Fqn> {
    Filter(names, n => (exists r :: r in roots && Within(n, r)) && excludes(n))
  }

  /** The outermost matches are those with no match above them. */
  lemma OutermostMeans(matched: seq<Fqn>, n: Fqn)
    ensures n in Outermost(matched) <==> n in matched && forall o | o in matched :: !Under(n, o)
  {
  }

  /** No outermost match lies below another. */
  lemma OutermostIsAntichain(matched: seq<Fqn>, a: Fqn, b: Fqn)
    requires a in Outermost(matched) && b in Outermost(matched)
    ensures !Under(a, b)
  {
    OutermostMeans(matched, a);
    OutermostMeans(matched, b);
  }

  /** Every match lies in exactly one outermost match. */
  lemma {:induction false} OutermostAncestor(matched: seq<Fqn>, n: Fqn) returns (root: Fqn)
    requires n in matched
    ensures root in Outermost(matched) && Within(n, root)
    ensures forall o | o in Outermost(matched) && Within(n, o) :: o == root
    decreases |n|
  {
    OutermostMeans(matched, n);
    if n in Outermost(matched) {
      root := n;
    } else {
      var o :| o in matched && Under(n, o);
      root := OutermostAncestor(matched, o);
      if Under(o, root) { UnderIsTransitive(n, o, root); }
    }
    forall o | o in Outermost(matched) && Within(n, o)
      ensures o == root
    {
      AncestorsAreOrdered(n, o, root);
      OutermostIsAntichain(matched, o, root);
      OutermostIsAntichain(matched, root, o);
    }
  }

  /** The roots are exactly the matches with no match above them that lie in a selected layer. */
  lemma RootsAre(names: seq<Fqn>, matches: Fqn -> bool, layers: set<Block>, n: Fqn)
    ensures n in Roots(names, matches, layers) <==>
            && n in names && n != "" && matches(n)
            && (forall o | o in names && o != "" && matches(o) :: !Under(n, o))
            && exists l :: l in layers && Within(n, l.Name())
  {
    OutermostMeans(Matched(names, matches), n);
  }

  lemma RootsAreAntichain(names: seq<Fqn>, matches: Fqn -> bool, layers: set<Block>, a: Fqn, b: Fqn)
    requires a in Roots(names, matches, layers) && b in Roots(names, matches, layers)
    ensures !Under(a, b)
  {
    OutermostIsAntichain(Matched(names, matches), a, b);
  }

  ghost predicate Antichain(roots: seq<Fqn>) {
    forall a, b | a in roots && b in roots :: !Under(a, b)
  }

  /** Every excluded module that is no root lies strictly below exactly one root. */
  lemma ExclusionHasOneRoot(names: seq<Fqn>, roots: seq<Fqn>, excludes: Fqn -> bool, n: Fqn) returns (root: Fqn)
    requires Antichain(roots) && n in Excluded(names, roots, excludes) && n !in roots
    ensures root in roots && Under(n, root)
    ensures forall r | r in roots && Within(n, r) :: r == root
  {
    root :| root in roots && Within(n, root);
    forall r | r in roots && Within(n, r)
      ensures r == root
    {
      AncestorsAreOrdered(n, r, root);
    }
  }

  /** In a tree no exclusion that is no root holds a root. */
  lemma NoRootInsideExclusion(names: seq<Fqn>, roots: seq<Fqn>, excludes: Fqn -> bool, n: Fqn, r: Fqn)
    requires Antichain(roots) && n in Excluded(names, roots, excludes) && n !in roots && r in roots
    ensures !Under(r, n)
  {
    var root := ExclusionHasOneRoot(names, roots, excludes, n);
    if Under(r, n) { UnderIsTransitive(r, n, root); }
  }

  // ---- wrapping, deepest first ------------------------------------------------------------

  datatype Wrapper = Checkpoint | Exclude

  datatype RegionError = NoRegion | NoExclusion | RootExcluded | RootInsideExclusion | NothingWrapped

  function Dots(name: Fqn): nat {
    if name == "" then 0 else Dots(name[..|name| - 1]) + (if name[|name| - 1] == '.' then 1 else 0)
  }

  lemma {:induction false} UnderHasDots(name: Fqn, other: Fqn)
    requires Under(name, other)
    ensures Dots(name) > 0 && Dots(name) > Dots(other)
    decreases |name|
  {
    if |name| == |other| + 1 {
      assert name == other + "." && name[..|name| - 1] == other;
    } else {
      assert other + "." <= name[..|name| - 1];
      UnderHasDots(name[..|name| - 1], other);
    }
  }

  function InsertByDots(name: Fqn, sorted: seq<Fqn>): seq<Fqn> {
    if sorted == [] then [name]
    else
      var n := |sorted| - 1;
      if Dots(sorted[n]) < Dots(name) then InsertByDots(name, sorted[..n]) + [sorted[n]] else sorted + [name]
  }

  /** Names by how deep they are, the deepest first, names of one depth in their order. */
  function DeepestFirst(names: seq<Fqn>): seq<Fqn> {
    if names == [] then [] else InsertByDots(names[|names| - 1], DeepestFirst(names[..|names| - 1]))
  }

  ghost predicate Descending(names: seq<Fqn>) {
    forall i, j | 0 <= i < j < |names| :: Dots(names[i]) >= Dots(names[j])
  }

  lemma {:induction false} InsertKeeps(name: Fqn, sorted: seq<Fqn>)
    requires Descending(sorted)
    ensures Descending(InsertByDots(name, sorted))
    ensures forall x :: x in InsertByDots(name, sorted) <==> x == name || x in sorted
  {
    if sorted != [] {
      var n := |sorted| - 1;
      if Dots(sorted[n]) < Dots(name) {
        InsertKeeps(name, sorted[..n]);
        var rest := InsertByDots(name, sorted[..n]);
        assert sorted == sorted[..n] + [sorted[n]];
        forall i | 0 <= i < |rest|
          ensures Dots(rest[i]) >= Dots(sorted[n])
        {
          assert rest[i] in rest;
          if rest[i] != name {
            assert rest[i] in sorted[..n];
          }
        }
      }
    }
  }

  lemma {:induction false} DeepestFirstSorts(names: seq<Fqn>)
    ensures Descending(DeepestFirst(names))
    ensures forall x :: x in DeepestFirst(names) <==> x in names
  {
    if names != [] {
      var n := |names| - 1;
      DeepestFirstSorts(names[..n]);
      InsertKeeps(names[n], DeepestFirst(names[..n]));
      assert names == names[..n] + [names[n]];
    }
  }

  /** Every root lies in a layer's block, so its name has a parent's name to split off. */
  lemma RootsHaveParents(names: seq<Fqn>, matches: Fqn -> bool, layers: set<Block>, n: Fqn)
    requires n in Roots(names, matches, layers)
    ensures Dots(n) > 0
  {
    RootsAre(names, matches, layers, n);
    var l :| l in layers && Within(n, l.Name());
    assert Under(l.Name(), l.container);
    if Under(n, l.Name()) { UnderIsTransitive(n, l.Name(), l.container); }
    UnderHasDots(n, l.container);
  }

  /** Every exclusion that is no root lies below one, so it too has a parent's name. */
  lemma ExclusionsHaveParents(names: seq<Fqn>, roots: seq<Fqn>, excludes: Fqn -> bool, n: Fqn)
    requires Antichain(roots) && n in Excluded(names, roots, excludes) && n !in roots
    ensures Dots(n) > 0
  {
    var root := ExclusionHasOneRoot(names, roots, excludes, n);
    UnderHasDots(n, root);
  }

  // ---- the wrappers a tree holds -----------------------------------------------------------

  type Wrappers = map<Fqn, Wrapper>

  function Wrap(wrappers: Wrappers, name: Fqn, kind: Wrapper): Wrappers {
    if name in wrappers then wrappers else wrappers[name := kind]
  }

  /** A tree's wrappers once some more modules are wrapped; what was wrapped stays as it is. */
  function AllWrapped(wrappers: Wrappers, names: seq<Fqn>, kind: Wrapper): Wrappers {
    if names == [] then wrappers
    else Wrap(AllWrapped(wrappers, names[..|names| - 1], kind), names[|names| - 1], kind)
  }

  lemma WrapStep(before: Wrappers, names: seq<Fqn>, i: nat, kind: Wrapper)
    requires i < |names|
    ensures var w := AllWrapped(before, names[..i], kind);
            && AllWrapped(before, names[..i + 1], kind) == Wrap(w, names[i], kind)
            && |Wrap(w, names[i], kind)| == |w| + (if names[i] in w then 0 else 1)
  {
    assert names[..i + 1][..i] == names[..i];
  }

  /** Exactly the names given are added, each with the kind given. */
  lemma {:induction false} AllWrappedAt(wrappers: Wrappers, names: seq<Fqn>, kind: Wrapper)
    ensures forall n :: n in AllWrapped(wrappers, names, kind) <==> n in wrappers || n in names
    ensures forall n | n in wrappers :: AllWrapped(wrappers, names, kind)[n] == wrappers[n]
    ensures forall n | n in names && n !in wrappers :: AllWrapped(wrappers, names, kind)[n] == kind
  {
    if names != [] {
      var k := |names| - 1;
      AllWrappedAt(wrappers, names[..k], kind);
      assert names == names[..k] + [names[k]];
    }
  }

  /** The order of wrapping does not matter. */
  lemma SameNames(wrappers: Wrappers, a: seq<Fqn>, b: seq<Fqn>, kind: Wrapper)
    requires forall x :: x in a <==> x in b
    ensures AllWrapped(wrappers, a, kind) == AllWrapped(wrappers, b, kind)
  {
    AllWrappedAt(wrappers, a, kind);
    AllWrappedAt(wrappers, b, kind);
  }

  predicate AllAlready(names: seq<Fqn>, wrappers: Wrappers) {
    forall t | t in names :: t in wrappers
  }

  /** Nothing is added exactly when every name was wrapped before. */
  lemma {:induction false} NothingNew(before: Wrappers, names: seq<Fqn>, kind: Wrapper)
    ensures |AllWrapped(before, names, kind)| >= |before|
    ensures AllAlready(names, before) <==> |AllWrapped(before, names, kind)| == |before|
  {
    if names != [] {
      var k := |names| - 1;
      NothingNew(before, names[..k], kind);
      AllWrappedAt(before, names[..k], kind);
      assert names == names[..k] + [names[k]];
    }
  }

  /** A tree's wrappers once some exclusions and then some roots are wrapped. */
  function Declared(wrappers: Wrappers, roots: seq<Fqn>, excluded: seq<Fqn>): Wrappers {
    AllWrapped(AllWrapped(wrappers, excluded, Exclude), roots, Checkpoint)
  }

  /** How many roots that wraps; none is an error. */
  function Outcome(wrappers: Wrappers, roots: seq<Fqn>, excluded: seq<Fqn>): Result<nat, RegionError> {
    var kept := AllWrapped(wrappers, excluded, Exclude);
    NothingNew(kept, roots, Checkpoint);
    if AllAlready(roots, kept) then Err(NothingWrapped)
    else Ok(|Declared(wrappers, roots, excluded)| - |kept|)
  }

  /** Why nothing is wrapped, if the roots and the exclusions are refused. */
  function Refusal(roots: seq<Fqn>, excluded: seq<Fqn>, hasExcludePatterns: bool): Option<RegionError> {
    if roots == [] then Some(NoRegion)
    else if hasExcludePatterns && excluded == [] then Some(NoExclusion)
    else if exists n :: n in excluded && n in roots then Some(RootExcluded)
    else if exists n, r :: n in excluded && r in roots && Under(r, n) then Some(RootInsideExclusion)
    else None
  }

  lemma RootsFormAntichain(names: seq<Fqn>, matches: Fqn -> bool, layers: set<Block>)
    ensures Antichain(Roots(names, matches, layers))
  {
    forall a, b | a in Roots(names, matches, layers) && b in Roots(names, matches, layers)
      ensures !Under(a, b)
    {
      RootsAreAntichain(names, matches, layers, a, b);
    }
  }

  /** The last refusal never happens: it needs one module in two places, or a wrapper below another. */
  lemma OnlyThreeRefusals(names: seq<Fqn>, matches: Fqn -> bool, excludes: Fqn -> bool, layers: set<Block>,
                          patterns: bool)
    ensures var roots := Roots(names, matches, layers);
            Refusal(roots, Excluded(names, roots, excludes), patterns) != Some(RootInsideExclusion)
  {
    var roots := Roots(names, matches, layers);
    var excluded := Excluded(names, roots, excludes);
    RootsFormAntichain(names, matches, layers);
    forall n, r | n in excluded && r in roots && n !in roots
      ensures !Under(r, n)
    {
      NoRootInsideExclusion(names, roots, excludes, n, r);
    }
  }

  /** Everything an accepted declaration wraps has a parent's name. */
  lemma TargetsHaveParents(names: seq<Fqn>, matches: Fqn -> bool, excludes: Fqn -> bool, patterns: bool,
                           layers: set<Block>)
    requires var roots := Roots(names, matches, layers);
             Refusal(roots, Excluded(names, roots, excludes), patterns).None?
    ensures var roots := Roots(names, matches, layers);
            && (forall t | t in roots :: Dots(t) > 0)
            && forall t | t in Excluded(names, roots, excludes) :: Dots(t) > 0
  {
    var roots := Roots(names, matches, layers);
    RootsFormAntichain(names, matches, layers);
    forall t | t in roots
      ensures Dots(t) > 0
    {
      RootsHaveParents(names, matches, layers, t);
    }
    forall t | t in Excluded(names, roots, excludes)
      ensures Dots(t) > 0
    {
      ExclusionsHaveParents(names, roots, excludes, t);
    }
  }

  /** A tree of modules by name; a module's place may hold a wrapper of it. */
  class ModuleTree {
    var wrappers: Wrappers

    constructor ()
      ensures wrappers == map[]
    {
      wrappers := map[];
    }

    /** Wrap modules in place, deepest first; what is wrapped already is skipped and not counted. */
    method WrapAll(targets: seq<Fqn>, kind: Wrapper) returns (count: nat)
      requires forall t | t in targets :: Dots(t) > 0
      modifies this
      ensures wrappers == AllWrapped(old(wrappers), targets, kind)
      ensures count == |wrappers| - |old(wrappers)|
    {
      var sorted := DeepestFirst(targets);
      DeepestFirstSorts(targets);
      SameNames(wrappers, sorted, targets, kind);
      count := 0;
      ghost var before := wrappers;
      for i := 0 to |sorted|
        invariant wrappers == AllWrapped(before, sorted[..i], kind)
        invariant count == |wrappers| - |before|
      {
        WrapStep(before, sorted, i, kind);
        if sorted[i] !in wrappers {
          wrappers := wrappers[sorted[i] := kind];
          count := count + 1;
        }
      }
      assert sorted[..|sorted|] == sorted;
    }

    /** Put exclusion wrappers in place of the excluded modules. */
    method WrapExcluded(targets: seq<Fqn>) returns (count: nat)
      requires forall t | t in targets :: Dots(t) > 0
      modifies this
      ensures wrappers == AllWrapped(old(wrappers), targets, Exclude)
      ensures count == |wrappers| - |old(wrappers)|
    {
      count := WrapAll(targets, Exclude);
    }

    /** Put checkpoint wrappers in place of the roots; it is an error if that wraps nothing. */
    method WrapRoots(roots: seq<Fqn>) returns (r: Result<nat, RegionError>)
      requires forall t | t in roots :: Dots(t) > 0
      modifies this
      ensures wrappers == AllWrapped(old(wrappers), roots, Checkpoint)
      ensures r == if AllAlready(roots, old(wrappers)) then Err(NothingWrapped) else Ok(|wrappers| - |old(wrappers)|)
    {
      NothingNew(wrappers, roots, Checkpoint);
      var count := WrapAll(roots, Checkpoint);
      r := if count == 0 then Err(NothingWrapped) else Ok(count);
    }

    /**
     * Wrap the declared regions of the selected layers, and what they declare to stay out of them.  With
     * no layer selected nothing is done; a declaration that is not refused always ends with exactly its
     * exclusions and roots wrapped.
     */
    method ApplyRegions(names: seq<Fqn>, matches: Fqn -> bool, excludes: Fqn -> bool, hasExcludePatterns: bool,
                        layers: set<Block>) returns (r: Result<nat, RegionError>)
      modifies this
      ensures var roots := Roots(names, matches, layers);
              var excluded := Excluded(names, roots, excludes);
              var error := Refusal(roots, excluded, hasExcludePatterns);
              if layers == {} then r == Ok(0) && wrappers == old(wrappers)
              else if error.Some? then r == Err(error.value) && wrappers == old(wrappers)
              else r == Outcome(old(wrappers), roots, excluded)
                   && wrappers == Declared(old(wrappers), roots, excluded)
    {
      if layers == {} {
        return Ok(0);
      }
      var roots := Roots(names, matches, layers);
      var excluded := Excluded(names, roots, excludes);
      var error := Refusal(roots, excluded, hasExcludePatterns);
      if error.Some? {
        return Err(error.value);
      }
      TargetsHaveParents(names, matches, excludes, hasExcludePatterns, layers);
      r := WrapDeclared(roots, excluded);
    }

    method WrapDeclared(roots: seq<Fqn>, excluded: seq<Fqn>) returns (r: Result<nat, RegionError>)
      requires (forall t | t in roots :: Dots(t) > 0) && forall t | t in excluded :: Dots(t) > 0
      modifies this
      ensures r == Outcome(old(wrappers), roots, excluded) && wrappers == Declared(old(wrappers), roots, excluded)
    {
      var excludedCount := WrapExcluded(excluded);
      r := WrapRoots(roots);
    }
  }

  /** A tree without wrappers has nothing wrapped already: an accepted declaration succeeds. */
  lemma FreshTreeSucceeds(names: seq<Fqn>, matches: Fqn -> bool, excludes: Fqn -> bool, layers: set<Block>,
                          patterns: bool)
    requires var roots := Roots(names, matches, layers);
             Refusal(roots, Excluded(names, roots, excludes), patterns).None?
    ensures var roots := Roots(names, matches, layers);
            Outcome(map[], roots, Excluded(names, roots, excludes)).Ok?
  {
    var roots := Roots(names, matches, layers);
    AllWrappedAt(map[], Excluded(names, roots, excludes), Exclude);
    assert roots[0] in roots;
  }

  // ---- what nests in what -------------------------------------------------------------------

  /** No checkpoint is below another, and each exclusion is below exactly one checkpoint. */
  ghost predicate Separated(wrappers: Wrappers) {
    && (forall a, b | a in wrappers && b in wrappers && wrappers[a] == wrappers[b] == Checkpoint :: !Under(a, b))
    && forall n | n in wrappers && wrappers[n] == Exclude :: OneCheckpointAbove(wrappers, n)
  }

  ghost predicate OneCheckpointAbove(wrappers: Wrappers, n: Fqn) {
    exists c :: c in wrappers && wrappers[c] == Checkpoint && Under(n, c)
                && forall d | d in wrappers && wrappers[d] == Checkpoint && Under(n, d) :: d == c
  }

  /** A tree without earlier wrappers ends separated, whatever is matched, excluded and selected. */
  lemma WrappedTreeIsSeparated(names: seq<Fqn>, matches: Fqn -> bool, excludes: Fqn -> bool, layers: set<Block>,
                               patterns: bool)
    requires var roots := Roots(names, matches, layers);
             Refusal(roots, Excluded(names, roots, excludes), patterns).None?
    ensures var roots := Roots(names, matches, layers);
            Separated(Declared(map[], roots, Excluded(names, roots, excludes)))
  {
    var roots := Roots(names, matches, layers);
    var excluded := Excluded(names, roots, excludes);
    RootsFormAntichain(names, matches, layers);
    WrapperKinds(roots, excluded);
    var wrappers := Declared(map[], roots, excluded);
    forall n | n in excluded
      ensures OneCheckpointAbove(wrappers, n)
    {
      var root := ExclusionHasOneRoot(names, roots, excludes, n);
      OneAbove(wrappers, roots, n, root);
    }
  }

  lemma WrapperKinds(roots: seq<Fqn>, excluded: seq<Fqn>)
    requires forall n | n in excluded :: n !in roots
    ensures var wrappers := Declared(map[], roots, excluded);
            && (forall n :: n in wrappers && wrappers[n] == Checkpoint <==> n in roots)
            && forall n :: n in wrappers && wrappers[n] == Exclude <==> n in excluded
  {
    AllWrappedAt(map[], excluded, Exclude);
    AllWrappedAt(AllWrapped(map[], excluded, Exclude), roots, Checkpoint);
  }

  lemma OneAbove(wrappers: Wrappers, roots: seq<Fqn>, n: Fqn, root: Fqn)
    requires forall c :: c in wrappers && wrappers[c] == Checkpoint <==> c in roots
    requires root in roots && Under(n, root) && forall r | r in roots && Within(n, r) :: r == root
    ensures OneCheckpointAbove(wrappers, n)
  {
  }

  /** The wrappers crossed on the way from the model down to a module, over its first i characters. */
  function Crossed(wrappers: Wrappers, name: Fqn, i: nat): seq<Wrapper>
    requires i <= |name|
  {
    if i == 0 then []
    else Crossed(wrappers, name, i - 1)
         + (if Within(name, name[..i]) && name[..i] in wrappers then [wrappers[name[..i]]] else [])
  }

  /** The first checkpoint crossed lies at a place among the first i characters. */
  ghost predicate CheckpointAt(wrappers: Wrappers, name: Fqn, j: nat) {
    0 < j <= |name| && Within(name, name[..j]) && name[..j] in wrappers && wrappers[name[..j]] == Checkpoint
  }

  lemma PrefixesNest(name: Fqn, j: nat, i: nat)
    requires j < i <= |name| && Within(name, name[..j]) && Within(name, name[..i])
    ensures Under(name[..i], name[..j])
  {
    assert name[..j] + "." == name[..j + 1] == name[..i][..j + 1];
  }

  /**
   * Going down a separated tree one crosses nothing, or one checkpoint and inside it only exclusions:
   * no checkpoint is met inside another, and no exclusion outside one.
   */
  lemma {:induction false} OneCheckpointThenExclusions(wrappers: Wrappers, name: Fqn, i: nat)
    requires Separated(wrappers) && "" !in wrappers && i <= |name|
    ensures var crossed := Crossed(wrappers, name, i);
            && (crossed != [] ==> crossed[0] == Checkpoint && forall k | 0 < k < |crossed| :: crossed[k] == Exclude)
            && (crossed != [] <==> exists j :: 0 <= j <= i && CheckpointAt(wrappers, name, j))
  {
    if i > 0 {
      OneCheckpointThenExclusions(wrappers, name, i - 1);
      var q := name[..i];
      if Within(name, q) && q in wrappers {
        if wrappers[q] == Exclude {
          CheckpointAboveIsCrossed(wrappers, name, i);
        } else {
          assert CheckpointAt(wrappers, name, i);
          if j :| 0 <= j <= i - 1 && CheckpointAt(wrappers, name, j) {
            PrefixesNest(name, j, i);
          }
        }
      }
    }
  }

  lemma CheckpointAboveIsCrossed(wrappers: Wrappers, name: Fqn, i: nat)
    requires Separated(wrappers) && "" !in wrappers && 0 < i <= |name|
    requires Within(name, name[..i]) && name[..i] in wrappers && wrappers[name[..i]] == Exclude
    ensures exists j :: 0 <= j <= i - 1 && CheckpointAt(wrappers, name, j)
  {
    var q := name[..i];
    var c :| c in wrappers && wrappers[c] == Checkpoint && Under(q, c);
    assert c == q[..|c|] == name[..|c|] && c + "." == q[..|c| + 1] == name[..|c| + 1];
    assert CheckpointAt(wrappers, name, |c|);
  }

  /** An excluded module is reached through its checkpoint and its own exclusion, last. */
  lemma ExclusionIsCrossedLast(wrappers: Wrappers, n: Fqn)
    requires Separated(wrappers) && "" !in wrappers && n in wrappers && wrappers[n] == Exclude
    ensures var crossed := Crossed(wrappers, n, |n|);
            |crossed| >= 2 && crossed[0] == Checkpoint && crossed[|crossed| - 1] == Exclude
  {
    assert n[..|n|] == n;
    OneCheckpointThenExclusions(wrappers, n, |n|);
    OneCheckpointThenExclusions(wrappers, n, |n| - 1);
    CheckpointAboveIsCrossed(wrappers, n, |n|);
  }
}
