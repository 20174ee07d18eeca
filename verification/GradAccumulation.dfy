/** Gradients of a compiled step accumulated into the live model's parameters, shared ones included. */
module GradAccumulation {
  import opened Common

  class Tensor {
    var value: int

    constructor (value: int)
      ensures this.value == value
    {
      this.value := value;
    }
  }

  class Param {
    const requiresGrad: bool
    var grad: Option<Tensor>

    constructor (requiresGrad: bool)
      ensures this.requiresGrad == requiresGrad && grad == None
    {
      this.requiresGrad := requiresGrad;
      grad := None;
    }
  }

  // ---- which parameter each gradient belongs to ----------------------------------------

  /** Whether a state name is a trainable parameter; a trace without flags treats every known name as one. */
  predicate IsTrainable(fqn: string, isParam: bool, params: map<string, Param>) {
    isParam && fqn in params && params[fqn].requiresGrad
  }

  predicate FlagAt(flags: Option<seq<bool>>, i: nat)
    requires flags.Some? ==> i < |flags.value|
  {
    flags.None? || flags.value[i]
  }

  /** The names of the trainable parameters in state order, a shared parameter under each of its names. */
  function TrainableNames(fqns: seq<string>, flags: Option<seq<bool>>, params: map<string, Param>): (names: seq<string>)
    requires flags.Some? ==> |flags.value| == |fqns|
    ensures forall n | n in names :: n in params
  {
    if fqns == [] then []
    else
      var n := |fqns| - 1;
      TrainableNames(fqns[..n], if flags.None? then None else Some(flags.value[..n]), params)
      + (if IsTrainable(fqns[n], FlagAt(flags, n), params) then [fqns[n]] else [])
  }

  function ParamsOf(names: seq<string>, params: map<string, Param>): (list: seq<Param>)
    requires forall n | n in names :: n in params
    ensures |list| == |names|
  {
    seq(|names|, i requires 0 <= i < |names| => params[names[i]])
  }

  lemma NamesStep(fqns: seq<string>, flags: Option<seq<bool>>, params: map<string, Param>, i: nat)
    requires i < |fqns| && (flags.Some? ==> |flags.value| == |fqns|)
    ensures TrainableNames(fqns[..i + 1], Upto(flags, i + 1), params) ==
            TrainableNames(fqns[..i], Upto(flags, i), params)
            + (if IsTrainable(fqns[i], FlagAt(flags, i), params) then [fqns[i]] else [])
  {
    assert fqns[..i + 1][..i] == fqns[..i];
    if flags.Some? { assert flags.value[..i + 1][..i] == flags.value[..i]; }
  }

  function Upto(flags: Option<seq<bool>>, i: nat): Option<seq<bool>>
    requires flags.Some? ==> i <= |flags.value|
  {
    if flags.None? then None else Some(flags.value[..i])
  }

  /** The live trainable parameters in the graph's state order. */
  method TrainableParamsInStateOrder(fqns: seq<string>, flags: Option<seq<bool>>, params: map<string, Param>)
    returns (trainable: seq<Param>)
    requires flags.Some? ==> |flags.value| == |fqns|
    ensures trainable == ParamsOf(TrainableNames(fqns, flags, params), params)
  {
    trainable := [];
    for i := 0 to |fqns|
      invariant trainable == ParamsOf(TrainableNames(fqns[..i], Upto(flags, i), params), params)
    {
      NamesStep(fqns, flags, params, i);
      if FlagAt(flags, i) && fqns[i] in params && params[fqns[i]].requiresGrad {
        trainable := trainable + [params[fqns[i]]];
      }
    }
    assert fqns[..|fqns|] == fqns;
    if flags.Some? { assert flags.value[..|fqns|] == flags.value; }
  }

  // ---- what one call adds -----------------------------------------------------------------

  /** A parameter's gradient: none until something is accumulated. */
  type Grads = map<Param, Option<int>>

  function Plus(grad: Option<int>, x: int): Option<int> {
    Some(if grad.None? then x else grad.value + x)
  }

  /** Gradient i added to parameter i, in order. */
  function Accumulated(grads: Grads, trainable: seq<Param>, values: seq<int>): (after: Grads)
    requires |trainable| == |values| && forall p | p in trainable :: p in grads
    ensures after.Keys == grads.Keys
  {
    if trainable == [] then grads
    else
      var n := |trainable| - 1;
      assert trainable == trainable[..n] + [trainable[n]];
      var before := Accumulated(grads, trainable[..n], values[..n]);
      before[trainable[n] := Plus(before[trainable[n]], values[n])]
  }

  /** The sum of the values emitted for a parameter, under all of its names. */
  function EmittedFor(trainable: seq<Param>, values: seq<int>, p: Param): int
    requires |trainable| == |values|
  {
    if trainable == [] then 0
    else
      var n := |trainable| - 1;
      EmittedFor(trainable[..n], values[..n], p) + (if trainable[n] == p then values[n] else 0)
  }

  /** One call adds to each parameter exactly what is emitted for it, and leaves the others as they are. */
  lemma {:induction false} AccumulatedAdds(grads: Grads, trainable: seq<Param>, values: seq<int>, p: Param)
    requires |trainable| == |values| && (forall q | q in trainable :: q in grads) && p in grads
    ensures Accumulated(grads, trainable, values)[p] ==
            if p in trainable then Plus(grads[p], EmittedFor(trainable, values, p)) else grads[p]
  {
    if trainable != [] {
      var n := |trainable| - 1;
      assert trainable == trainable[..n] + [trainable[n]];
      AccumulatedAdds(grads, trainable[..n], values[..n], p);
      if p !in trainable[..n] { NotEmitted(trainable[..n], values[..n], p); }
    }
  }

  lemma {:induction false} NotEmitted(trainable: seq<Param>, values: seq<int>, p: Param)
    requires |trainable| == |values| && p !in trainable
    ensures EmittedFor(trainable, values, p) == 0
  {
    if trainable != [] {
      var n := |trainable| - 1;
      assert trainable == trainable[..n] + [trainable[n]];
      NotEmitted(trainable[..n], values[..n], p);
    }
  }

  // ---- the parameters in place ----------------------------------------------------------------

  ghost function StoredGrads(params: set<Param>): set<Tensor>
    reads params
  {
    set p | p in params && p.grad.Some? :: p.grad.value
  }

  /** No two parameters store one gradient. */
  ghost predicate Unaliased(params: set<Param>)
    reads params
  {
    forall p, q | p in params && q in params && p != q && p.grad.Some? && q.grad.Some? :: p.grad.value != q.grad.value
  }

  ghost function View(params: set<Param>): Grads
    reads params, StoredGrads(params)
  {
    map p | p in params :: if p.grad.None? then None else Some(p.grad.value.value)
  }

  ghost function Values(grads: seq<Tensor>): (values: seq<int>)
    reads grads
    ensures |values| == |grads|
  {
    seq(|grads|, i requires 0 <= i < |grads| reads grads => grads[i].value)
  }

  /** No stored gradient is one of some emitted tensors. */
  ghost predicate Apart(params: set<Param>, grads: seq<Tensor>)
    reads params
  {
    forall p, i | p in params && 0 <= i < |grads| && p.grad.Some? :: p.grad.value != grads[i]
  }

  /** Add one gradient to one parameter: into storage of its own the first time, in place after that. */
  method AccumulateOne(p: Param, grad: Tensor, ghost params: set<Param>, ghost grads: seq<Tensor>)
    requires p in params && Unaliased(params) && Apart(params, grads) && grad in grads
    modifies p, StoredGrads(params)
    ensures Unaliased(params) && Apart(params, grads)
    ensures forall t | t in StoredGrads(params) :: t in old(StoredGrads(params)) || fresh(t)
    ensures Values(grads) == old(Values(grads))
    ensures View(params) == old(View(params))[p := Plus(old(View(params))[p], old(grad.value))]
  {
    if p.grad.None? {
      var own := new Tensor(grad.value);
      p.grad := Some(own);
    } else {
      var own := p.grad.value;
      own.value := own.value + grad.value;
    }
  }

  datatype CountError = CountMismatch

  lemma AccumulatedStep(grads: Grads, trainable: seq<Param>, values: seq<int>, i: nat)
    requires i < |trainable| == |values| && forall p | p in trainable :: p in grads
    ensures forall p | p in trainable[..i + 1] :: p in grads
    ensures var before := Accumulated(grads, trainable[..i], values[..i]);
            Accumulated(grads, trainable[..i + 1], values[..i + 1]) ==
            before[trainable[i] := Plus(before[trainable[i]], values[i])]
  {
    assert trainable[..i + 1][..i] == trainable[..i] && values[..i + 1][..i] == values[..i];
  }

  method AccumulateNext(trainable: seq<Param>, grads: seq<Tensor>, i: nat, ghost params: set<Param>,
                        ghost before: Grads, ghost values: seq<int>)
    requires (forall p | p in trainable :: p in params) && before.Keys == params
    requires Unaliased(params) && Apart(params, grads) && Values(grads) == values
    requires i < |trainable| == |grads| && View(params) == Accumulated(before, trainable[..i], values[..i])
    modifies params, StoredGrads(params)
    ensures Unaliased(params) && Apart(params, grads) && Values(grads) == values
    ensures forall t | t in StoredGrads(params) :: t in old(StoredGrads(params)) || fresh(t)
    ensures View(params) == Accumulated(before, trainable[..i + 1], values[..i + 1])
  {
    AccumulatedStep(before, trainable, values, i);
    AccumulateOne(trainable[i], grads[i], params, grads);
  }

  /**
   * Accumulate a call's gradients, the i-th into the i-th trainable parameter in state order; another
   * number of gradients changes nothing.
   */
  method AccumulateGrads(trainable: seq<Param>, grads: seq<Tensor>, ghost params: set<Param>)
    returns (error: Option<CountError>)
    requires (forall p | p in trainable :: p in params) && Unaliased(params) && Apart(params, grads)
    modifies params, StoredGrads(params)
    ensures error.Some? <==> |trainable| != |grads|
    ensures error.Some? ==> View(params) == old(View(params))
    ensures Unaliased(params) && Apart(params, grads) && Values(grads) == old(Values(grads))
    ensures forall t | t in StoredGrads(params) :: t in old(StoredGrads(params)) || fresh(t)
    ensures error.None? ==> View(params) == Accumulated(old(View(params)), trainable, old(Values(grads)))
  {
    if |trainable| != |grads| {
      return Some(CountMismatch);
    }
    ghost var before, values := View(params), Values(grads);
    for i := 0 to |trainable|
      invariant Unaliased(params) && Apart(params, grads) && Values(grads) == values
      invariant forall t | t in StoredGrads(params) :: t in old(StoredGrads(params)) || fresh(t)
      invariant View(params) == Accumulated(before, trainable[..i], values[..i])
    {
      AccumulateNext(trainable, grads, i, params, before, values);
    }
    assert trainable[..|trainable|] == trainable && values[..|trainable|] == values;
    error := None;
  }

  // ---- several calls before a step -------------------------------------------------------------

  /** The gradients after some calls, each with the values its graph emits. */
  function AfterCalls(grads: Grads, trainable: seq<Param>, calls: seq<seq<int>>): (after: Grads)
    requires forall p | p in trainable :: p in grads
    requires forall i | 0 <= i < |calls| :: |calls[i]| == |trainable|
    ensures after.Keys == grads.Keys
  {
    if calls == [] then grads
    else Accumulated(AfterCalls(grads, trainable, calls[..|calls| - 1]), trainable, calls[|calls| - 1])
  }

  function TotalFor(trainable: seq<Param>, calls: seq<seq<int>>, p: Param): int
    requires forall i | 0 <= i < |calls| :: |calls[i]| == |trainable|
  {
    if calls == [] then 0
    else TotalFor(trainable, calls[..|calls| - 1], p) + EmittedFor(trainable, calls[|calls| - 1], p)
  }

  /**
   * From cleared gradients, after any number of calls each parameter holds the sum, over the calls and
   * over all of its names, of what was emitted for it; a parameter that is not trainable holds none.
   */
  lemma {:induction false} CallsSum(grads: Grads, trainable: seq<Param>, calls: seq<seq<int>>, p: Param)
    requires (forall q | q in trainable :: q in grads) && p in grads && grads[p].None?
    requires forall i | 0 <= i < |calls| :: |calls[i]| == |trainable|
    ensures AfterCalls(grads, trainable, calls)[p] ==
            if p in trainable && calls != [] then Some(TotalFor(trainable, calls, p)) else None
  {
    if calls != [] {
      var n := |calls| - 1;
      CallsSum(grads, trainable, calls[..n], p);
      AccumulatedAdds(AfterCalls(grads, trainable, calls[..n]), trainable, calls[n], p);
    }
  }

  /** The values emitted for the names of one parameter. */
  function EmittedByName(names: seq<string>, values: seq<int>, params: map<string, Param>, p: Param): int
    requires |names| == |values| && forall n | n in names :: n in params
  {
    if names == [] then 0
    else
      var n := |names| - 1;
      EmittedByName(names[..n], values[..n], params, p) + (if params[names[n]] == p then values[n] else 0)
  }

  /** A parameter's sum is over all of its trainable names: a tied weight counts once for each. */
  lemma {:induction false} TiedWeightsCountPerName(names: seq<string>, values: seq<int>, params: map<string, Param>,
                                                   p: Param)
    requires |names| == |values| && forall n | n in names :: n in params
    ensures EmittedFor(ParamsOf(names, params), values, p) == EmittedByName(names, values, params, p)
  {
    if names != [] {
      var n := |names| - 1;
      assert ParamsOf(names, params)[..n] == ParamsOf(names[..n], params);
      TiedWeightsCountPerName(names[..n], values[..n], params, p);
    }
  }

  /** A trainable parameter is emitted for under each of its names that the state holds and flags as a parameter. */
  lemma {:induction false} NamesAreTheTrainable(fqns: seq<string>, flags: Option<seq<bool>>, params: map<string, Param>,
                                                name: string)
    requires flags.Some? ==> |flags.value| == |fqns|
    ensures name in TrainableNames(fqns, flags, params) <==>
            exists i :: 0 <= i < |fqns| && fqns[i] == name && IsTrainable(name, FlagAt(flags, i), params)
  {
    if fqns != [] {
      var n := |fqns| - 1;
      var fewer := if flags.None? then None else Some(flags.value[..n]);
      NamesAreTheTrainable(fqns[..n], fewer, params, name);
      if i :| 0 <= i < |fqns| && fqns[i] == name && IsTrainable(name, FlagAt(flags, i), params) {
        if i < n { assert fqns[..n][i] == name && FlagAt(fewer, i) == FlagAt(flags, i); }
      }
      if name in TrainableNames(fqns[..n], fewer, params) {
        var i :| 0 <= i < n && fqns[..n][i] == name && IsTrainable(name, FlagAt(fewer, i), params);
        assert fqns[i] == name && FlagAt(flags, i) == FlagAt(fewer, i);
      }
    }
  }

  /** Micro-batch calls one after the other, on gradients each call's graph emits anew. */
  method RunCalls(trainable: seq<Param>, calls: seq<seq<int>>, ghost params: set<Param>)
    requires (forall p | p in trainable :: p in params) && Unaliased(params)
    requires forall i | 0 <= i < |calls| :: |calls[i]| == |trainable|
    modifies params, StoredGrads(params)
    ensures Unaliased(params)
    ensures View(params) == AfterCalls(old(View(params)), trainable, calls)
  {
    ghost var before := View(params);
    for k := 0 to |calls|
      invariant Unaliased(params)
      invariant forall t | t in StoredGrads(params) :: t in old(StoredGrads(params)) || fresh(t)
      invariant View(params) == AfterCalls(before, trainable, calls[..k])
    {
      assert calls[..k + 1][..k] == calls[..k];
      RunCall(trainable, calls[k], params);
    }
    assert calls[..|calls|] == calls;
  }

  method RunCall(trainable: seq<Param>, values: seq<int>, ghost params: set<Param>)
    requires (forall p | p in trainable :: p in params) && Unaliased(params) && |values| == |trainable|
    modifies params, StoredGrads(params)
    ensures Unaliased(params) && View(params) == Accumulated(old(View(params)), trainable, values)
    ensures forall t | t in StoredGrads(params) :: t in old(StoredGrads(params)) || fresh(t)
  {
    var grads := Emit(values);
    var error := AccumulateGrads(trainable, grads, params);
  }

  /** The tensors a graph run emits. */
  method Emit(values: seq<int>) returns (grads: seq<Tensor>)
    ensures |grads| == |values| && forall i | 0 <= i < |grads| :: fresh(grads[i])
    ensures Values(grads) == values
  {
    grads := [];
    for i := 0 to |values|
      invariant |grads| == i && forall j | 0 <= j < i :: fresh(grads[j]) && grads[j].value == values[j]
    {
      var grad := new Tensor(values[i]);
      grads := grads + [grad];
    }
  }
}
