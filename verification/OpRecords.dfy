/** Op-record pricing: lazily read expressions, and the bytes a layer's ops keep in a slot. */
module OpRecords {
  import opened Common

  // ---- expressions --------------------------------------------------------------------

  datatype UnaryOp = Negate | Plus | Not
  datatype BinaryOp = Add | Sub | Mult | Div | FloorDiv | Mod | Pow
  datatype CompareOp = Eq | NotEq | Lt | LtE | Gt | GtE

  datatype Expr =
    | Num(value: real)
    | Name(id: string)
    | Unary(op: UnaryOp, operand: Expr)
    | Binary(bop: BinaryOp, left: Expr, right: Expr)
    | And(first: Expr, second: Expr)
    | Or(first: Expr, second: Expr)
    | IfExp(test: Expr, body: Expr, orelse: Expr)
    | Compare(start: Expr, rest: Chain)
    | Call(isMax: bool, args: Exprs)

  /** The rest of a chained comparison. */
  datatype Chain = End | Link(cop: CompareOp, next: Expr, rest: Chain)

  datatype Exprs = Nil | Cons(head: Expr, tail: Exprs)

  /** What a name is bound to, if looking it up does not raise, and the powers of numbers. */
  datatype Env = Env(lookup: string -> Option<real>, pow: (real, real) -> Option<real>)

  const CALLS := {"max", "min"}

  /** A truth value as the number it is. */
  function Truth(b: bool): real { if b then 1.0 else 0.0 }

  function ApplyUnary(op: UnaryOp, x: real): real {
    match op
    case Negate => -x
    case Plus => x
    case Not => Truth(x == 0.0)
  }

  function ApplyBinary(env: Env, op: BinaryOp, x: real, y: real): Option<real> {
    match op
    case Add => Some(x + y)
    case Sub => Some(x - y)
    case Mult => Some(x * y)
    case Div => if y == 0.0 then None else Some(x / y)
    case FloorDiv => if y == 0.0 then None else Some((x / y).Floor as real)
    case Mod => if y == 0.0 then None else Some(x - y * ((x / y).Floor as real))
    case Pow => env.pow(x, y)
  }

  function Compares(op: CompareOp, x: real, y: real): bool {
    match op
    case Eq => x == y
    case NotEq => x != y
    case Lt => x < y
    case LtE => x <= y
    case Gt => x > y
    case GtE => x >= y
  }

  function Larger(isMax: bool, x: real, y: real): real {
    if isMax then (if y > x then y else x) else (if y < x then y else x)
  }

  /** An expression's value, or none if evaluating it raises; what is not reached is not read. */
  function Value(e: Expr, env: Env): Option<real>
    decreases e
  {
    match e
    case Num(v) => Some(v)
    case Name(id) => if id in CALLS then None else env.lookup(id)
    case Unary(op, operand) =>
      var x := Value(operand, env);
      if x.None? then None else Some(ApplyUnary(op, x.value))
    case Binary(op, left, right) =>
      var x := Value(left, env);
      if x.None? then None
      else
        var y := Value(right, env);
        if y.None? then None else ApplyBinary(env, op, x.value, y.value)
    case And(first, second) =>
      var x := Value(first, env);
      if x.None? || x.value == 0.0 then x else Value(second, env)
    case Or(first, second) =>
      var x := Value(first, env);
      if x.None? || x.value != 0.0 then x else Value(second, env)
    case IfExp(test, body, orelse) =>
      var x := Value(test, env);
      if x.None? then None else if x.value != 0.0 then Value(body, env) else Value(orelse, env)
    case Compare(start, rest) =>
      var x := Value(start, env);
      if x.None? then None else ChainValue(x.value, rest, env)
    case Call(isMax, args) =>
      if args.Nil? || args.tail.Nil? then None
      else
        var x := Value(args.head, env);
        if x.None? then None else ArgsValue(isMax, x.value, args.tail, env)
  }

  function ChainValue(x: real, rest: Chain, env: Env): Option<real>
    decreases rest
  {
    match rest
    case End => Some(1.0)
    case Link(op, next, more) =>
      var y := Value(next, env);
      if y.None? then None
      else if !Compares(op, x, y.value) then Some(0.0)
      else ChainValue(y.value, more, env)
  }

  function ArgsValue(isMax: bool, best: real, args: Exprs, env: Env): Option<real>
    decreases args
  {
    match args
    case Nil => Some(best)
    case Cons(head, tail) =>
      var y := Value(head, env);
      if y.None? then None else ArgsValue(isMax, Larger(isMax, best, y.value), tail, env)
  }

  /** The names an expression reads, the calls it makes apart. */
  function Names(e: Expr): set<string>
    decreases e
  {
    match e
    case Num(_) => {}
    case Name(id) => if id in CALLS then {} else {id}
    case Unary(_, operand) => Names(operand)
    case Binary(_, left, right) => Names(left) + Names(right)
    case And(first, second) => Names(first) + Names(second)
    case Or(first, second) => Names(first) + Names(second)
    case IfExp(test, body, orelse) => Names(test) + Names(body) + Names(orelse)
    case Compare(start, rest) => Names(start) + ChainNames(rest)
    case Call(_, args) => ArgsNames(args)
  }

  function ChainNames(rest: Chain): set<string>
    decreases rest
  {
    match rest
    case End => {}
    case Link(_, next, more) => Names(next) + ChainNames(more)
  }

  function ArgsNames(args: Exprs): set<string>
    decreases args
  {
    match args
    case Nil => {}
    case Cons(head, tail) => Names(head) + ArgsNames(tail)
  }

  // ---- a value depends only on the names ------------------------------------------------

  ghost predicate Agree(a: Env, b: Env, names: set<string>) {
    a.pow == b.pow && forall n | n in names :: a.lookup(n) == b.lookup(n)
  }

  lemma {:induction false} ValueReadsNames(e: Expr, a: Env, b: Env)
    requires Agree(a, b, Names(e))
    ensures Value(e, a) == Value(e, b)
    decreases e
  {
    match e
    case Num(_) =>
    case Name(_) =>
    case Unary(_, operand) => ValueReadsNames(operand, a, b);
    case Binary(_, left, right) => ValueReadsNames(left, a, b); ValueReadsNames(right, a, b);
    case And(first, second) => ValueReadsNames(first, a, b); ValueReadsNames(second, a, b);
    case Or(first, second) => ValueReadsNames(first, a, b); ValueReadsNames(second, a, b);
    case IfExp(test, body, orelse) =>
      ValueReadsNames(test, a, b); ValueReadsNames(body, a, b); ValueReadsNames(orelse, a, b);
    case Compare(start, rest) =>
      ValueReadsNames(start, a, b);
      if Value(start, a).Some? { ChainReadsNames(Value(start, a).value, rest, a, b); }
    case Call(isMax, args) =>
      if args.Cons? && args.tail.Cons? {
        assert Names(e) == Names(args.head) + ArgsNames(args.tail);
        ValueReadsNames(args.head, a, b);
        if Value(args.head, a).Some? { ArgsReadNames(isMax, Value(args.head, a).value, args.tail, a, b); }
      }
  }

  lemma {:induction false} ChainReadsNames(x: real, rest: Chain, a: Env, b: Env)
    requires Agree(a, b, ChainNames(rest))
    ensures ChainValue(x, rest, a) == ChainValue(x, rest, b)
    decreases rest
  {
    match rest
    case End =>
    case Link(_, next, more) =>
      ValueReadsNames(next, a, b);
      if Value(next, a).Some? { ChainReadsNames(Value(next, a).value, more, a, b); }
  }

  lemma {:induction false} ArgsReadNames(isMax: bool, best: real, args: Exprs, a: Env, b: Env)
    requires Agree(a, b, ArgsNames(args))
    ensures ArgsValue(isMax, best, args, a) == ArgsValue(isMax, best, args, b)
    decreases args
  {
    match args
    case Nil =>
    case Cons(head, tail) =>
      ValueReadsNames(head, a, b);
      if Value(head, a).Some? { ArgsReadNames(isMax, Larger(isMax, best, Value(head, a).value), tail, a, b); }
  }

  // ---- the memoising lookup ----------------------------------------------------------------

  /** The names an expression reads, each looked up the first time it is read. */
  class LazyNames {
    var memo: map<string, real>
    const value: string -> Option<real>
    const pow: (real, real) -> Option<real>

    constructor (value: string -> Option<real>, pow: (real, real) -> Option<real>)
      ensures memo == map[] && this.value == value && this.pow == pow
    {
      memo := map[];
      this.value := value;
      this.pow := pow;
    }

    /** What every name is bound to now. */
    ghost function Binding(): Env
      reads this
    {
      BoundTo(memo, value, pow)
    }

    method Lookup(name: string) returns (found: Option<real>)
      modifies this
      ensures found == (if name in CALLS then None else old(Binding()).lookup(name))
      ensures SameBinding(old(memo), memo, value) && memo.Keys <= old(memo).Keys + {name}
      ensures name in CALLS ==> memo == old(memo)
    {
      if name in CALLS {
        return None;
      }
      if name in memo {
        return Some(memo[name]);
      }
      found := value(name);
      if found.Some? {
        memo := memo[name := found.value];
      }
    }

    /** Evaluate an expression, reading only the names it reaches. */
    method Evaluate(e: Expr) returns (v: Option<real>)
      modifies this
      ensures v == Value(e, old(Binding()))
      ensures SameBinding(old(memo), memo, value) && memo.Keys <= old(memo).Keys + Names(e)
      decreases e
    {
      ghost var before := Binding();
      ghost var start := memo;
      match e {
        case Num(x) => v := Some(x);
        case Name(id) => v := Lookup(id);
        case Unary(op, operand) =>
          v := Evaluate(operand);
          if v.Some? { v := Some(ApplyUnary(op, v.value)); }
        case Binary(op, left, right) =>
          var x := Evaluate(left);
          StillBound(start, memo, value, pow, right);
          if x.None? { return None; }
          var y := Evaluate(right);
          if y.None? { return None; }
          v := ApplyBinary(Env(value, pow), op, x.value, y.value);
        case And(first, second) =>
          v := Evaluate(first);
          StillBound(start, memo, value, pow, second);
          if v.Some? && v.value != 0.0 { v := Evaluate(second); }
        case Or(first, second) =>
          v := Evaluate(first);
          StillBound(start, memo, value, pow, second);
          if v.Some? && v.value == 0.0 { v := Evaluate(second); }
        case IfExp(test, body, orelse) =>
          var x := Evaluate(test);
          StillBound(start, memo, value, pow, body);
          StillBound(start, memo, value, pow, orelse);
          if x.None? { return None; }
          if x.value != 0.0 { v := Evaluate(body); } else { v := Evaluate(orelse); }
        case Compare(first, rest) =>
          var x := Evaluate(first);
          if x.None? { return None; }
          ChainStillBound(start, memo, value, pow, x.value, rest);
          v := EvaluateChain(x.value, rest);
        case Call(isMax, args) =>
          if args.Nil? || args.tail.Nil? { return None; }
          var x := Evaluate(args.head);
          if x.None? { return None; }
          ArgsStillBound(start, memo, value, pow, isMax, x.value, args.tail);
          v := EvaluateArgs(isMax, x.value, args.tail);
      }
    }

    method EvaluateChain(x: real, rest: Chain) returns (v: Option<real>)
      modifies this
      ensures v == ChainValue(x, rest, old(Binding()))
      ensures SameBinding(old(memo), memo, value) && memo.Keys <= old(memo).Keys + ChainNames(rest)
      decreases rest
    {
      ghost var start := memo;
      match rest {
        case End => v := Some(1.0);
        case Link(op, next, more) =>
          var y := Evaluate(next);
          if y.None? { return None; }
          if !Compares(op, x, y.value) { return Some(0.0); }
          ChainStillBound(start, memo, value, pow, y.value, more);
          v := EvaluateChain(y.value, more);
      }
    }

    method EvaluateArgs(isMax: bool, best: real, args: Exprs) returns (v: Option<real>)
      modifies this
      ensures v == ArgsValue(isMax, best, args, old(Binding()))
      ensures SameBinding(old(memo), memo, value) && memo.Keys <= old(memo).Keys + ArgsNames(args)
      decreases args
    {
      ghost var start := memo;
      match args {
        case Nil => v := Some(best);
        case Cons(head, tail) =>
          var y := Evaluate(head);
          if y.None? { return None; }
          ArgsStillBound(start, memo, value, pow, isMax, Larger(isMax, best, y.value), tail);
          v := EvaluateArgs(isMax, Larger(isMax, best, y.value), tail);
      }
    }

    method Bind(name: string, v: real)
      modifies this
      ensures memo == old(memo)[name := v]
    {
      memo := memo[name := v];
    }
  }

  function BoundTo(memo: map<string, real>, value: string -> Option<real>, pow: (real, real) -> Option<real>): Env {
    Env(n => if n in memo then Some(memo[n]) else value(n), pow)
  }

  /** A memo that grew by looking names up binds every name as before. */
  ghost predicate SameBinding(before: map<string, real>, after: map<string, real>, value: string -> Option<real>) {
    && before.Keys <= after.Keys && (forall n | n in before :: after[n] == before[n])
    && forall n | n in after && n !in before :: value(n) == Some(after[n])
  }

  lemma StillBound(before: map<string, real>, after: map<string, real>, value: string -> Option<real>,
                   pow: (real, real) -> Option<real>, e: Expr)
    requires SameBinding(before, after, value)
    ensures Value(e, BoundTo(before, value, pow)) == Value(e, BoundTo(after, value, pow))
  {
    ValueReadsNames(e, BoundTo(before, value, pow), BoundTo(after, value, pow));
  }

  lemma ChainStillBound(before: map<string, real>, after: map<string, real>, value: string -> Option<real>,
                        pow: (real, real) -> Option<real>, x: real, rest: Chain)
    requires SameBinding(before, after, value)
    ensures ChainValue(x, rest, BoundTo(before, value, pow)) == ChainValue(x, rest, BoundTo(after, value, pow))
  {
    ChainReadsNames(x, rest, BoundTo(before, value, pow), BoundTo(after, value, pow));
  }

  lemma ArgsStillBound(before: map<string, real>, after: map<string, real>, value: string -> Option<real>,
                       pow: (real, real) -> Option<real>, isMax: bool, best: real, args: Exprs)
    requires SameBinding(before, after, value)
    ensures ArgsValue(isMax, best, args, BoundTo(before, value, pow)) ==
            ArgsValue(isMax, best, args, BoundTo(after, value, pow))
  {
    ArgsReadNames(isMax, best, args, BoundTo(before, value, pow), BoundTo(after, value, pow));
  }

  // ---- records and slots -----------------------------------------------------------------

  /** What an op, or a part of an op's saves, keeps in a slot. */
  datatype Entry = Entry(name: string, elements: Expr)

  datatype Slot = Slot(formula: Expr, entries: seq<Entry>)

  /** The op vector, and which op each part of an op's saves is part of. */
  datatype Records = Records(ops: seq<string>, partOf: map<string, string>)

  /** What loading the records checks: every part is an op's, is not named as one, and every entry has a record. */
  predicate WellFormed(r: Records, slot: Slot) {
    && (forall i, j | 0 <= i < j < |r.ops| :: r.ops[i] != r.ops[j])
    && (forall p | p in r.partOf :: p !in r.ops && r.partOf[p] in r.ops)
    && (forall e | e in slot.entries :: e.name in r.ops || e.name in r.partOf)
  }

  predicate CountsToward(r: Records, name: string, op: string) {
    name == op || (name in r.partOf && r.partOf[name] == op)
  }

  /** How much of an entry is kept: by what a layer keeps, or for one op or part alone. */
  function Kept(r: Records, keep: string -> real, only: Option<string>, name: string): real {
    if only.Some? then Truth(CountsToward(r, name, only.value)) else keep(name)
  }

  /** The elements a slot's entries keep, in order; an entry that is not kept is not read. */
  function Total(r: Records, entries: seq<Entry>, env: Env, keep: string -> real, only: Option<string>): Option<real> {
    if entries == [] then Some(0.0)
    else
      var n := |entries| - 1;
      Accumulated(Total(r, entries[..n], env, keep, only), Kept(r, keep, only, entries[n].name),
                  Value(entries[n].elements, env))
  }

  function Accumulated(before: Option<real>, kept: real, x: Option<real>): Option<real> {
    if before.None? || kept == 0.0 then before
    else if x.None? then None
    else Some(before.value + Share(kept, x.value))
  }

  /** The kept part of what an entry keeps. */
  function Share(kept: real, elements: real): real { kept * elements }

  function WithTotal(env: Env, total: real): Env {
    Env(n => if n == "total" then Some(total) else env.lookup(n), env.pow)
  }

  /** The bytes a layer keeps in a slot. */
  function Priced(r: Records, slot: Slot, env: Env, keep: string -> real, only: Option<string>): Option<real> {
    var total := Total(r, slot.entries, env, keep, only);
    if total.None? then None else Value(slot.formula, WithTotal(env, total.value))
  }

  /** Every name a slot's expressions read but the total. */
  function Reads(slot: Slot): set<string> {
    (Names(slot.formula) + EntriesNames(slot.entries)) - {"total"}
  }

  function EntriesNames(entries: seq<Entry>): set<string> {
    if entries == [] then {} else EntriesNames(entries[..|entries| - 1]) + Names(entries[|entries| - 1].elements)
  }

  /** Price a slot with one set of lazily read names, as the source does. */
  method Price(r: Records, slot: Slot, env: Env, keep: string -> real, only: Option<string>)
    returns (bytes: Option<real>)
    ensures bytes == Priced(r, slot, env, keep, only)
  {
    var names := new LazyNames(env.lookup, env.pow);
    var total := SumElements(names, r, slot, env, keep, only);
    if total.None? {
      return None;
    }
    MemoIsTheEnv(names.memo, env, slot.formula);
    names.Bind("total", total.value);
    ValueReadsNames(slot.formula, names.Binding(), WithTotal(env, total.value));
    bytes := names.Evaluate(slot.formula);
  }

  method SumElements(names: LazyNames, r: Records, slot: Slot, env: Env, keep: string -> real, only: Option<string>)
    returns (sum: Option<real>)
    requires names.memo == map[] && names.value == env.lookup && names.pow == env.pow
    modifies names
    ensures sum == Total(r, slot.entries, env, keep, only)
    ensures SameBinding(map[], names.memo, env.lookup)
  {
    var total := 0.0;
    for i := 0 to |slot.entries|
      invariant SameBinding(map[], names.memo, env.lookup)
      invariant Total(r, slot.entries[..i], env, keep, only) == Some(total)
    {
      var entry := slot.entries[i];
      var kept := Kept(r, keep, only, entry.name);
      TotalStep(r, slot.entries, i, env, keep, only);
      if kept != 0.0 {
        MemoIsTheEnv(names.memo, env, entry.elements);
        var x := names.Evaluate(entry.elements);
        if x.None? {
          TotalFails(r, slot.entries, i + 1, env, keep, only);
          return None;
        }
        total := total + Share(kept, x.value);
      }
    }
    assert slot.entries[..|slot.entries|] == slot.entries;
    sum := Some(total);
  }

  lemma TotalStep(r: Records, entries: seq<Entry>, i: nat, env: Env, keep: string -> real, only: Option<string>)
    requires i < |entries|
    ensures Total(r, entries[..i + 1], env, keep, only) ==
            Accumulated(Total(r, entries[..i], env, keep, only), Kept(r, keep, only, entries[i].name),
                        Value(entries[i].elements, env))
  {
    assert entries[..i + 1][..i] == entries[..i];
  }

  lemma MemoIsTheEnv(memo: map<string, real>, env: Env, e: Expr)
    requires SameBinding(map[], memo, env.lookup)
    ensures Value(e, BoundTo(memo, env.lookup, env.pow)) == Value(e, env)
    ensures forall n :: BoundTo(memo, env.lookup, env.pow).lookup(n) == env.lookup(n)
  {
    ValueReadsNames(e, BoundTo(memo, env.lookup, env.pow), env);
  }

  lemma {:induction false} TotalFails(r: Records, entries: seq<Entry>, i: nat, env: Env, keep: string -> real,
                                      only: Option<string>)
    requires i <= |entries| && Total(r, entries[..i], env, keep, only).None?
    ensures Total(r, entries, env, keep, only).None?
    decreases |entries|
  {
    if i == |entries| {
      assert entries[..i] == entries;
    } else {
      var n := |entries| - 1;
      assert entries[..n][..i] == entries[..i];
      TotalFails(r, entries[..n], i, env, keep, only);
    }
  }

  // ---- a price depends only on what the slot reads ------------------------------------------

  lemma {:induction false} TotalReads(r: Records, entries: seq<Entry>, a: Env, b: Env, keep: string -> real,
                                      only: Option<string>)
    requires Agree(a, b, EntriesNames(entries))
    ensures Total(r, entries, a, keep, only) == Total(r, entries, b, keep, only)
  {
    if entries != [] {
      var n := |entries| - 1;
      TotalReads(r, entries[..n], a, b, keep, only);
      ValueReadsNames(entries[n].elements, a, b);
      assert Total(r, entries, a, keep, only) ==
             Accumulated(Total(r, entries[..n], a, keep, only), Kept(r, keep, only, entries[n].name),
                         Value(entries[n].elements, a));
    }
  }

  /** All names a slot's price may look up: the formula's total is the one it computes, an element's is not. */
  function LooksUp(slot: Slot): set<string> {
    EntriesNames(slot.entries) + (Names(slot.formula) - {"total"})
  }

  /** A slot's price depends on nothing but those names, whatever is kept. */
  lemma PriceDependsOnNames(r: Records, slot: Slot, a: Env, b: Env, keep: string -> real, only: Option<string>)
    requires Agree(a, b, LooksUp(slot))
    ensures Priced(r, slot, a, keep, only) == Priced(r, slot, b, keep, only)
  {
    TotalReads(r, slot.entries, a, b, keep, only);
    var total := Total(r, slot.entries, a, keep, only);
    if total.Some? {
      ValueReadsNames(slot.formula, WithTotal(a, total.value), WithTotal(b, total.value));
    }
  }

  /** A slot says all the names it looks up exactly when no element names the total; then its price depends on those. */
  lemma PriceDependsOnReads(r: Records, slot: Slot, a: Env, b: Env, keep: string -> real, only: Option<string>)
    ensures LooksUp(slot) == Reads(slot) <==> "total" !in EntriesNames(slot.entries)
    ensures "total" !in EntriesNames(slot.entries) && Agree(a, b, Reads(slot)) ==>
              Priced(r, slot, a, keep, only) == Priced(r, slot, b, keep, only)
  {
    assert "total" !in Reads(slot);
    if "total" !in EntriesNames(slot.entries) {
      assert LooksUp(slot) == Reads(slot);
      if Agree(a, b, Reads(slot)) {
        PriceDependsOnNames(r, slot, a, b, keep, only);
      }
    } else {
      assert "total" in LooksUp(slot);
    }
  }

  function ReadsTheTotal(op: string): Slot {
    Slot(Name("total"), [Entry(op, Name("total"))])
  }

  /** An element that reads the total: the slot says it reads nothing, and is priced at what the caller binds there. */
  lemma ElementReadingTheTotal(r: Records, op: string, env: Env, bound: real)
    requires env.lookup("total") == Some(bound)
    ensures Reads(ReadsTheTotal(op)) == {}
    ensures Priced(r, ReadsTheTotal(op), env, _ => 1.0, None) == Some(bound)
  {
    var entries := ReadsTheTotal(op).entries;
    assert entries[..0] == [] && entries[..1] == entries;
    assert Names(entries[0].elements) == {"total"};
    assert EntriesNames([]) == {};
    TotalStep(r, entries, 0, env, _ => 1.0, None);
    assert 0.0 + Share(1.0, bound) == bound;
  }

  // ---- the ops priced alone sum to all of them --------------------------------------------------

  /** The sum, over ops, of the totals priced for each alone. */
  function SumOfAlone(r: Records, ops: seq<string>, entries: seq<Entry>, env: Env): Option<real> {
    if ops == [] then Some(0.0)
    else
      var before := SumOfAlone(r, ops[..|ops| - 1], entries, env);
      var last := Total(r, entries, env, _ => 0.0, Some(ops[|ops| - 1]));
      if before.None? || last.None? then None else Some(before.value + last.value)
  }

  /** How many of some ops an entry counts toward. */
  function TimesCounted(r: Records, ops: seq<string>, name: string): nat {
    if ops == [] then 0
    else TimesCounted(r, ops[..|ops| - 1], name) + (if CountsToward(r, name, ops[|ops| - 1]) then 1 else 0)
  }

  lemma {:induction false} CountsForOwner(r: Records, ops: seq<string>, name: string, owner: string)
    requires forall i, j | 0 <= i < j < |ops| :: ops[i] != ops[j]
    requires forall i | 0 <= i < |ops| :: CountsToward(r, name, ops[i]) <==> ops[i] == owner
    ensures TimesCounted(r, ops, name) == if owner in ops then 1 else 0
  {
    if ops != [] {
      var n := |ops| - 1;
      CountsForOwner(r, ops[..n], name, owner);
      assert ops == ops[..n] + [ops[n]];
    }
  }

  /** Every entry counts toward exactly one op. */
  lemma EveryEntryHasOneOp(r: Records, slot: Slot, e: Entry)
    requires WellFormed(r, slot) && e in slot.entries
    ensures TimesCounted(r, r.ops, e.name) == 1
  {
    var owner := if e.name in r.partOf then r.partOf[e.name] else e.name;
    CountsForOwner(r, r.ops, e.name, owner);
  }

  /** One more entry adds its elements to the sum for the one op it counts toward. */
  lemma {:induction false} OneMoreEntry(r: Records, ops: seq<string>, entries: seq<Entry>, env: Env)
    requires entries != [] && TimesCounted(r, ops, entries[|entries| - 1].name) <= 1
    ensures var n := |entries| - 1;
            SumOfAlone(r, ops, entries, env) ==
            Accumulated(SumOfAlone(r, ops, entries[..n], env), TimesCounted(r, ops, entries[n].name) as real,
                        Value(entries[n].elements, env))
  {
    if ops != [] {
      var few, op := ops[..|ops| - 1], ops[|ops| - 1];
      OneMoreEntry(r, few, entries, env);
      OneMoreAlone(r, op, entries, env);
    }
  }

  lemma OneMoreAlone(r: Records, op: string, entries: seq<Entry>, env: Env)
    requires entries != []
    ensures var n := |entries| - 1;
            Total(r, entries, env, _ => 0.0, Some(op)) ==
            Accumulated(Total(r, entries[..n], env, _ => 0.0, Some(op)), Truth(CountsToward(r, entries[n].name, op)),
                        Value(entries[n].elements, env))
  {
  }

  /**
   * In every slot, the totals priced for each op of the op vector alone sum to the total with
   * everything kept; one of them raises exactly when that does.
   */
  lemma {:induction false} AloneSumsToAll(r: Records, slot: Slot, env: Env)
    requires WellFormed(r, slot)
    ensures SumOfAlone(r, r.ops, slot.entries, env) == Total(r, slot.entries, env, _ => 1.0, None)
    decreases |slot.entries|
  {
    if slot.entries == [] {
      NothingAlone(r, r.ops, env);
    } else {
      var n := |slot.entries| - 1;
      AloneSumsToAll(r, slot.(entries := slot.entries[..n]), env);
      EveryEntryHasOneOp(r, slot, slot.entries[n]);
      OneMoreEntry(r, r.ops, slot.entries, env);
    }
  }

  lemma {:induction false} NothingAlone(r: Records, ops: seq<string>, env: Env)
    ensures SumOfAlone(r, ops, [], env) == Some(0.0)
  {
    if ops != [] {
      NothingAlone(r, ops[..|ops| - 1], env);
    }
  }
}
