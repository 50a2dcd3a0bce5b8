/**
  The bottom-up rewriting optimizer of the Python compiler.

  Nodes are what Python holds: a string straight from the text, a number made by folding, or a
  list. How a string is read as a number is a parameter. Evaluation is three-valued and strict:
  Err marks an expression without a meaning, such as a number where a truth value belongs.
 */
module Optimizer {
  import opened Wrappers

  datatype Num = I(n: int) | R(x: real)

  datatype Py = Str(s: string) | Lit(v: Num) | Lst(xs: seq<Py>)

  /** int(s), or float(s) when s holds a point; None for ValueError. */
  type NumberReader = string -> Option<Num>

  function AsReal(a: Num): real {
    match a case I(n) => n as real case R(x) => x
  }

  predicate NumEq(a: Num, b: Num) { AsReal(a) == AsReal(b) }

  function FloorDiv(a: int, b: int): int
    requires b != 0
  {
    if b > 0 then a / b else (-a) / (-b)
  }

  predicate IsArith(op: string) { op in ["add", "sub", "mul", "div"] }

  function Fold(op: string, a: Num, b: Num): Num
    requires IsArith(op) && (op == "div" ==> AsReal(b) != 0.0)
  {
    if a.I? && b.I? then
      I(if op == "add" then a.n + b.n else if op == "sub" then a.n - b.n
        else if op == "mul" then a.n * b.n else FloorDiv(a.n, b.n))
    else
      R(if op == "add" then AsReal(a) + AsReal(b) else if op == "sub" then AsReal(a) - AsReal(b)
        else if op == "mul" then AsReal(a) * AsReal(b) else AsReal(a) / AsReal(b))
  }

  // ---- the rules ----

  function AsNumber(x: Py, num: NumberReader): Option<Num> {
    match x case Str(s) => num(s) case Lit(v) => Some(v) case Lst(_) => None
  }

  /** x in ("true", True) */
  predicate IsTrue(x: Py) { x == Str("true") || (x.Lit? && NumEq(x.v, I(1))) }

  /** x in ("false", False) */
  predicate IsFalse(x: Py) { x == Str("false") || (x.Lit? && NumEq(x.v, I(0))) }

  /** Equal atoms; lists and texts that begin with a bracket never fold. */
  predicate SameAtom(l: Py, r: Py) {
    match (l, r)
    case (Str(a), Str(b)) => a == b && (a == "" || a[0] != '(')
    case (Lit(a), Lit(b)) => NumEq(a, b)
    case _ => false
  }

  function Reject(op: string, xs: seq<Py>): (r: seq<Py>)
    ensures |r| <= |xs|
    ensures forall x :: x in r <==> x in xs && !IsUnit(op, x)
  {
    if xs == [] then []
    else (if IsUnit(op, xs[0]) then [] else [xs[0]]) + Reject(op, xs[1..])
  }

  /** The operand that decides a junction, and the one that can be left out of it. */
  predicate IsZero(op: string, x: Py) { if op == "and" then IsFalse(x) else IsTrue(x) }
  predicate IsUnit(op: string, x: Py) { if op == "and" then IsTrue(x) else IsFalse(x) }

  function Word(b: bool): Py { Str(if b then "true" else "false") }

  /** and / or over optimized operands. */
  function Reduce(op: string, args: seq<Py>): Py {
    if exists x :: x in args && IsZero(op, x) then Word(op == "or")
    else
      var kept := Reject(op, args);
      if kept == [] then Word(op == "and") else if |kept| == 1 then kept[0] else Lst([Str(op)] + kept)
  }

  predicate Folds(xs: seq<Py>, num: NumberReader)
    requires xs != []
  {
    && |xs| == 3 && xs[0].Str? && IsArith(xs[0].s)
    && AsNumber(xs[1], num).Some? && AsNumber(xs[2], num).Some?
    && (xs[0].s == "div" ==> AsReal(AsNumber(xs[2], num).value) != 0.0)
  }

  /** The rule that applies to a list whose members are already optimized, if any does. */
  function Rewrite(xs: seq<Py>, num: NumberReader): Py
    requires xs != []
  {
    if !xs[0].Str? then Lst(xs)
    else
      var op := xs[0].s;
      if Folds(xs, num) then Lit(Fold(op, AsNumber(xs[1], num).value, AsNumber(xs[2], num).value))
      else if op == "eq" && |xs| == 3 && SameAtom(xs[1], xs[2]) then Str("true")
      else if op == "not" && |xs| == 2 && IsTrue(xs[1]) then Str("false")
      else if op == "not" && |xs| == 2 && IsFalse(xs[1]) then Str("true")
      else if op == "not" && |xs| == 2 && xs[1].Lst? && |xs[1].xs| == 2 && xs[1].xs[0] == Str("not") then xs[1].xs[1]
      else if (op == "and" || op == "or") && |xs| >= 2 then Reduce(op, xs[1..])
      else Lst(xs)
  }

  function Optimize(n: Py, num: NumberReader): Py
    decreases n, 0
  {
    match n
    case Lst(xs) => if xs == [] then n else Rewrite(OptimizeAll(xs, num), num)
    case _ => n
  }

  function OptimizeAll(xs: seq<Py>, num: NumberReader): (r: seq<Py>)
    ensures |r| == |xs|
    ensures forall i :: 0 <= i < |xs| ==> r[i] == Optimize(xs[i], num)
    decreases xs, 1
  {
    if xs == [] then [] else [Optimize(xs[0], num)] + OptimizeAll(xs[1..], num)
  }

  // ---- normal form ----

  predicate Normal(n: Py, num: NumberReader) {
    n.Lst? ==>
      && (forall x :: x in n.xs ==> Normal(x, num))
      && (n.xs != [] ==> Rewrite(n.xs, num) == n)
  }

  lemma {:induction false} RejectKept(op: string, xs: seq<Py>)
    requires forall x :: x in xs ==> !IsUnit(op, x)
    ensures Reject(op, xs) == xs
  {
    if xs != [] {
      RejectKept(op, xs[1..]);
    }
  }

  /** What is left of a conjunction or disjunction cannot be reduced again. */
  lemma {:induction false} ReduceNormal(op: string, args: seq<Py>, num: NumberReader)
    requires op == "and" || op == "or"
    requires forall x :: x in args ==> Normal(x, num)
    ensures Normal(Reduce(op, args), num)
  {
    var kept := Reject(op, args);
    if exists x :: x in args && IsZero(op, x) {
    } else if |kept| == 1 {
      assert kept[0] in kept;
    } else if kept != [] {
      var r := [Str(op)] + kept;
      assert r[1..] == kept && r[0] == Str(op);
      RejectKept(op, kept);
      RewriteJunction(op, kept, num);
      assert Reduce(op, kept) == Lst(r);
    }
  }

  lemma {:induction false} RewriteJunction(op: string, args: seq<Py>, num: NumberReader)
    requires (op == "and" || op == "or") && args != []
    ensures Rewrite([Str(op)] + args, num) == Reduce(op, args)
  {
    var r := [Str(op)] + args;
    assert r[1..] == args && r[0] == Str(op);
    if op == "and" {
      assert !Folds(r, num);
    } else {
      assert !Folds(r, num);
    }
  }

  /** No rule applies anywhere in what a rule returns. */
  lemma {:induction false} RewriteNormal(xs: seq<Py>, num: NumberReader)
    requires xs != [] && forall x :: x in xs ==> Normal(x, num)
    ensures Normal(Rewrite(xs, num), num)
  {
    var r := Rewrite(xs, num);
    if r.Lst? && r != Lst(xs) {
      var op := xs[0].s;
      if op == "not" {
        assert xs[1] in xs && xs[1].xs[1] in xs[1].xs;
      } else {
        ReduceNormal(op, xs[1..], num);
      }
    }
  }

  lemma {:induction false} OptimizeNormal(n: Py, num: NumberReader)
    ensures Normal(Optimize(n, num), num)
    decreases n
  {
    if n.Lst? && n.xs != [] {
      var ys := OptimizeAll(n.xs, num);
      forall y | y in ys
        ensures Normal(y, num)
      {
        var i :| 0 <= i < |ys| && ys[i] == y;
        OptimizeNormal(n.xs[i], num);
      }
      RewriteNormal(ys, num);
    }
  }

  lemma {:induction false} NormalIsFixed(n: Py, num: NumberReader)
    requires Normal(n, num)
    ensures Optimize(n, num) == n
    decreases n
  {
    if n.Lst? && n.xs != [] {
      forall i | 0 <= i < |n.xs|
        ensures Optimize(n.xs[i], num) == n.xs[i]
      {
        NormalIsFixed(n.xs[i], num);
      }
      assert OptimizeAll(n.xs, num) == n.xs;
    }
  }

  /** One pass reaches a normal form, so a second pass changes nothing. */
  lemma {:induction false} SecondPassIsIdentity(n: Py, num: NumberReader)
    ensures Optimize(Optimize(n, num), num) == Optimize(n, num)
  {
    OptimizeNormal(n, num);
    NormalIsFixed(Optimize(n, num), num);
  }

  // ---- size and skeleton ----

  function Size(n: Py): (r: nat)
    ensures r >= 1
    decreases n, 0
  {
    match n case Lst(xs) => 1 + SizeAll(xs) case _ => 1
  }

  function SizeAll(xs: seq<Py>): (r: nat)
    ensures r >= |xs|
    decreases xs, 1
  {
    if xs == [] then 0 else Size(xs[0]) + SizeAll(xs[1..])
  }

  lemma {:induction false} MemberSize(xs: seq<Py>, x: Py)
    requires x in xs
    ensures Size(x) <= SizeAll(xs)
  {
    if x != xs[0] {
      MemberSize(xs[1..], x);
    }
  }

  lemma {:induction false} RejectSize(op: string, xs: seq<Py>)
    ensures SizeAll(Reject(op, xs)) <= SizeAll(xs)
  {
    if xs != [] {
      RejectSize(op, xs[1..]);
      var r := Reject(op, xs[1..]);
      assert ([xs[0]] + r)[1..] == r && [] + r == r;
    }
  }

  lemma {:induction false} RewriteSize(xs: seq<Py>, num: NumberReader)
    requires xs != []
    ensures Size(Rewrite(xs, num)) <= 1 + SizeAll(xs)
  {
    var r := Rewrite(xs, num);
    if r.Lst? && r != Lst(xs) {
      var op := xs[0].s;
      if op == "not" {
        MemberSize(xs, xs[1]);
        MemberSize(xs[1].xs, r);
      } else {
        var kept := Reject(op, xs[1..]);
        RejectSize(op, xs[1..]);
        if |kept| == 1 {
          MemberSize(kept, r);
        } else {
          assert r.xs[1..] == kept;
        }
      }
    }
  }

  lemma {:induction false} NeverGrows(n: Py, num: NumberReader)
    ensures Size(Optimize(n, num)) <= Size(n)
    decreases n, 0
  {
    if n.Lst? && n.xs != [] {
      NeverGrowsAll(n.xs, num);
      RewriteSize(OptimizeAll(n.xs, num), num);
    }
  }

  lemma {:induction false} NeverGrowsAll(xs: seq<Py>, num: NumberReader)
    ensures SizeAll(OptimizeAll(xs, num)) <= SizeAll(xs)
    decreases xs, 1
  {
    if xs != [] {
      NeverGrows(xs[0], num);
      NeverGrowsAll(xs[1..], num);
      assert OptimizeAll(xs, num)[1..] == OptimizeAll(xs[1..], num);
    }
  }

  predicate IsRuleHead(s: string) { IsArith(s) || s in ["eq", "not", "and", "or"] }

  /** A form whose head no rule knows keeps its head, its arity and the order of its members. */
  predicate IsForm(n: Py) {
    n.Lst? && n.xs != [] && n.xs[0].Str? && !IsRuleHead(n.xs[0].s)
  }

  lemma {:induction false} FormKept(n: Py, num: NumberReader)
    requires IsForm(n)
    ensures Optimize(n, num) == Lst(OptimizeAll(n.xs, num))
    ensures IsForm(Optimize(n, num)) && Optimize(n, num).xs[0] == n.xs[0]
  {
  }

  /** (nlsql version (query clause ...) ...) with any clauses whose heads no rule knows. */
  predicate IsQuery(n: Py) {
    && IsForm(n) && |n.xs| >= 3 && n.xs[1].Str? && IsForm(n.xs[2])
    && forall i :: 1 <= i < |n.xs[2].xs| ==> IsForm(n.xs[2].xs[i])
  }

  /** The clauses stay where they are, and each keeps its head and its arity. */
  lemma {:induction false} SkeletonKept(n: Py, num: NumberReader)
    requires IsQuery(n)
    ensures var m := Optimize(n, num);
            && IsQuery(m) && |m.xs| == |n.xs| && m.xs[0] == n.xs[0] && m.xs[1] == n.xs[1]
            && var q, p := n.xs[2].xs, m.xs[2].xs;
               && |p| == |q| && p[0] == q[0]
               && forall i :: 1 <= i < |q| ==> p[i] == Lst(OptimizeAll(q[i].xs, num)) && p[i].xs[0] == q[i].xs[0]
  {
    var q := n.xs[2];
    FormKept(n, num);
    FormKept(q, num);
    forall i | 1 <= i < |q.xs|
      ensures Optimize(q.xs[i], num) == Lst(OptimizeAll(q.xs[i].xs, num))
    {
      FormKept(q.xs[i], num);
    }
  }

  // ---- meaning ----

  datatype Val = Null | B(b: bool) | N(v: Num) | Other(s: string) | Err

  /** Everything an expression's value depends on besides its shape. */
  datatype Env = Env(
    num: NumberReader,
    atom: string -> Val,            // a bare word, as the database reads it
    cell: Py -> Val,                // a column, a parameter or a reference
    fn: (string, seq<Val>) -> Val,  // any other form, as a function of its arguments
    divZero: Val)

  function ArithV(op: string, a: Val, b: Val, divZero: Val): Val
    requires IsArith(op)
  {
    if !(a.Null? || a.N?) || !(b.Null? || b.N?) then Err
    else if a.Null? || b.Null? then Null
    else if op == "div" && AsReal(b.v) == 0.0 then divZero
    else N(Fold(op, a.v, b.v))
  }

  function EqV(a: Val, b: Val): Val {
    if a.Err? || b.Err? then Err
    else if a.Null? || b.Null? then Null
    else if a.N? && b.N? then B(NumEq(a.v, b.v))
    else B(a == b)
  }

  predicate Truth(a: Val) { a.Null? || a.B? }

  function NotV(a: Val): Val {
    match a case B(b) => B(!b) case Null => Null case _ => Err
  }

  /** Conjunction for zero == false, disjunction for zero == true. */
  function Junction(vs: seq<Val>, zero: bool): Val {
    if exists v :: v in vs && !Truth(v) then Err
    else if B(zero) in vs then B(zero)
    else if Null in vs then Null
    else B(!zero)
  }

  // Folding a constant leaves a number, and Python's 1 and 0 equal True and False. Where a truth
  // value belongs, an operand that folds to one of them therefore stands for true or false.

  /** The number that a constant piece of arithmetic folds to; a bare word is not arithmetic. */
  function FoldValue(x: Py, num: NumberReader): Option<Num> {
    match x
    case Str(_) => None
    case Lit(v) => Some(v)
    case Lst(xs) =>
      if |xs| != 3 || !xs[0].Str? || !IsArith(xs[0].s) then None
      else
        var a := if xs[1].Str? then Numeral(xs[1].s, num) else FoldValue(xs[1], num);
        var b := if xs[2].Str? then Numeral(xs[2].s, num) else FoldValue(xs[2], num);
        if a.None? || b.None? || (xs[0].s == "div" && AsReal(b.value) == 0.0) then None
        else Some(Fold(xs[0].s, a.value, b.value))
  }

  function Numeral(s: string, num: NumberReader): Option<Num> {
    if s == "true" || s == "false" then None else num(s)
  }

  predicate IsBit(v: Num) { NumEq(v, I(0)) || NumEq(v, I(1)) }

  /** The value of an operand of not, and, or. */
  function Operand(x: Py, env: Env): Val
    decreases x, 1
  {
    var v := FoldValue(x, env.num);
    if v.Some? && IsBit(v.value) then B(NumEq(v.value, I(1))) else Eval(x, env)
  }

  predicate TakesTruth(op: string) { op in ["not", "and", "or"] }

  function Arg(op: string, x: Py, env: Env): Val
    decreases x, 2
  {
    if TakesTruth(op) then Operand(x, env) else Eval(x, env)
  }

  function Eval(n: Py, env: Env): Val
    decreases n, 0
  {
    match n
    case Str(s) =>
      if s == "true" then B(true) else if s == "false" then B(false)
      else if env.num(s).Some? then N(env.num(s).value)
      else env.atom(s)
    case Lit(v) => N(v)
    case Lst(xs) =>
      if xs == [] || !xs[0].Str? then Err
      else
        var op := xs[0].s;
        if op in ["column", "param", "ref"] then
          if forall x :: x in xs ==> x.Str? then env.cell(n) else Err
        else Apply(op, ArgAll(op, xs[1..], env), env)
  }

  function Apply(op: string, vs: seq<Val>, env: Env): Val {
    if IsArith(op) then if |vs| == 2 then ArithV(op, vs[0], vs[1], env.divZero) else Err
    else if op == "eq" then if |vs| == 2 then EqV(vs[0], vs[1]) else Err
    else if op == "not" then if |vs| == 1 then NotV(vs[0]) else Err
    else if op == "and" then if vs != [] then Junction(vs, false) else Err
    else if op == "or" then if vs != [] then Junction(vs, true) else Err
    else if Err in vs then Err else env.fn(op, vs)
  }

  function ArgAll(op: string, xs: seq<Py>, env: Env): (r: seq<Val>)
    ensures |r| == |xs|
    ensures forall i :: 0 <= i < |xs| ==> r[i] == Arg(op, xs[i], env)
    decreases xs, 3
  {
    if xs == [] then [] else [Arg(op, xs[0], env)] + ArgAll(op, xs[1..], env)
  }

  /** The equality rule fires on a word that the database reads as NULL. */
  predicate FoldsNull(xs: seq<Py>, env: Env)
    requires |xs| > 0
  {
    xs[0] == Str("eq") && |xs| == 3 && SameAtom(xs[1], xs[2]) && Eval(xs[1], env) == Null
  }

  predicate NullSafe(n: Py, env: Env) {
    n.Lst? && n.xs != [] ==>
      && (forall x :: x in n.xs ==> NullSafe(x, env))
      && !FoldsNull(OptimizeAll(n.xs, env.num), env)
  }

  lemma {:induction false} JunctionDropsUnits(vs: seq<Val>, ws: seq<Val>, zero: bool)
    requires forall v :: v in ws ==> v in vs
    requires forall v :: v in vs ==> Truth(v) && (v in ws || v == B(!zero))
    ensures Junction(vs, zero) == Junction(ws, zero)
  {
  }

  // ---- constants ----

  /** Constant arithmetic has the value it folds to. */
  lemma {:induction false} FoldIsValue(x: Py, env: Env)
    requires FoldValue(x, env.num).Some?
    ensures Eval(x, env) == N(FoldValue(x, env.num).value)
  {
    if x.Lst? {
      var xs := x.xs;
      forall i | 1 <= i <= 2
        ensures var v := if xs[i].Str? then Numeral(xs[i].s, env.num) else FoldValue(xs[i], env.num);
                v.Some? && Eval(xs[i], env) == N(v.value)
      {
        if !xs[i].Str? { FoldIsValue(xs[i], env); }
      }
      var vs := ArgAll(xs[0].s, xs[1..], env);
      assert vs == [Eval(xs[1], env), Eval(xs[2], env)];
    }
  }

  /** And the optimizer folds it to that number. */
  lemma {:induction false} FoldIsOptimized(x: Py, num: NumberReader)
    requires FoldValue(x, num).Some?
    ensures Optimize(x, num) == Lit(FoldValue(x, num).value)
  {
    if x.Lst? {
      var xs, ys := x.xs, OptimizeAll(x.xs, num);
      forall i | 1 <= i <= 2
        ensures AsNumber(ys[i], num) == if xs[i].Str? then Numeral(xs[i].s, num) else FoldValue(xs[i], num)
      {
        if !xs[i].Str? { FoldIsOptimized(xs[i], num); }
      }
      assert ys[0] == xs[0];
    }
  }

  /** In a normal form the only constant arithmetic left is a number. */
  lemma {:induction false} NormalIsPlain(x: Py, num: NumberReader)
    requires Normal(x, num) && FoldValue(x, num).Some?
    ensures x.Lit?
  {
    FoldIsOptimized(x, num);
    NormalIsFixed(x, num);
  }

  /** An operand of equal value, optimized, is an equal operand. */
  lemma {:induction false} OperandKept(op: string, x: Py, env: Env)
    requires Eval(Optimize(x, env.num), env) == Eval(x, env)
    requires TakesTruth(op) ==> Truth(Operand(x, env))
    ensures Arg(op, Optimize(x, env.num), env) == Arg(op, x, env)
  {
    var y := Optimize(x, env.num);
    if FoldValue(x, env.num).Some? {
      FoldIsOptimized(x, env.num);
    } else if FoldValue(y, env.num).Some? {
      FoldIsValue(y, env);
    }
  }

  // ---- and, or ----

  lemma {:induction false} ArgIn(op: string, xs: seq<Py>, x: Py, env: Env)
    requires x in xs
    ensures Arg(op, x, env) in ArgAll(op, xs, env)
  {
    var i :| 0 <= i < |xs| && xs[i] == x;
    assert ArgAll(op, xs, env)[i] == Arg(op, x, env);
  }

  /** The operand behind a value. */
  lemma {:induction false} ArgOf(op: string, xs: seq<Py>, v: Val, env: Env) returns (x: Py)
    requires v in ArgAll(op, xs, env)
    ensures x in xs && Arg(op, x, env) == v
  {
    var i :| 0 <= i < |xs| && ArgAll(op, xs, env)[i] == v;
    x := xs[i];
  }

  lemma {:induction false} RejectSound(op: string, args: seq<Py>, env: Env)
    requires op == "and" || op == "or"
    requires forall x :: x in args ==> Truth(Operand(x, env))
    ensures Junction(ArgAll(op, Reject(op, args), env), op == "or") == Junction(ArgAll(op, args, env), op == "or")
  {
    var kept := Reject(op, args);
    var vs, ws := ArgAll(op, args, env), ArgAll(op, kept, env);
    forall v | v in ws
      ensures v in vs
    {
      var x := ArgOf(op, kept, v, env);
      ArgIn(op, args, x, env);
    }
    forall v | v in vs
      ensures Truth(v) && (v in ws || v == B(op != "or"))
    {
      var x := ArgOf(op, args, v, env);
      if x in kept { ArgIn(op, kept, x, env); }
    }
    JunctionDropsUnits(vs, ws, op == "or");
  }

  /** A deciding operand decides, whatever the others are, once all of them are truth values. */
  lemma {:induction false} ZeroDecides(op: string, args: seq<Py>, x: Py, env: Env)
    requires op == "and" || op == "or"
    requires x in args && IsZero(op, x) && forall x :: x in args ==> Truth(Operand(x, env))
    ensures Junction(ArgAll(op, args, env), op == "or") == B(op == "or")
  {
    var vs := ArgAll(op, args, env);
    forall v | v in vs
      ensures Truth(v)
    {
      var i :| 0 <= i < |vs| && vs[i] == v;
      assert args[i] in args;
    }
    var i :| 0 <= i < |args| && args[i] == x;
    assert vs[i] == B(op == "or");
  }

  lemma {:induction false} EvalJunction(op: string, args: seq<Py>, env: Env)
    requires (op == "and" || op == "or") && args != []
    ensures Eval(Lst([Str(op)] + args), env) == Junction(ArgAll(op, args, env), op == "or")
  {
    var r := [Str(op)] + args;
    assert r[1..] == args && r[0] == Str(op);
    if op == "and" {
      assert Eval(Lst(r), env) == Apply("and", ArgAll("and", args, env), env);
    } else {
      assert Eval(Lst(r), env) == Apply("or", ArgAll("or", args, env), env);
    }
  }

  /** No arithmetic is left in it that would still fold. */
  predicate KeepsKind(x: Py, env: Env) { FoldValue(x, env.num).Some? ==> x.Lit? }

  /**
    Reducing the operands of a junction keeps its value, once every operand that does not fold to
    0 or 1 is a truth value. Those that do are dropped or decide.
   */
  lemma {:induction false} ReduceSound(op: string, args: seq<Py>, env: Env)
    requires op == "and" || op == "or"
    requires forall x :: x in args ==> Truth(Operand(x, env)) && KeepsKind(x, env)
    ensures Eval(Reduce(op, args), env) == Junction(ArgAll(op, args, env), op == "or")
  {
    if x :| x in args && IsZero(op, x) {
      ZeroDecides(op, args, x, env);
    } else {
      var kept := Reject(op, args);
      RejectSound(op, args, env);
      forall x | x in kept
        ensures Truth(Operand(x, env)) && Operand(x, env) == Eval(x, env)
      {
        assert x in args && !IsUnit(op, x) && !IsZero(op, x);
      }
      KeptSound(op, kept, env);
    }
  }

  lemma {:induction false} KeptSound(op: string, kept: seq<Py>, env: Env)
    requires op == "and" || op == "or"
    requires forall x :: x in kept ==> Truth(Operand(x, env)) && Operand(x, env) == Eval(x, env)
    ensures var n := if kept == [] then Word(op == "and") else if |kept| == 1 then kept[0] else Lst([Str(op)] + kept);
            Eval(n, env) == Junction(ArgAll(op, kept, env), op == "or")
  {
    if |kept| <= 1 {
      FewOperands(op, kept, env);
    } else {
      EvalJunction(op, kept, env);
    }
  }

  /** A junction of nothing is its unit and a junction of one truth value is that value. */
  lemma {:induction false} FewOperands(op: string, kept: seq<Py>, env: Env)
    requires op == "and" || op == "or"
    requires |kept| <= 1 && forall x :: x in kept ==> Truth(Operand(x, env))
    ensures Junction(ArgAll(op, kept, env), op == "or") == if kept == [] then B(op == "and") else Operand(kept[0], env)
  {
    var vs := ArgAll(op, kept, env);
    if kept != [] {
      assert kept[0] in kept;
      assert vs == [Operand(kept[0], env)];
      assert vs[0] in vs;
    }
  }

  // ---- all rules ----

  /** not: of a constant, of a folded bit, and of another not. */
  lemma {:induction false} NotSound(xs: seq<Py>, env: Env)
    requires |xs| == 2 && xs[0] == Str("not") && Eval(Lst(xs), env) != Err && Normal(xs[1], env.num)
    ensures Eval(Rewrite(xs, env.num), env) == Eval(Lst(xs), env)
  {
    var x := xs[1];
    assert ArgAll("not", xs[1..], env) == [Operand(x, env)];
    if x.Lst? && |x.xs| == 2 && x.xs[0] == Str("not") {
      var y := x.xs[1];
      assert y in x.xs;
      assert ArgAll("not", x.xs[1..], env) == [Operand(y, env)];
      assert Rewrite(x.xs, env.num) == x;
      if FoldValue(y, env.num).Some? { NormalIsPlain(y, env.num); }
      assert Operand(y, env) == Eval(y, env);
    }
  }

  /** One rule application keeps the value of a list whose members are optimized. */
  lemma {:induction false} RewriteSound(xs: seq<Py>, env: Env)
    requires xs != [] && Eval(Lst(xs), env) != Err && !FoldsNull(xs, env)
    requires forall x :: x in xs ==> Normal(x, env.num)
    ensures Eval(Rewrite(xs, env.num), env) == Eval(Lst(xs), env)
  {
    var op, args := xs[0].s, xs[1..];
    var vs := ArgAll(op, args, env);
    if Folds(xs, env.num) || (op == "eq" && |xs| == 3 && SameAtom(xs[1], xs[2])) {
      assert vs == [Eval(xs[1], env), Eval(xs[2], env)];
    } else if op == "not" && |xs| == 2 {
      assert xs[1] in xs;
      NotSound(xs, env);
    } else if (op == "and" || op == "or") && |xs| >= 2 {
      JunctionSound(xs, env);
    }
  }

  lemma {:induction false} JunctionSound(xs: seq<Py>, env: Env)
    requires |xs| >= 2 && (xs[0] == Str("and") || xs[0] == Str("or")) && Eval(Lst(xs), env) != Err
    requires forall x :: x in xs ==> Normal(x, env.num)
    ensures Eval(Reduce(xs[0].s, xs[1..]), env) == Eval(Lst(xs), env)
  {
    var op, args := xs[0].s, xs[1..];
    forall x | x in args
      ensures Truth(Operand(x, env)) && KeepsKind(x, env)
    {
      ArgIn(op, args, x, env);
      assert x in xs;
      if FoldValue(x, env.num).Some? { NormalIsPlain(x, env.num); }
    }
    ReduceSound(op, args, env);
  }

  /** A list keeps its value when its members are replaced by members of equal value. */
  lemma {:induction false} EvalCongruent(xs: seq<Py>, ys: seq<Py>, env: Env)
    requires |xs| == |ys| > 0 && xs[0] == ys[0]
    requires forall i :: 0 < i < |xs| ==> (xs[i].Str? ==> ys[i] == xs[i])
    requires xs[0].Str? ==> forall i :: 0 < i < |xs| ==> Arg(xs[0].s, xs[i], env) == Arg(xs[0].s, ys[i], env)
    requires Eval(Lst(xs), env) != Err
    ensures Eval(Lst(ys), env) == Eval(Lst(xs), env)
  {
    if xs[0].s in ["column", "param", "ref"] {
      forall i | 0 <= i < |xs|
        ensures ys[i] == xs[i]
      {
        assert xs[i] in xs;
      }
      assert xs == ys;
    } else {
      assert ArgAll(xs[0].s, xs[1..], env) == ArgAll(xs[0].s, ys[1..], env);
    }
  }

  /** Strictness: a list that has a value has members that have values, truth values where it needs them. */
  lemma {:induction false} MembersHaveValues(xs: seq<Py>, env: Env, i: nat)
    requires 0 < i < |xs| && Eval(Lst(xs), env) != Err
    ensures xs[0].s !in ["column", "param", "ref"] ==>
              Eval(xs[i], env) != Err && (TakesTruth(xs[0].s) ==> Truth(Operand(xs[i], env)))
  {
    var op := xs[0].s;
    if op !in ["column", "param", "ref"] {
      var vs := ArgAll(op, xs[1..], env);
      assert Eval(Lst(xs), env) == Apply(op, vs, env);
      assert xs[1..][i - 1] == xs[i] && vs[i - 1] == Arg(op, xs[i], env);
      ApplyStrict(op, vs, Arg(op, xs[i], env), env);
      ArgHasValue(op, xs[i], env);
    }
  }

  lemma {:induction false} ArgHasValue(op: string, x: Py, env: Env)
    requires Arg(op, x, env) != Err
    ensures Eval(x, env) != Err
  {
    if FoldValue(x, env.num).Some? {
      FoldIsValue(x, env);
    }
  }

  lemma {:induction false} ApplyStrict(op: string, vs: seq<Val>, v: Val, env: Env)
    requires v in vs && Apply(op, vs, env) != Err
    ensures v != Err && (TakesTruth(op) ==> Truth(v))
  {
    var i :| 0 <= i < |vs| && vs[i] == v;
  }

  /**
    The optimizer keeps the meaning of every expression that has one: the same number, or the
    same true, false or NULL. NullSafe excludes the one rule that can go wrong.
   */
  lemma {:induction false} OptimizeSound(n: Py, env: Env)
    requires Eval(n, env) != Err && NullSafe(n, env)
    ensures Eval(Optimize(n, env.num), env) == Eval(n, env)
    decreases n
  {
    if n.Lst? {
      var xs, ys := n.xs, OptimizeAll(n.xs, env.num);
      forall i | 0 < i < |xs|
        ensures xs[i].Str? ==> ys[i] == xs[i]
        ensures Arg(xs[0].s, xs[i], env) == Arg(xs[0].s, ys[i], env)
      {
        assert xs[i] in xs;
        if xs[0].s in ["column", "param", "ref"] {
          assert xs[i].Str?;
        } else {
          MembersHaveValues(xs, env, i);
          OptimizeSound(xs[i], env);
          OperandKept(xs[0].s, xs[i], env);
        }
      }
      EvalCongruent(xs, ys, env);
      OptimizedMembers(xs, env.num);
      RewriteSound(ys, env);
    }
  }

  lemma {:induction false} OptimizedMembers(xs: seq<Py>, num: NumberReader)
    ensures forall y :: y in OptimizeAll(xs, num) ==> Normal(y, num)
  {
    var ys := OptimizeAll(xs, num);
    forall y | y in ys
      ensures Normal(y, num)
    {
      var i :| 0 <= i < |ys| && ys[i] == y;
      OptimizeNormal(xs[i], num);
    }
  }

  /** A number in the place of a truth value: the negation of 2 - 1 is false, before and after. */
  lemma {:induction false} FoldedBitIsTruth(env: Env)
    requires env.num("2") == Some(I(2)) && env.num("1") == Some(I(1))
    ensures var n := Lst([Str("not"), Lst([Str("sub"), Str("2"), Str("1")])]);
            Eval(n, env) == B(false) && Optimize(n, env.num) == Str("false")
  {
    var x := Lst([Str("sub"), Str("2"), Str("1")]);
    var n := Lst([Str("not"), x]);
    assert Numeral("2", env.num) == Some(I(2)) && Numeral("1", env.num) == Some(I(1));
    assert FoldValue(x, env.num) == Some(I(1));
    FoldIsOptimized(x, env.num);
    assert OptimizeAll(n.xs, env.num) == [Str("not"), Lit(I(1))];
    assert Rewrite([Str("not"), Lit(I(1))], env.num) == Str("false");
    assert n.xs[1..] == [x] && Operand(x, env) == B(true);
    assert ArgAll("not", [x], env) == [B(true)];
    assert Eval(n, env) == Apply("not", [B(true)], env);
  }

  /** At an equality the condition is exact: folding is right iff the folded word is not NULL. */
  lemma {:induction false} EqualityFoldExactly(l: Py, r: Py, env: Env)
    requires Eval(Lst([Str("eq"), l, r]), env) != Err && NullSafe(l, env) && NullSafe(r, env)
    ensures var n := Lst([Str("eq"), l, r]);
            Eval(Optimize(n, env.num), env) == Eval(n, env)
            <==> !FoldsNull(OptimizeAll(n.xs, env.num), env)
  {
    var n := Lst([Str("eq"), l, r]);
    assert n.xs[1..] == [l, r];
    assert ArgAll("eq", [l, r], env) == [Eval(l, env), Eval(r, env)];
    var ys := OptimizeAll(n.xs, env.num);
    assert ys == [Str("eq"), Optimize(l, env.num), Optimize(r, env.num)];
    OptimizeSound(l, env);
    OptimizeSound(r, env);
    if !FoldsNull(ys, env) {
      assert NullSafe(n, env);
      OptimizeSound(n, env);
    }
  }

  /** For two words, told by the request: right unless they are one word and that is NULL. */
  lemma {:induction false} WordEqualityExactly(v: string, w: string, env: Env)
    requires Eval(Lst([Str("eq"), Str(v), Str(w)]), env) != Err
    ensures var n := Lst([Str("eq"), Str(v), Str(w)]);
            Eval(Optimize(n, env.num), env) == Eval(n, env) <==> !(SameAtom(Str(v), Str(w)) && Eval(Str(v), env) == Null)
  {
    var n := Lst([Str("eq"), Str(v), Str(w)]);
    EqualityFoldExactly(Str(v), Str(w), env);
    assert OptimizeAll(n.xs, env.num) == n.xs;
  }

  /** The failing input: NULL = NULL is NULL, and is folded to true. */
  lemma {:induction false} NullEqualsNullIsFolded(env: Env)
    requires env.num("null") == None && env.atom("null") == Null
    ensures var n := Lst([Str("eq"), Str("null"), Str("null")]);
            Eval(n, env) == Null && Eval(Optimize(n, env.num), env) == B(true)
  {
    var n := Lst([Str("eq"), Str("null"), Str("null")]);
    assert n.xs[1..] == [Str("null"), Str("null")];
    assert ArgAll("eq", n.xs[1..], env) == [Null, Null];
    assert OptimizeAll(n.xs, env.num) == n.xs;
  }
}
