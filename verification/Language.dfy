/**
  The language of requests, told by its words. Every SQL expression is the expression of one
  request tree, so what is written for a tree gives the tree back.
 */
module Language {
  import opened Wrappers
  import opened Sexpr
  import opened Catalog
  import opened Emit
  import E = SqlExpr
  import Sql
  import Typing

  function OpWord(op: E.BinOp): string {
    match op
    case Eq => "eq" case Gte => "gte" case Gt => "gt" case Lte => "lte" case Lt => "lt" case Neq => "neq"
    case Mul => "mul" case Add => "add" case Sub => "sub" case Div => "div"
  }

  function TypeWord(t: SqlType): string {
    match t
    case BooleanT => "boolean" case Int64T => "int64" case Uint64T => "uint64" case DecimalT => "decimal"
    case Float64T => "float64" case TextT => "text" case BinaryT => "binary" case UuidT => "uuid"
    case DateT => "date" case TimestampT => "timestamp" case TimestampTzT => "timestamptz"
    case UnknownT => "" case NullT => ""
  }

  /** The word for an SQL function, with DISTINCT or without. */
  function CallWord(f: string, distinct: bool): string {
    if distinct then (if f == "COUNT" then "count-distinct" else if f == "SUM" then "sum-distinct" else "")
    else match f
      case "LOWER" => "lower"
      case "UPPER" => "upper"
      case "TRIM" => "trim"
      case "ABS" => "abs"
      case "CONCAT" => "concat"
      case "COALESCE" => "coalesce"
      case _ => if f in ["sum", "avg", "count", "min", "max"] then f else ""
  }

  function Form1(h: string, a: Tree): Tree { Node([Atom(h), a]) }
  function Form2(h: string, a: Tree, b: Tree): Tree { Node([Atom(h), a, b]) }

  /** The request tree whose expression is e, its parameters named by the table. */
  function TreeOf(e: E.Expr, ps: seq<Param>): Tree
    decreases e, 0
  {
    match e
    case Col(a, c) => Form2("column", Atom(a), Atom(c))
    case Par(i) => if 1 <= i <= |ps| then Form2("param", Atom(ps[i - 1].name), Atom(TypeWord(ps[i - 1].ty))) else Node([])
    case Ref(n) => Form1("ref", Atom(n))
    case Call(f, distinct, args) => Node([Atom(CallWord(f, distinct))] + TreesOf(args, ps))
    case Over(a, p, o, desc) =>
      Node([Atom("window"), TreeOf(a, ps), Node([Atom("partition-by")] + TreesOf(p, ps)),
            Form2("order-by", TreeOf(o, ps), Atom(if desc then "desc" else "asc"))])
    case Bin(op, l, r) => Form2(OpWord(op), TreeOf(l, ps), TreeOf(r, ps))
    case And(es) => Node([Atom("and")] + TreesOf(es, ps))
    case Or(es) => Node([Atom("or")] + TreesOf(es, ps))
    case Not(x) => Form1("not", TreeOf(x, ps))
    case IsNull(x, negated) => Form1(if negated then "is-not-null" else "is-null", TreeOf(x, ps))
  }

  function TreesOf(es: seq<E.Expr>, ps: seq<Param>): (r: seq<Tree>)
    ensures |r| == |es| && forall i :: 0 <= i < |es| ==> r[i] == TreeOf(es[i], ps)
    decreases es, 1
  {
    if es == [] then [] else [TreeOf(es[0], ps)] + TreesOf(es[1..], ps)
  }

  /**
    What emit_expr does not look at, left out: whatever follows the ordering of a window, and any
    direction that is not desc.
   */
  function Tidy(x: Tree): Tree
    decreases x, 0
  {
    match x
    case Atom(_) => x
    case Node(k) =>
      if |k| >= 4 && k[0] == Atom("window") && k[2].Node? && k[3].Node? && |k[3].kids| == 3
      then Node([k[0], Tidy(k[1]), Node(TidyAll(k[2].kids)), Node([k[3].kids[0], Tidy(k[3].kids[1]), Direction(k[3].kids[2])])])
      else Node(TidyAll(k))
  }

  function TidyAll(xs: seq<Tree>): (r: seq<Tree>)
    ensures |r| == |xs| && forall i :: 0 <= i < |xs| ==> r[i] == Tidy(xs[i])
    decreases xs, 1
  {
    if xs == [] then [] else [Tidy(xs[0])] + TidyAll(xs[1..])
  }

  function Direction(x: Tree): Tree { if x == Atom("desc") then x else Atom("asc") }

  // ---- a tree comes back from what is written for it ----

  lemma {:induction false} TypeSaid(w: string)
    requires TypeName(w) != UnknownT
    ensures TypeWord(TypeName(w)) == w
  {
  }

  lemma {:induction false} TidyTwo(a: Tree, b: Tree)
    requires a.Atom?
    ensures Tidy(Node([a, b])) == Node([a, Tidy(b)])
  {
    assert TidyAll([a, b]) == [a, Tidy(b)];
  }

  lemma {:induction false} TidyThree(a: Tree, b: Tree, c: Tree)
    requires a.Atom?
    ensures Tidy(Node([a, b, c])) == Node([a, Tidy(b), Tidy(c)])
  {
    assert TidyAll([a, b, c]) == [a, Tidy(b), Tidy(c)];
  }

  lemma {:induction false} TidyList(h: string, xs: seq<Tree>)
    requires h != "window"
    ensures Tidy(Node([Atom(h)] + xs)) == Node([Atom(h)] + TidyAll(xs))
  {
    var k := [Atom(h)] + xs;
    assert TidyAll(k) == [Atom(h)] + TidyAll(xs);
  }

  /** The words of a call, for each head that emit_expr knows. */
  lemma {:induction false} CallSaid(x: Tree)
    requires ShapeOf(x).UnaryS? || ShapeOf(x).ListS?
    ensures x.Node? && |x.kids| >= 2 && x.kids[0].Atom? && x.kids[0].text != "window"
    ensures ShapeOf(x).UnaryS? ==> x == Form1(CallWord(ShapeOf(x).fn, ShapeOf(x).distinct), ShapeOf(x).arg)
    ensures ShapeOf(x).ListS? ==> x == Node([Atom(CallWord(ShapeOf(x).fn, false))] + ShapeOf(x).args)
  {
    var k := x.kids;
    if ShapeOf(x).UnaryS? {
      assert k == [k[0], k[1]];
    } else {
      assert k == [k[0]] + k[1..];
    }
  }

  lemma {:induction false} LeafSaid(x: Tree)
    ensures ShapeOf(x).ColumnS? ==> x == Form2("column", Atom(ShapeOf(x).alias), Atom(ShapeOf(x).col))
    ensures ShapeOf(x).ParamS? ==> x == Form2("param", Atom(ShapeOf(x).name), Atom(TypeWord(ShapeOf(x).ty)))
    ensures ShapeOf(x).RefS? ==> x == Form1("ref", Atom(ShapeOf(x).name))
  {
    if ShapeOf(x).ColumnS? || ShapeOf(x).ParamS? {
      assert x.kids == [x.kids[0], x.kids[1], x.kids[2]];
      if ShapeOf(x).ParamS? { TypeSaid(x.kids[2].text); }
    } else if ShapeOf(x).RefS? {
      assert x.kids == [x.kids[0], x.kids[1]];
    }
  }

  lemma {:induction false} OperatorSaid(x: Tree)
    ensures ShapeOf(x).BinaryS? ==> x == Form2(OpWord(ShapeOf(x).op), ShapeOf(x).l, ShapeOf(x).r)
    ensures ShapeOf(x).JunctionS? ==> x == Node([Atom(if ShapeOf(x).and then "and" else "or")] + ShapeOf(x).args) && ShapeOf(x).args != []
    ensures ShapeOf(x).NotS? ==> x == Form1("not", ShapeOf(x).arg)
    ensures ShapeOf(x).NullS? ==> x == Form1(if ShapeOf(x).negated then "is-not-null" else "is-null", ShapeOf(x).arg)
  {
    if ShapeOf(x).BinaryS? {
      assert x.kids == [x.kids[0], x.kids[1], x.kids[2]];
    } else if ShapeOf(x).JunctionS? {
      assert x.kids == [x.kids[0]] + x.kids[1..];
    } else if ShapeOf(x).NotS? || ShapeOf(x).NullS? {
      assert x.kids == [x.kids[0], x.kids[1]];
    }
  }

  /** What is written for a tree gives back the tree, whatever its parameters are numbered. */
  lemma {:induction false} NumberRecovers(x: Tree, src: seq<Source>, s: Schema, ps: seq<Param>, all: seq<Param>)
    requires Number(x, src, s, ps).Some? && Number(x, src, s, ps).value.1 <= all
    ensures TreeOf(Number(x, src, s, ps).value.0, all) == Tidy(x)
    decreases Weight(x), 1
  {
    match ShapeOf(x)
    case ColumnS(_, _) => LeafRecovers(x, src, s, ps, all);
    case ParamS(_, _) => ParamRecovers(x, src, s, ps, all);
    case RefS(_) => LeafRecovers(x, src, s, ps, all);
    case WindowS(_, _, _, _) => WindowRecovers(x, src, s, ps, all);
    case UnaryS(_, _, _) => CallRecovers(x, src, s, ps, all);
    case BinaryS(_, _, _) => BinaryRecovers(x, src, s, ps, all);
    case JunctionS(_, _) => JunctionRecovers(x, src, s, ps, all);
    case NotS(_) => PrefixRecovers(x, src, s, ps, all);
    case NullS(_, _) => PrefixRecovers(x, src, s, ps, all);
    case ListS(_, _) => CallRecovers(x, src, s, ps, all);
    case NoShape =>
  }

  lemma {:induction false} JunctionTidy(x: Tree)
    requires ShapeOf(x).JunctionS?
    ensures Tidy(x) == Node([Atom(if ShapeOf(x).and then "and" else "or")] + TidyAll(ShapeOf(x).args))
  {
    OperatorSaid(x);
    TidyList(if ShapeOf(x).and then "and" else "or", ShapeOf(x).args);
  }

  lemma {:induction false} PrefixTidy(x: Tree)
    requires ShapeOf(x).NotS? || ShapeOf(x).NullS?
    ensures ShapeOf(x).NotS? ==> Tidy(x) == Form1("not", Tidy(ShapeOf(x).arg))
    ensures ShapeOf(x).NullS? ==> Tidy(x) == Form1(if ShapeOf(x).negated then "is-not-null" else "is-null", Tidy(ShapeOf(x).arg))
  {
    OperatorSaid(x);
    TidyTwo(x.kids[0], ShapeOf(x).arg);
  }

  lemma {:induction false} BinaryTidy(x: Tree)
    requires ShapeOf(x).BinaryS?
    ensures Tidy(x) == Form2(OpWord(ShapeOf(x).op), Tidy(ShapeOf(x).l), Tidy(ShapeOf(x).r))
  {
    OperatorSaid(x);
    TidyThree(x.kids[0], ShapeOf(x).l, ShapeOf(x).r);
  }

  lemma {:induction false} LeafRecovers(x: Tree, src: seq<Source>, s: Schema, ps: seq<Param>, all: seq<Param>)
    requires (ShapeOf(x).ColumnS? || ShapeOf(x).RefS?) && Number(x, src, s, ps).Some?
    ensures TreeOf(Number(x, src, s, ps).value.0, all) == Tidy(x)
  {
    LeafSaid(x);
    if ShapeOf(x).ColumnS? {
      TidyThree(Atom("column"), Atom(ShapeOf(x).alias), Atom(ShapeOf(x).col));
    } else {
      TidyTwo(Atom("ref"), Atom(ShapeOf(x).name));
    }
  }

  lemma {:induction false} JunctionRecovers(x: Tree, src: seq<Source>, s: Schema, ps: seq<Param>, all: seq<Param>)
    requires ShapeOf(x).JunctionS? && Number(x, src, s, ps).Some? && Number(x, src, s, ps).value.1 <= all
    ensures TreeOf(Number(x, src, s, ps).value.0, all) == Tidy(x)
    decreases Weight(x), 0
  {
    ShapeSmaller(x);
    AllRecover(ShapeOf(x).args, src, s, ps, all);
    JunctionTidy(x);
    JunctionTrees(NumberAll(ShapeOf(x).args, src, s, ps).value.0, all);
  }

  lemma {:induction false} JunctionTrees(es: seq<E.Expr>, ps: seq<Param>)
    ensures TreeOf(E.And(es), ps) == Node([Atom("and")] + TreesOf(es, ps))
    ensures TreeOf(E.Or(es), ps) == Node([Atom("or")] + TreesOf(es, ps))
  {
  }

  lemma {:induction false} PrefixRecovers(x: Tree, src: seq<Source>, s: Schema, ps: seq<Param>, all: seq<Param>)
    requires (ShapeOf(x).NotS? || ShapeOf(x).NullS?) && Number(x, src, s, ps).Some? && Number(x, src, s, ps).value.1 <= all
    ensures TreeOf(Number(x, src, s, ps).value.0, all) == Tidy(x)
    decreases Weight(x), 0
  {
    ShapeSmaller(x);
    NumberRecovers(ShapeOf(x).arg, src, s, ps, all);
    PrefixTidy(x);
  }

  lemma {:induction false} BinaryRecovers(x: Tree, src: seq<Source>, s: Schema, ps: seq<Param>, all: seq<Param>)
    requires ShapeOf(x).BinaryS? && Number(x, src, s, ps).Some? && Number(x, src, s, ps).value.1 <= all
    ensures TreeOf(Number(x, src, s, ps).value.0, all) == Tidy(x)
    decreases Weight(x), 0
  {
    ShapeSmaller(x);
    BinaryTidy(x);
    var l, r := ShapeOf(x).l, ShapeOf(x).r;
    var p1 := Number(l, src, s, ps).value.1;
    Typing.GrowsTable(r, src, s, p1);
    NumberRecovers(l, src, s, ps, all);
    NumberRecovers(r, src, s, p1, all);
  }

  lemma {:induction false} CallRecovers(x: Tree, src: seq<Source>, s: Schema, ps: seq<Param>, all: seq<Param>)
    requires (ShapeOf(x).UnaryS? || ShapeOf(x).ListS?) && Number(x, src, s, ps).Some? && Number(x, src, s, ps).value.1 <= all
    ensures TreeOf(Number(x, src, s, ps).value.0, all) == Tidy(x)
    decreases Weight(x), 0
  {
    ShapeSmaller(x);
    CallSaid(x);
    var f := ShapeOf(x).fn;
    if ShapeOf(x).UnaryS? {
      var a, distinct := ShapeOf(x).arg, ShapeOf(x).distinct;
      NumberRecovers(a, src, s, ps, all);
      TidyTwo(Atom(CallWord(f, distinct)), a);
      OneCall(f, distinct, Number(a, src, s, ps).value.0, all);
    } else {
      AllRecover(ShapeOf(x).args, src, s, ps, all);
      TidyList(CallWord(f, false), ShapeOf(x).args);
    }
  }

  lemma {:induction false} AllRecover(xs: seq<Tree>, src: seq<Source>, s: Schema, ps: seq<Param>, all: seq<Param>)
    requires NumberAll(xs, src, s, ps).Some? && NumberAll(xs, src, s, ps).value.1 <= all
    ensures TreesOf(NumberAll(xs, src, s, ps).value.0, all) == TidyAll(xs)
    decreases WeightAll(xs), 2
  {
    if xs != [] {
      var p1 := Number(xs[0], src, s, ps).value.1;
      Typing.GrowsTableAll(xs[1..], src, s, p1);
      NumberRecovers(xs[0], src, s, ps, all);
      AllRecover(xs[1..], src, s, p1, all);
      TreesCons(Number(xs[0], src, s, ps).value.0, NumberAll(xs[1..], src, s, p1).value.0, all);
    }
  }

  lemma {:induction false} TreesCons(e: E.Expr, es: seq<E.Expr>, ps: seq<Param>)
    ensures TreesOf([e] + es, ps) == [TreeOf(e, ps)] + TreesOf(es, ps)
  {
    assert ([e] + es)[1..] == es;
  }

  lemma {:induction false} OneCall(f: string, distinct: bool, e: E.Expr, ps: seq<Param>)
    ensures TreeOf(E.Call(f, distinct, [e]), ps) == Form1(CallWord(f, distinct), TreeOf(e, ps))
  {
    TreesCons(e, [], ps);
    assert [e] + [] == [e];
    assert [Atom(CallWord(f, distinct))] + [TreeOf(e, ps)] == [Atom(CallWord(f, distinct)), TreeOf(e, ps)];
  }

  lemma {:induction false} ParamRecovers(x: Tree, src: seq<Source>, s: Schema, ps: seq<Param>, all: seq<Param>)
    requires ShapeOf(x).ParamS? && Number(x, src, s, ps).Some? && Number(x, src, s, ps).value.1 <= all
    ensures TreeOf(Number(x, src, s, ps).value.0, all) == Tidy(x)
  {
    var (n, ty) := (ShapeOf(x).name, ShapeOf(x).ty);
    var (i, qs) := Index(ps, Param(n, ty, User)).value;
    LeafSaid(x);
    TidyThree(Atom("param"), Atom(n), Atom(TypeWord(ty)));
    assert qs[i - 1] == all[i - 1] == Param(n, ty, User);
  }

  lemma {:induction false} WindowRecovers(x: Tree, src: seq<Source>, s: Schema, ps: seq<Param>, all: seq<Param>)
    requires ShapeOf(x).WindowS? && Number(x, src, s, ps).Some? && Number(x, src, s, ps).value.1 <= all
    ensures TreeOf(Number(x, src, s, ps).value.0, all) == Tidy(x)
    decreases Weight(x), 0
  {
    ShapeSmaller(x);
    var a, part, o := ShapeOf(x).arg, ShapeOf(x).part, ShapeOf(x).order;
    var p1 := Number(a, src, s, ps).value.1;
    var p2 := NumberAll(part, src, s, p1).value.1;
    Typing.GrowsTableAll(part, src, s, p1);
    Typing.GrowsTable(o, src, s, p2);
    NumberRecovers(a, src, s, ps, all);
    AllRecover(part, src, s, p1, all);
    NumberRecovers(o, src, s, p2, all);
    WindowSaid(x);
  }

  lemma {:induction false} WindowSaid(x: Tree)
    requires ShapeOf(x).WindowS?
    ensures var w := ShapeOf(x);
            Tidy(x) == Node([Atom("window"), Tidy(w.arg), Node([Atom("partition-by")] + TidyAll(w.part)),
                             Form2("order-by", Tidy(w.order), Atom(if w.desc then "desc" else "asc"))])
  {
    var k := x.kids;
    assert k[2].kids == [Atom("partition-by")] + k[2].kids[1..];
    assert TidyAll(k[2].kids) == [Atom("partition-by")] + TidyAll(k[2].kids[1..]);
  }

  // ---- and every expression has a tree ----

  /** Expressions over columns that resolve and functions as the language has them. */
  ghost predicate Sayable(e: E.Expr, ps: seq<Param>, src: seq<Source>, s: Schema)
    decreases e, 0
  {
    match e
    case Col(a, c) => Sql.Ident(a) && Sql.Ident(c) && Resolve(src, s, a, c).Some?
    case Par(i) => 1 <= i <= |ps|
    case Ref(n) => Sql.Ident(n)
    case Call(f, distinct, args) =>
      && CallWord(f, distinct) != "" && args != [] && (f in ["CONCAT", "COALESCE"] || |args| == 1)
      && forall x :: x in args ==> Sayable(x, ps, src, s)
    case Over(a, p, o, _) =>
      Sayable(a, ps, src, s) && p != [] && (forall x :: x in p ==> Sayable(x, ps, src, s)) && Sayable(o, ps, src, s)
    case Bin(_, l, r) => Sayable(l, ps, src, s) && Sayable(r, ps, src, s)
    case And(es) => es != [] && forall x :: x in es ==> Sayable(x, ps, src, s)
    case Or(es) => es != [] && forall x :: x in es ==> Sayable(x, ps, src, s)
    case Not(x) => Sayable(x, ps, src, s)
    case IsNull(x, _) => Sayable(x, ps, src, s)
  }

  /** A table of declared parameters, and one that has been filled from it so far. */
  ghost predicate Declared(ps: seq<Param>) {
    && |ps| <= MAX_PARAMS
    && (forall q :: q in ps ==> Sql.Ident(q.name) && !q.ty.UnknownT? && !q.ty.NullT? && q.origin.User?)
    && forall i, j :: 0 <= i < j < |ps| ==> ps[i].name != ps[j].name
  }

  ghost predicate Filled(ps: seq<Param>, all: seq<Param>) {
    (forall q :: q in ps ==> q in all) && forall i, j :: 0 <= i < j < |ps| ==> ps[i].name != ps[j].name
  }

  lemma {:induction false} SameName(all: seq<Param>, a: Param, b: Param)
    requires Declared(all) && a in all && b in all && a.name == b.name
    ensures a == b
  {
  }

  lemma {:induction false} Dropped(ps: seq<Param>, k: nat, all: seq<Param>)
    requires all != [] && Filled(ps, all) && k < |ps| && ps[k] == all[|all| - 1]
    ensures Filled(ps[..k] + ps[k + 1..], all[..|all| - 1])
  {
    var less := ps[..k] + ps[k + 1..];
    forall q | q in less
      ensures q in all[..|all| - 1]
    {
      var j :| 0 <= j < |less| && less[j] == q;
      var i := if j < k then j else j + 1;
      assert q == ps[i] && ps[i] in ps && ps[i].name != ps[k].name;
      var n :| 0 <= n < |all| && all[n] == q;
      assert all[..|all| - 1][n] == q;
    }
  }

  /** A table filled from another is not longer. */
  lemma {:induction false} FilledShorter(ps: seq<Param>, all: seq<Param>)
    requires Filled(ps, all)
    ensures |ps| <= |all|
    decreases |all|
  {
    if ps == [] { return; }
    assert ps[0] in ps;
    if k :| 0 <= k < |ps| && ps[k] == all[|all| - 1] {
      Dropped(ps, k, all);
      FilledShorter(ps[..k] + ps[k + 1..], all[..|all| - 1]);
    } else {
      forall q | q in ps
        ensures q in all[..|all| - 1]
      {
        var n :| 0 <= n < |all| && all[n] == q;
        assert all[..|all| - 1][n] == q;
      }
      FilledShorter(ps, all[..|all| - 1]);
    }
  }

  lemma {:induction false} IndexGiven(ps: seq<Param>, all: seq<Param>, q: Param)
    requires Declared(all) && Filled(ps, all) && q in all
    ensures Index(ps, q).Some? && Filled(Index(ps, q).value.1, all)
  {
    var i := Position(ps, q.name);
    if i < |ps| {
      assert ps[i] in ps;
      SameName(all, ps[i], q);
    } else {
      assert forall j :: 0 <= j < |ps| ==> ps[j].name != q.name;
      FilledShorter(ps + [q], all);
    }
  }

  lemma {:induction false} Kept(ps: seq<Param>, all: seq<Param>, q: Param)
    requires Declared(all) && Filled(ps, all) && q in all
    ensures Sql.Ident(q.name) && TypeName(TypeWord(q.ty)) == q.ty && q == Param(q.name, q.ty, User)
  {
  }

  ghost predicate Numbers(x: Tree, all: seq<Param>, src: seq<Source>, s: Schema, ps: seq<Param>) {
    var r := Number(x, src, s, ps); r.Some? && Filled(r.value.1, all)
  }

  /** Every such expression is written for its tree: the tree is accepted and its parameters are those declared. */
  lemma {:induction false} TreeNumbers(e: E.Expr, all: seq<Param>, src: seq<Source>, s: Schema, ps: seq<Param>)
    requires Sayable(e, all, src, s) && Declared(all) && Filled(ps, all)
    ensures Numbers(TreeOf(e, all), all, src, s, ps)
    decreases e, 1
  {
    match e
    case Col(_, _) => LeafNumbers(e, all, src, s, ps);
    case Par(_) => LeafNumbers(e, all, src, s, ps);
    case Ref(_) => LeafNumbers(e, all, src, s, ps);
    case Call(_, _, _) => CallNumbers(e, all, src, s, ps);
    case Over(_, _, _, _) => WindowNumbers(e, all, src, s, ps);
    case Bin(_, _, _) => BinaryNumbers(e, all, src, s, ps);
    case And(es) => JunctionNumbers(true, es, all, src, s, ps);
    case Or(es) => JunctionNumbers(false, es, all, src, s, ps);
    case Not(y) =>
      NotTree(y, all);
      TreeNumbers(y, all, src, s, ps);
    case IsNull(y, negated) =>
      TestTree(y, negated, all);
      TreeNumbers(y, all, src, s, ps);
  }

  lemma {:induction false} LeafNumbers(e: E.Expr, all: seq<Param>, src: seq<Source>, s: Schema, ps: seq<Param>)
    requires (e.Col? || e.Par? || e.Ref?) && Sayable(e, all, src, s) && Declared(all) && Filled(ps, all)
    ensures Numbers(TreeOf(e, all), all, src, s, ps)
  {
    match e
    case Col(a, c) => assert ShapeOf(TreeOf(e, all)) == ColumnS(a, c);
    case Par(i) =>
      Kept(ps, all, all[i - 1]);
      IndexGiven(ps, all, all[i - 1]);
      assert ShapeOf(TreeOf(e, all)) == ParamS(all[i - 1].name, all[i - 1].ty);
    case Ref(n) => assert ShapeOf(TreeOf(e, all)) == RefS(n);
  }

  lemma {:induction false} TreesNumber(es: seq<E.Expr>, all: seq<Param>, src: seq<Source>, s: Schema, ps: seq<Param>)
    requires (forall x :: x in es ==> Sayable(x, all, src, s)) && Declared(all) && Filled(ps, all)
    ensures var r := NumberAll(TreesOf(es, all), src, s, ps); r.Some? && Filled(r.value.1, all)
    decreases es, 2
  {
    if es != [] {
      TreeNumbers(es[0], all, src, s, ps);
      TreesNumber(es[1..], all, src, s, Number(TreeOf(es[0], all), src, s, ps).value.1);
      assert TreesOf(es, all)[1..] == TreesOf(es[1..], all);
    }
  }

  lemma {:induction false} NotTree(y: E.Expr, ps: seq<Param>)
    ensures ShapeOf(TreeOf(E.Not(y), ps)) == NotS(TreeOf(y, ps))
  {
  }

  lemma {:induction false} TestTree(y: E.Expr, negated: bool, ps: seq<Param>)
    ensures ShapeOf(TreeOf(E.IsNull(y, negated), ps)) == NullS(negated, TreeOf(y, ps))
  {
    assert UnaryCall("is-null") == None && UnaryCall("is-not-null") == None;
  }

  lemma {:induction false} BinaryTree(op: E.BinOp, l: E.Expr, r: E.Expr, ps: seq<Param>)
    ensures ShapeOf(TreeOf(E.Bin(op, l, r), ps)) == BinaryS(op, TreeOf(l, ps), TreeOf(r, ps))
  {
    assert BinaryOp(OpWord(op)) == Some(op);
    assert OpWord(op) !in ["column", "param", "ref", "window"];
  }

  lemma {:induction false} BinaryNumbers(e: E.Expr, all: seq<Param>, src: seq<Source>, s: Schema, ps: seq<Param>)
    requires e.Bin? && Sayable(e, all, src, s) && Declared(all) && Filled(ps, all)
    ensures Numbers(TreeOf(e, all), all, src, s, ps)
    decreases e, 0
  {
    BinaryTree(e.op, e.l, e.r, all);
    TreeNumbers(e.l, all, src, s, ps);
    TreeNumbers(e.r, all, src, s, Number(TreeOf(e.l, all), src, s, ps).value.1);
  }

  function Junction(and: bool, es: seq<E.Expr>): E.Expr { if and then E.And(es) else E.Or(es) }

  lemma {:induction false} JunctionTree(and: bool, es: seq<E.Expr>, ps: seq<Param>)
    requires es != []
    ensures ShapeOf(TreeOf(Junction(and, es), ps)) == JunctionS(and, TreesOf(es, ps))
  {
    assert ([Atom(if and then "and" else "or")] + TreesOf(es, ps))[1..] == TreesOf(es, ps);
  }

  lemma {:induction false} JunctionNumbers(and: bool, es: seq<E.Expr>, all: seq<Param>, src: seq<Source>, s: Schema, ps: seq<Param>)
    requires es != [] && (forall x :: x in es ==> Sayable(x, all, src, s)) && Declared(all) && Filled(ps, all)
    ensures Numbers(TreeOf(Junction(and, es), all), all, src, s, ps)
    decreases es, 3
  {
    JunctionTree(and, es, all);
    TreesNumber(es, all, src, s, ps);
  }

  lemma {:induction false} CallTree(f: string, distinct: bool, args: seq<E.Expr>, ps: seq<Param>)
    requires CallWord(f, distinct) != "" && args != [] && (f in ["CONCAT", "COALESCE"] || |args| == 1)
    ensures var x := ShapeOf(TreeOf(E.Call(f, distinct, args), ps));
            if f in ["CONCAT", "COALESCE"] then x == ListS(f, TreesOf(args, ps)) else x == UnaryS(f, distinct, TreeOf(args[0], ps))
  {
    var h := CallWord(f, distinct);
    assert ([Atom(h)] + TreesOf(args, ps))[1..] == TreesOf(args, ps);
    if f in ["CONCAT", "COALESCE"] {
      assert UnaryCall(h) == None && BinaryOp(h) == None && ListCall(h) == Some(f);
    } else {
      UnaryWords(f, distinct);
    }
  }

  lemma {:induction false} UnaryWords(f: string, distinct: bool)
    requires CallWord(f, distinct) != "" && f !in ["CONCAT", "COALESCE"]
    ensures UnaryCall(CallWord(f, distinct)) == Some((f, distinct)) && CallWord(f, distinct) !in ["column", "param", "ref", "window"]
  {
  }

  lemma {:induction false} CallNumbers(e: E.Expr, all: seq<Param>, src: seq<Source>, s: Schema, ps: seq<Param>)
    requires e.Call? && Sayable(e, all, src, s) && Declared(all) && Filled(ps, all)
    ensures Numbers(TreeOf(e, all), all, src, s, ps)
    decreases e, 0
  {
    CallTree(e.fn, e.distinct, e.args, all);
    if e.fn in ["CONCAT", "COALESCE"] {
      TreesNumber(e.args, all, src, s, ps);
    } else {
      TreeNumbers(e.args[0], all, src, s, ps);
    }
  }

  lemma {:induction false} WindowTree(e: E.Expr, ps: seq<Param>)
    requires e.Over? && e.part != []
    ensures ShapeOf(TreeOf(e, ps)) == WindowS(TreeOf(e.arg, ps), TreesOf(e.part, ps), TreeOf(e.order, ps), e.desc)
  {
    var k := TreeOf(e, ps).kids;
    assert k[2].kids[1..] == TreesOf(e.part, ps);
  }

  lemma {:induction false} WindowNumbers(e: E.Expr, all: seq<Param>, src: seq<Source>, s: Schema, ps: seq<Param>)
    requires e.Over? && Sayable(e, all, src, s) && Declared(all) && Filled(ps, all)
    ensures Numbers(TreeOf(e, all), all, src, s, ps)
    decreases e, 0
  {
    WindowTree(e, all);
    TreeNumbers(e.arg, all, src, s, ps);
    var p1 := Number(TreeOf(e.arg, all), src, s, ps).value.1;
    TreesNumber(e.part, all, src, s, p1);
    TreeNumbers(e.order, all, src, s, NumberAll(TreesOf(e.part, all), src, s, p1).value.1);
  }

  // ---- what is not looked at ----

  /** The shape of a tidied node, its parts tidied. */
  function TidyShape(x: Shape): Shape {
    match x
    case ColumnS(_, _) => x
    case ParamS(_, _) => x
    case RefS(_) => x
    case WindowS(a, p, o, desc) => WindowS(Tidy(a), TidyAll(p), Tidy(o), desc)
    case UnaryS(f, distinct, a) => UnaryS(f, distinct, Tidy(a))
    case BinaryS(op, l, r) => BinaryS(op, Tidy(l), Tidy(r))
    case JunctionS(and, args) => JunctionS(and, TidyAll(args))
    case NotS(a) => NotS(Tidy(a))
    case NullS(negated, a) => NullS(negated, Tidy(a))
    case ListS(f, args) => ListS(f, TidyAll(args))
    case NoShape => x
  }

  lemma {:induction false} TidyTail(xs: seq<Tree>)
    requires xs != []
    ensures TidyAll(xs)[1..] == TidyAll(xs[1..])
  {
  }

  lemma {:induction false} TidyKeeps(x: Tree)
    ensures Tidy(x).Atom? == x.Atom? && (x.Atom? ==> Tidy(x) == x)
  {
  }

  lemma {:induction false} ShapeTidied(x: Tree)
    requires x.Node? && x.kids != [] && x.kids[0] != Atom("window")
    ensures ShapeOf(Tidy(x)) == TidyShape(ShapeOf(x))
  {
    var k, t := x.kids, TidyAll(x.kids);
    TidyTail(k);
    forall i | 0 <= i < |k|
      ensures t[i].Atom? == k[i].Atom? && (k[i].Atom? ==> t[i] == k[i])
    {
      TidyKeeps(k[i]);
    }
    assert Tidy(x) == Node(t);
    MembersTidied(k, t);
  }

  lemma {:induction false} MembersTidied(k: seq<Tree>, t: seq<Tree>)
    requires k != [] && k[0] != Atom("window") && |t| == |k| && t[1..] == TidyAll(k[1..])
    requires forall i :: 0 <= i < |k| ==> t[i] == Tidy(k[i]) && t[i].Atom? == k[i].Atom? && (k[i].Atom? ==> t[i] == k[i])
    ensures ShapeOf(Node(t)) == TidyShape(ShapeOf(Node(k)))
  {
  }

  predicate IsWindow(k: seq<Tree>) {
    |k| >= 4 && k[0] == Atom("window") && k[2].Node? && k[3].Node? && |k[3].kids| == 3
  }

  lemma {:induction false} WindowTidied(x: Tree)
    requires x.Node? && x.kids != [] && x.kids[0] == Atom("window")
    ensures ShapeOf(Tidy(x)) == TidyShape(ShapeOf(x))
  {
    if IsWindow(x.kids) {
      PartsTidied(x.kids);
    } else {
      NoWindow(x.kids);
    }
  }

  lemma {:induction false} PartsTidied(k: seq<Tree>)
    requires IsWindow(k)
    ensures ShapeOf(Tidy(Node(k))) == TidyShape(ShapeOf(Node(k)))
  {
    var p := k[2].kids;
    if p != [] {
      TidyTail(p);
      TidyKeeps(p[0]);
    }
  }

  lemma {:induction false} NoWindow(k: seq<Tree>)
    requires k != [] && k[0] == Atom("window") && !IsWindow(k)
    ensures ShapeOf(Node(k)).NoShape? && ShapeOf(Tidy(Node(k))).NoShape?
  {
    OnlyWindows(k);
    OnlyWindows(TidyAll(k));
    if |k| >= 4 {
      TidyKeeps(k[2]);
      KidsKept(k[3]);
    }
  }

  /** A node with this head has a shape only as a whole window. */
  lemma {:induction false} OnlyWindows(k: seq<Tree>)
    requires k != [] && k[0] == Atom("window")
    ensures !ShapeOf(Node(k)).NoShape? ==> |k| >= 4 && k[2].Node? && Form(k[3], "order-by", 3)
  {
  }

  lemma {:induction false} KidsKept(x: Tree)
    ensures Form(Tidy(x), "order-by", 3) ==> x.Node? && |x.kids| == 3
  {
  }

  /** What follows the ordering of a window, and directions that are not desc, change nothing that is written. */
  lemma {:induction false} TidyNumbers(x: Tree, src: seq<Source>, s: Schema, ps: seq<Param>)
    ensures Number(Tidy(x), src, s, ps) == Number(x, src, s, ps)
    decreases Weight(x), 1
  {
    TidyKeeps(x);
    if x.Node? && x.kids != [] {
      if x.kids[0] == Atom("window") { WindowTidied(x); } else { ShapeTidied(x); }
      PartsNumber(x, src, s, ps);
    }
  }

  lemma {:induction false} PartsNumber(x: Tree, src: seq<Source>, s: Schema, ps: seq<Param>)
    requires ShapeOf(Tidy(x)) == TidyShape(ShapeOf(x))
    ensures Number(Tidy(x), src, s, ps) == Number(x, src, s, ps)
    decreases Weight(x), 0
  {
    ShapeSmaller(x);
    match ShapeOf(x)
    case WindowS(a, part, o, _) =>
      TidyNumbers(a, src, s, ps);
      var n := Number(a, src, s, ps);
      if n.Some? {
        TidyAllNumber(part, src, s, n.value.1);
        var m := NumberAll(part, src, s, n.value.1);
        if m.Some? { TidyNumbers(o, src, s, m.value.1); }
      }
    case UnaryS(_, _, a) => TidyNumbers(a, src, s, ps);
    case BinaryS(_, l, r) =>
      TidyNumbers(l, src, s, ps);
      var n := Number(l, src, s, ps);
      if n.Some? { TidyNumbers(r, src, s, n.value.1); }
    case JunctionS(_, args) => TidyAllNumber(args, src, s, ps);
    case NotS(a) => TidyNumbers(a, src, s, ps);
    case NullS(_, a) => TidyNumbers(a, src, s, ps);
    case ListS(_, args) => TidyAllNumber(args, src, s, ps);
    case _ =>
  }

  lemma {:induction false} TidyAllNumber(xs: seq<Tree>, src: seq<Source>, s: Schema, ps: seq<Param>)
    ensures NumberAll(TidyAll(xs), src, s, ps) == NumberAll(xs, src, s, ps)
    decreases WeightAll(xs), 2
  {
    if xs != [] {
      TidyNumbers(xs[0], src, s, ps);
      TidyTail(xs);
      var n := Number(xs[0], src, s, ps);
      if n.Some? { TidyAllNumber(xs[1..], src, s, n.value.1); }
    }
  }
}
