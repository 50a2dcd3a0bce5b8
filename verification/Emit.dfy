/**
  From checked trees to SQL expressions: emit_expr's case analysis, with the parameter table
  that numbers placeholders as they are first written.
 */
module Emit {
  import opened Wrappers
  import opened Sexpr
  import opened Catalog
  import E = SqlExpr

  datatype Origin = User | FromPolicy
  datatype Param = Param(name: string, ty: SqlType, origin: Origin)

  const MAX_PARAMS: nat := 128

  function Position(ps: seq<Param>, name: string): (i: nat)
    ensures i <= |ps| && (i < |ps| ==> ps[i].name == name)
    ensures forall j :: 0 <= j < i ==> ps[j].name != name
  {
    if ps == [] || ps[0].name == name then 0 else 1 + Position(ps[1..], name)
  }

  /** The number of a parameter and the table afterwards; None when a name is reused differently. */
  function Index(ps: seq<Param>, p: Param): Option<(nat, seq<Param>)> {
    var i := Position(ps, p.name);
    if i < |ps| then (if ps[i] == p then Some((i + 1, ps)) else None)
    else if |ps| >= MAX_PARAMS then None
    else Some((|ps| + 1, ps + [p]))
  }

  function BinaryOp(h: string): Option<E.BinOp> {
    if h == "eq" then Some(E.Eq) else if h == "gte" then Some(E.Gte) else if h == "gt" then Some(E.Gt)
    else if h == "lte" then Some(E.Lte) else if h == "lt" then Some(E.Lt) else if h == "neq" then Some(E.Neq)
    else if h == "mul" then Some(E.Mul) else if h == "add" then Some(E.Add) else if h == "sub" then Some(E.Sub)
    else if h == "div" then Some(E.Div) else None
  }

  /** One-argument functions: the word written and whether DISTINCT follows the bracket. */
  function UnaryCall(h: string): Option<(string, bool)> {
    if h in ["sum", "avg", "count", "min", "max"] then Some((h, false))
    else if h == "count-distinct" then Some(("COUNT", true)) else if h == "sum-distinct" then Some(("SUM", true))
    else if h == "lower" then Some(("LOWER", false)) else if h == "upper" then Some(("UPPER", false))
    else if h == "trim" then Some(("TRIM", false)) else if h == "abs" then Some(("ABS", false))
    else None
  }

  function ListCall(h: string): Option<string> {
    if h == "concat" then Some("CONCAT") else if h == "coalesce" then Some("COALESCE") else None
  }

  /** What a node is, as emit_expr tells it from its head and its number of children. */
  datatype Shape =
    | ColumnS(alias: string, col: string)
    | ParamS(name: string, ty: SqlType)
    | RefS(name: string)
    | WindowS(arg: Tree, part: seq<Tree>, order: Tree, desc: bool)
    | UnaryS(fn: string, distinct: bool, arg: Tree)
    | BinaryS(op: E.BinOp, l: Tree, r: Tree)
    | JunctionS(and: bool, args: seq<Tree>)
    | NotS(arg: Tree)
    | NullS(negated: bool, arg: Tree)
    | ListS(fn: string, args: seq<Tree>)
    | NoShape

  function ShapeOf(x: Tree): Shape {
    if x.Atom? || x.kids == [] || !x.kids[0].Atom? then NoShape
    else
      var h, n, k := x.kids[0].text, |x.kids|, x.kids;
      if h == "column" && n == 3 then
        if Name(k[1]) && Name(k[2]) then ColumnS(k[1].text, k[2].text) else NoShape
      else if h == "param" && n == 3 then
        if Name(k[1]) && k[2].Atom? && !TypeName(k[2].text).UnknownT? then ParamS(k[1].text, TypeName(k[2].text)) else NoShape
      else if h == "ref" && n == 2 then
        if Name(k[1]) then RefS(k[1].text) else NoShape
      else if h == "window" && n >= 4 then
        if IsList(k[2], "partition-by") && |k[2].kids| >= 2 && Form(k[3], "order-by", 3)
        then WindowS(k[1], k[2].kids[1..], k[3].kids[1], IsAtom(k[3].kids[2], "desc")) else NoShape
      else if n == 2 && UnaryCall(h).Some? then UnaryS(UnaryCall(h).value.0, UnaryCall(h).value.1, k[1])
      else if n == 3 && BinaryOp(h).Some? then BinaryS(BinaryOp(h).value, k[1], k[2])
      else if n >= 2 && (h == "and" || h == "or") then JunctionS(h == "and", k[1..])
      else if n == 2 && h == "not" then NotS(k[1])
      else if n == 2 && h == "is-null" then NullS(false, k[1])
      else if n == 2 && h == "is-not-null" then NullS(true, k[1])
      else if n >= 2 && ListCall(h).Some? then ListS(ListCall(h).value, k[1..])
      else NoShape
  }

  /** Nodes below a node, for recursion on shapes. */
  function Weight(x: Tree): (n: nat)
    ensures n >= 1
    decreases x, 0
  {
    match x case Atom(_) => 1 case Node(ks) => 1 + WeightAll(ks)
  }

  function WeightAll(xs: seq<Tree>): nat
    decreases xs, 1
  {
    if xs == [] then 0 else Weight(xs[0]) + WeightAll(xs[1..])
  }

  lemma {:induction false} WeightMember(xs: seq<Tree>, i: nat)
    requires i < |xs|
    ensures Weight(xs[i]) + WeightAll(xs[i + 1..]) <= WeightAll(xs)
  {
    if i > 0 {
      WeightMember(xs[1..], i - 1);
      assert xs[1..][i..] == xs[i + 1..];
    }
  }

  /** Everything a shape holds lies strictly below the node. */
  lemma {:induction false} ShapeSmaller(x: Tree)
    ensures match ShapeOf(x)
            case WindowS(a, part, o, _) => Weight(a) < Weight(x) && WeightAll(part) < Weight(x) && Weight(o) < Weight(x)
            case UnaryS(_, _, a) => Weight(a) < Weight(x)
            case BinaryS(_, l, r) => Weight(l) < Weight(x) && Weight(r) < Weight(x)
            case JunctionS(_, args) => WeightAll(args) < Weight(x)
            case NotS(a) => Weight(a) < Weight(x)
            case NullS(_, a) => Weight(a) < Weight(x)
            case ListS(_, args) => WeightAll(args) < Weight(x)
            case _ => true
  {
    var s := ShapeOf(x);
    if !s.NoShape? {
      var k := x.kids;
      WeightMember(k, 0);
      if |k| >= 2 { WeightMember(k, 1); }
      if |k| >= 3 { WeightMember(k, 2); }
      if s.WindowS? {
        WeightMember(k, 3);
        WeightMember(k[2].kids, 0);
        WeightMember(k[3].kids, 1);
      }
    }
  }

  /**
    The expression written for a node, its placeholders numbered from the table ps, and the
    table afterwards; None where emit_expr gives up.
   */
  function Number(x: Tree, src: seq<Source>, s: Schema, ps: seq<Param>): (r: Option<(E.Expr, seq<Param>)>)
    decreases Weight(x), 0
  {
    ShapeSmaller(x);
    match ShapeOf(x)
    case NoShape => None
    case ColumnS(a, c) => if Resolve(src, s, a, c).Some? then Some((E.Col(a, c), ps)) else None
    case ParamS(n, ty) =>
      (match Index(ps, Param(n, ty, User)) case None => None case Some((i, ps')) => Some((E.Par(i), ps')))
    case RefS(n) => Some((E.Ref(n), ps))
    case WindowS(a, part, o, desc) =>
      (match Number(a, src, s, ps)
       case None => None
       case Some((a', p1)) =>
         match NumberAll(part, src, s, p1)
         case None => None
         case Some((part', p2)) =>
           match Number(o, src, s, p2)
           case None => None
           case Some((o', p3)) => Some((E.Over(a', part', o', desc), p3)))
    case UnaryS(f, distinct, a) =>
      (match Number(a, src, s, ps) case None => None case Some((a', p1)) => Some((E.Call(f, distinct, [a']), p1)))
    case BinaryS(op, l, r) =>
      (match Number(l, src, s, ps)
       case None => None
       case Some((l', p1)) =>
         match Number(r, src, s, p1)
         case None => None
         case Some((r', p2)) => Some((E.Bin(op, l', r'), p2)))
    case JunctionS(and, args) =>
      (match NumberAll(args, src, s, ps)
       case None => None
       case Some((es, p1)) => Some((if and then E.And(es) else E.Or(es), p1)))
    case NotS(a) =>
      (match Number(a, src, s, ps) case None => None case Some((a', p1)) => Some((E.Not(a'), p1)))
    case NullS(negated, a) =>
      (match Number(a, src, s, ps) case None => None case Some((a', p1)) => Some((E.IsNull(a', negated), p1)))
    case ListS(f, args) =>
      (match NumberAll(args, src, s, ps) case None => None case Some((es, p1)) => Some((E.Call(f, false, es), p1)))
  }

  function NumberAll(xs: seq<Tree>, src: seq<Source>, s: Schema, ps: seq<Param>): (r: Option<(seq<E.Expr>, seq<Param>)>)
    decreases WeightAll(xs), 1
  {
    if xs == [] then Some(([], ps))
    else
      match Number(xs[0], src, s, ps)
      case None => None
      case Some((e, p1)) =>
        match NumberAll(xs[1..], src, s, p1)
        case None => None
        case Some((es, p2)) => Some(([e] + es, p2))
  }

  /** Whatever is written is well formed: identifiers stay identifiers, lists have elements. */
  lemma {:induction false} NumberWf(x: Tree, src: seq<Source>, s: Schema, ps: seq<Param>)
    requires Number(x, src, s, ps).Some?
    ensures E.Wf(Number(x, src, s, ps).value.0)
    decreases Weight(x), 1
  {
    ShapeSmaller(x);
    match ShapeOf(x)
    case NoShape =>
    case ColumnS(_, _) =>
    case ParamS(_, _) =>
    case RefS(_) =>
    case WindowS(_, _, _, _) => WindowWf(x, src, s, ps);
    case UnaryS(f, _, a) => NumberWf(a, src, s, ps);
    case BinaryS(_, l, r) =>
      NumberWf(l, src, s, ps);
      NumberWf(r, src, s, Number(l, src, s, ps).value.1);
    case JunctionS(_, args) => NumberAllWf(args, src, s, ps);
    case NotS(a) => NumberWf(a, src, s, ps);
    case NullS(_, a) => NumberWf(a, src, s, ps);
    case ListS(_, args) => NumberAllWf(args, src, s, ps);
  }

  lemma {:induction false} WindowWf(x: Tree, src: seq<Source>, s: Schema, ps: seq<Param>)
    requires ShapeOf(x).WindowS? && Number(x, src, s, ps).Some?
    ensures E.Wf(Number(x, src, s, ps).value.0)
    decreases Weight(x), 0
  {
    ShapeSmaller(x);
    var w := ShapeOf(x);
    NumberWf(w.arg, src, s, ps);
    var p1 := Number(w.arg, src, s, ps).value.1;
    NumberAllWf(w.part, src, s, p1);
    NumberWf(w.order, src, s, NumberAll(w.part, src, s, p1).value.1);
  }

  lemma {:induction false} NumberAllWf(xs: seq<Tree>, src: seq<Source>, s: Schema, ps: seq<Param>)
    requires NumberAll(xs, src, s, ps).Some?
    ensures var es := NumberAll(xs, src, s, ps).value.0; |es| == |xs| && forall e :: e in es ==> E.Wf(e)
    decreases WeightAll(xs), 2
  {
    if xs != [] {
      NumberWf(xs[0], src, s, ps);
      NumberAllWf(xs[1..], src, s, Number(xs[0], src, s, ps).value.1);
    }
  }
}
