/**
  Typing is sound: where every part of a condition has a known type, evaluation yields NULL or a
  value of the type that expr_type reports.
 */
module Typing {
  import opened Wrappers
  import opened Sexpr
  import opened Catalog
  import opened Emit
  import opened Compile
  import E = SqlExpr
  import RB = ReadBack
  import R = Relational
  import Sql

  /** Types that are neither numbers nor booleans keep their values apart by a tag. */
  function Tag(t: SqlType): nat {
    match t
    case TextT => 1 case BinaryT => 2 case UuidT => 3 case DateT => 4 case TimestampT => 5 case TimestampTzT => 6
    case _ => 0
  }

  predicate HasType(v: R.Value, t: SqlType) {
    v.Null? ||
    match t
    case UnknownT => false
    case NullT => false
    case BooleanT => v.Bool?
    case Int64T => v.Num?
    case Uint64T => v.Num?
    case DecimalT => v.Num?
    case Float64T => v.Num?
    case _ => v.Data? && v.tag == Tag(t)
  }

  /** A row whose entries hold values of the schema's types, NULL and padding included. */
  ghost predicate TypedRow(row: R.Row, src: seq<Source>, s: Schema) {
    forall i, col :: 0 <= i < |src| && ColFind(s, src[i].schema, src[i].table, col).Some? ==>
      HasType(R.Cell(row, i, col), ColFind(s, src[i].schema, src[i].table, col).value.ty)
  }

  ghost predicate TypedParams(env: R.Env, ps: seq<Param>) {
    forall k :: 0 <= k < |ps| ==> HasType(env.param(k + 1), ps[k].ty)
  }

  function Aliases(src: seq<Source>): (r: seq<string>)
    ensures |r| == |src| && forall i :: 0 <= i < |src| ==> r[i] == src[i].alias
  {
    seq(|src|, i requires 0 <= i < |src| => src[i].alias)
  }

  lemma {:induction false} SameIndex(src: seq<Source>, alias: string)
    ensures R.IndexOf(Aliases(src), alias) == SourceIndex(src, alias)
  {
    var names := Aliases(src);
    if src != [] && src[0].alias != alias {
      SameIndex(src[1..], alias);
      assert names[1..] == Aliases(src[1..]);
    }
  }

  predicate Arithmetic(op: E.BinOp) { op in {E.Mul, E.Add, E.Sub, E.Div} }

  /**
    Columns, parameters, arithmetic, comparisons, and, or, not and null tests, each part of a
    known type.
   */
  predicate Scalar(x: Tree, src: seq<Source>, s: Schema)
    decreases Weight(x), 0
  {
    ShapeSmaller(x);
    && ExprType(x, src, s) != UnknownT
    && match ShapeOf(x)
       case ColumnS(_, _) => true
       case ParamS(_, _) => true
       case BinaryS(_, l, r) => Scalar(l, src, s) && Scalar(r, src, s)
       case JunctionS(_, args) => ScalarAll(args, src, s)
       case NotS(a) => Scalar(a, src, s)
       case NullS(_, a) => Scalar(a, src, s)
       case _ => false
  }

  predicate ScalarAll(xs: seq<Tree>, src: seq<Source>, s: Schema)
    decreases WeightAll(xs), 1
  {
    xs == [] || (Scalar(xs[0], src, s) && ScalarAll(xs[1..], src, s))
  }

  // ---- types as a database gives them ----

  /** Types of columns and parameters. */
  datatype Types = Types(col: (string, string) -> SqlType, par: nat -> SqlType)

  function TypesOf(src: seq<Source>, s: Schema, ps: seq<Param>): Types {
    Types((a: string, c: string) => match Resolve(src, s, a, c) case Some(x) => x.ty case None => UnknownT,
          (n: nat) => if 1 <= n <= |ps| then ps[n - 1].ty else UnknownT)
  }

  const NUMBERS: seq<SqlType> := [Int64T, Uint64T, DecimalT, Float64T]

  /** What a function returns, given the type of its first argument. */
  function Returns(f: string, t: SqlType): SqlType {
    match f
    case "count" => Int64T
    case "COUNT" => Int64T
    case "sum" => if t in NUMBERS then t else UnknownT
    case "SUM" => if t in NUMBERS then t else UnknownT
    case "avg" => if t in NUMBERS then DecimalT else UnknownT
    case "min" => t
    case "max" => t
    case "ABS" => t
    case "LOWER" => TextT
    case "UPPER" => TextT
    case "TRIM" => TextT
    case "CONCAT" => TextT
    case "COALESCE" => t
    case _ => UnknownT
  }

  /** The type of an expression, by its operators and functions; comparisons are of known types. */
  function DbType(e: E.Expr, ty: Types): SqlType
    decreases e, 0
  {
    match e
    case Col(a, c) => ty.col(a, c)
    case Par(i) => ty.par(i)
    case Ref(_) => UnknownT
    case Call(f, _, args) => if args == [] then UnknownT else Returns(f, DbType(args[0], ty))
    case Over(a, _, _, _) => DbType(a, ty)
    case Bin(op, l, r) =>
      var a, b := DbType(l, ty), DbType(r, ty);
      if op in {E.Mul, E.Add, E.Sub, E.Div} then
        if a in NUMBERS && b in NUMBERS then (if Float64T in [a, b] then Float64T else DecimalT) else UnknownT
      else if a != UnknownT && (a == b || (a in NUMBERS && b in NUMBERS)) then BooleanT else UnknownT
    case And(es) => if BooleanAll(es, ty) then BooleanT else UnknownT
    case Or(es) => if BooleanAll(es, ty) then BooleanT else UnknownT
    case Not(x) => if DbType(x, ty) == BooleanT then BooleanT else UnknownT
    case IsNull(x, _) => if DbType(x, ty) == UnknownT then UnknownT else BooleanT
  }

  predicate BooleanAll(es: seq<E.Expr>, ty: Types)
    decreases es, 1
  {
    es == [] || (DbType(es[0], ty) == BooleanT && BooleanAll(es[1..], ty))
  }

  /** All that is assumed of calls and windows: NULL or a value of the type their functions return. */
  ghost predicate TypedCalls(env: R.Env, ty: Types) {
    forall e: E.Expr, row: R.Row :: (e.Call? || e.Over?) && DbType(e, ty) != UnknownT ==> HasType(env.other(e, row), DbType(e, ty))
  }

  /** Functions whose result has one type, whatever they are applied to. */
  predicate FixedType(f: string) { f in ["count", "COUNT", "LOWER", "UPPER", "TRIM", "CONCAT"] }

  /** Scalar expressions and calls of functions, each part of a known type that the type depends on. */
  predicate Typed(x: Tree, src: seq<Source>, s: Schema)
    decreases Weight(x), 0
  {
    ShapeSmaller(x);
    && ExprType(x, src, s) != UnknownT
    && match ShapeOf(x)
       case ColumnS(_, _) => true
       case ParamS(_, _) => true
       case RefS(_) => false
       case WindowS(a, _, _, _) => Typed(a, src, s)
       case UnaryS(f, _, a) => FixedType(f) || Typed(a, src, s)
       case BinaryS(_, l, r) => Typed(l, src, s) && Typed(r, src, s)
       case JunctionS(_, args) => TypedAll(args, src, s)
       case NotS(a) => Typed(a, src, s)
       case NullS(_, a) => Typed(a, src, s)
       case ListS(f, args) => FixedType(f) || (WeightMember(args, 0); Typed(args[0], src, s))
       case NoShape => false
  }

  predicate TypedAll(xs: seq<Tree>, src: seq<Source>, s: Schema)
    decreases WeightAll(xs), 1
  {
    xs == [] || (Typed(xs[0], src, s) && TypedAll(xs[1..], src, s))
  }

  /** The type of a node is decided by the types of its operands, in the way a database decides it. */
  function ShapeType(x: Tree, src: seq<Source>, s: Schema): SqlType {
    match ShapeOf(x)
    case ColumnS(a, c) => (match Resolve(src, s, a, c) case Some(col) => col.ty case None => UnknownT)
    case ParamS(_, ty) => ty
    case RefS(_) => UnknownT
    case WindowS(a, _, _, _) => ExprType(a, src, s)
    case UnaryS(f, _, a) => Returns(f, ExprType(a, src, s))
    case BinaryS(op, l, r) =>
      var a, b := ExprType(l, src, s), ExprType(r, src, s);
      if Arithmetic(op) then
        if a in NUMBERS && b in NUMBERS then (if Float64T in [a, b] then Float64T else DecimalT) else UnknownT
      else if a == b || (a in NUMBERS && b in NUMBERS) then BooleanT else UnknownT
    case JunctionS(_, args) => if forall a :: a in args ==> ExprType(a, src, s) == BooleanT then BooleanT else UnknownT
    case NotS(a) => if ExprType(a, src, s) == BooleanT then BooleanT else UnknownT
    case NullS(_, _) => BooleanT
    case ListS(f, args) => if args == [] then UnknownT else Returns(f, ExprType(args[0], src, s))
    case NoShape => UnknownT
  }

  /** What expr_type says of a node that can be written, told by its shape. */
  lemma {:induction false} TypeOfShape(x: Tree, src: seq<Source>, s: Schema)
    requires !ShapeOf(x).NoShape?
    ensures ExprType(x, src, s) == ShapeType(x, src, s)
  {
    match ShapeOf(x)
    case BinaryS(_, _, _) => BinaryType(x, src, s);
    case JunctionS(_, _) => JunctionType(x, src, s);
    case UnaryS(_, _, _) => CallType(x, src, s);
    case ListS(_, _) => CallType(x, src, s);
    case WindowS(_, _, _, _) => CallType(x, src, s);
    case _ =>
  }

  lemma {:induction false} CallType(x: Tree, src: seq<Source>, s: Schema)
    requires ShapeOf(x).UnaryS? || ShapeOf(x).ListS? || ShapeOf(x).WindowS?
    ensures ExprType(x, src, s) == ShapeType(x, src, s)
  {
    match ShapeOf(x)
    case UnaryS(f, _, _) => if f in ["LOWER", "UPPER", "TRIM"] { TextType(x, src, s); } else { AggregateType(x, src, s); }
    case ListS(_, _) => ListType(x, src, s);
    case _ =>
  }

  lemma {:induction false} TextType(x: Tree, src: seq<Source>, s: Schema)
    requires ShapeOf(x).UnaryS? && ShapeOf(x).fn in ["LOWER", "UPPER", "TRIM"]
    ensures ExprType(x, src, s) == TextT
  {
    assert x.kids[0].text in ["lower", "upper", "trim"];
  }

  lemma {:induction false} AggregateType(x: Tree, src: seq<Source>, s: Schema)
    requires ShapeOf(x).UnaryS? && ShapeOf(x).fn !in ["LOWER", "UPPER", "TRIM"]
    ensures ExprType(x, src, s) == Returns(ShapeOf(x).fn, ExprType(ShapeOf(x).arg, src, s))
  {
    var h := x.kids[0].text;
    var t := ExprType(x.kids[1], src, s);
    NumbersAre(t);
    if h in ["count", "count-distinct"] {
      assert ShapeOf(x).fn in ["count", "COUNT"];
    } else if h in ["sum", "sum-distinct"] {
      assert ShapeOf(x).fn in ["sum", "SUM"];
    } else if h == "avg" {
      assert ShapeOf(x).fn == "avg";
    } else {
      assert h in ["min", "max", "abs"] && ShapeOf(x).fn in ["min", "max", "ABS"];
    }
  }

  lemma {:induction false} ListType(x: Tree, src: seq<Source>, s: Schema)
    requires ShapeOf(x).ListS?
    ensures ExprType(x, src, s) == ShapeType(x, src, s)
  {
    assert x.kids[0].text in ["concat", "coalesce"] && ShapeOf(x).args[0] == x.kids[1];
  }

  lemma {:induction false} BinaryType(x: Tree, src: seq<Source>, s: Schema)
    requires ShapeOf(x).BinaryS?
    ensures ExprType(x, src, s) == ShapeType(x, src, s)
  {
    if Arithmetic(ShapeOf(x).op) { ArithmeticType(x, src, s); } else { ComparisonType(x, src, s); }
  }

  lemma {:induction false} ArithmeticType(x: Tree, src: seq<Source>, s: Schema)
    requires ShapeOf(x).BinaryS? && Arithmetic(ShapeOf(x).op)
    ensures var a, b := ExprType(ShapeOf(x).l, src, s), ExprType(ShapeOf(x).r, src, s);
            ExprType(x, src, s) == if a in NUMBERS && b in NUMBERS then (if Float64T in [a, b] then Float64T else DecimalT) else UnknownT
  {
    assert x.kids[0].text in ["mul", "add", "sub", "div"] && x.kids[1] == ShapeOf(x).l && x.kids[2] == ShapeOf(x).r;
    NumbersAre(ExprType(x.kids[1], src, s));
    NumbersAre(ExprType(x.kids[2], src, s));
  }

  lemma {:induction false} NumbersAre(t: SqlType)
    ensures NumericType(t) <==> t in NUMBERS
  {
  }

  lemma {:induction false} ComparisonType(x: Tree, src: seq<Source>, s: Schema)
    requires ShapeOf(x).BinaryS? && !Arithmetic(ShapeOf(x).op)
    ensures var a, b := ExprType(ShapeOf(x).l, src, s), ExprType(ShapeOf(x).r, src, s);
            ExprType(x, src, s) == if a == b || (a in NUMBERS && b in NUMBERS) then BooleanT else UnknownT
  {
    assert x.kids[0].text in ["eq", "neq", "gt", "gte", "lt", "lte"] && x.kids[1] == ShapeOf(x).l && x.kids[2] == ShapeOf(x).r;
    NumbersAre(ExprType(x.kids[1], src, s));
    NumbersAre(ExprType(x.kids[2], src, s));
  }

  lemma {:induction false} JunctionType(x: Tree, src: seq<Source>, s: Schema)
    requires ShapeOf(x).JunctionS?
    ensures ExprType(x, src, s) == if forall a :: a in ShapeOf(x).args ==> ExprType(a, src, s) == BooleanT then BooleanT else UnknownT
  {
    var k := x.kids;
    AllFrom(k, src, s);
    assert k[0].text in ["and", "or"] && ShapeOf(x).args == k[1..];
  }

  lemma {:induction false} AllFrom(k: seq<Tree>, src: seq<Source>, s: Schema)
    requires k != []
    ensures (forall a :: a in k[1..] ==> ExprType(a, src, s) == BooleanT) <==> forall i :: 1 <= i < |k| ==> ExprType(k[i], src, s) == BooleanT
  {
    assert forall i :: 1 <= i < |k| ==> k[i] == k[1..][i - 1];
  }

  // ---- values ----

  lemma {:induction false} CompareTyped(op: E.BinOp, a: R.Value, b: R.Value, t: SqlType, u: SqlType, less: (R.Value, R.Value) -> bool)
    requires HasType(a, t) && HasType(b, u) && Compatible(t, u) && !Arithmetic(op)
    ensures HasType(R.CompareV(op, a, b, less), BooleanT)
  {
  }

  lemma {:induction false} JunctionTyped(vs: seq<R.Value>, zero: bool)
    requires forall v :: v in vs ==> R.Truth(v)
    ensures R.Truth(R.Junction(vs, zero)) && (|vs| == 1 ==> R.Junction(vs, zero) == vs[0])
  {
    if |vs| == 1 {
      assert vs[0] in vs;
    }
  }

  lemma {:induction false} GrowsTable(x: Tree, src: seq<Source>, s: Schema, ps: seq<Param>)
    requires Number(x, src, s, ps).Some?
    ensures ps <= Number(x, src, s, ps).value.1
    decreases Weight(x), 0
  {
    ShapeSmaller(x);
    match ShapeOf(x)
    case ColumnS(_, _) =>
    case ParamS(_, _) =>
    case RefS(_) =>
    case WindowS(a, part, o, _) =>
      GrowsTable(a, src, s, ps);
      var p1 := Number(a, src, s, ps).value.1;
      GrowsTableAll(part, src, s, p1);
      GrowsTable(o, src, s, NumberAll(part, src, s, p1).value.1);
    case UnaryS(_, _, a) => GrowsTable(a, src, s, ps);
    case BinaryS(_, l, r) =>
      GrowsTable(l, src, s, ps);
      GrowsTable(r, src, s, Number(l, src, s, ps).value.1);
    case JunctionS(_, args) => GrowsTableAll(args, src, s, ps);
    case NotS(a) => GrowsTable(a, src, s, ps);
    case NullS(_, a) => GrowsTable(a, src, s, ps);
    case ListS(_, args) => GrowsTableAll(args, src, s, ps);
    case NoShape =>
  }

  lemma {:induction false} GrowsTableAll(xs: seq<Tree>, src: seq<Source>, s: Schema, ps: seq<Param>)
    requires NumberAll(xs, src, s, ps).Some?
    ensures ps <= NumberAll(xs, src, s, ps).value.1
    decreases WeightAll(xs), 1
  {
    if xs != [] {
      GrowsTable(xs[0], src, s, ps);
      GrowsTableAll(xs[1..], src, s, Number(xs[0], src, s, ps).value.1);
    }
  }

  // ---- soundness ----

  /** The database gives a typed expression the type that expr_type reports. */
  lemma {:induction false} TypesAgree(x: Tree, src: seq<Source>, s: Schema, ps: seq<Param>, all: seq<Param>, d: Sql.Dialect)
    requires d != Sql.MySql && Typed(x, src, s) && Number(x, src, s, ps).Some? && Number(x, src, s, ps).value.1 <= all
    ensures DbType(RB.Norm(Number(x, src, s, ps).value.0, d), TypesOf(src, s, all)) == ExprType(x, src, s)
    decreases Weight(x), 1
  {
    match ShapeOf(x)
    case ColumnS(_, _) => TypeOfShape(x, src, s);
    case ParamS(n, ty) =>
      TypeOfShape(x, src, s);
      ParamType(Param(n, ty, User), ps, all, src, s);
    case BinaryS(_, _, _) => BinaryAgrees(x, src, s, ps, all, d);
    case JunctionS(_, _) => JunctionAgrees(x, src, s, ps, all, d);
    case NotS(_) => NotAgrees(x, src, s, ps, all, d);
    case NullS(_, _) => TestAgrees(x, src, s, ps, all, d);
    case WindowS(_, _, _, _) => WindowAgrees(x, src, s, ps, all, d);
    case UnaryS(_, _, _) => CallAgrees(x, src, s, ps, all, d);
    case ListS(_, _) => ListAgrees(x, src, s, ps, all, d);
  }

  lemma {:induction false} BinaryAgrees(x: Tree, src: seq<Source>, s: Schema, ps: seq<Param>, all: seq<Param>, d: Sql.Dialect)
    requires ShapeOf(x).BinaryS?
    requires d != Sql.MySql && Typed(x, src, s) && Number(x, src, s, ps).Some? && Number(x, src, s, ps).value.1 <= all
    ensures DbType(RB.Norm(Number(x, src, s, ps).value.0, d), TypesOf(src, s, all)) == ExprType(x, src, s)
    decreases Weight(x), 0
  {
    ShapeSmaller(x);
    BinaryType(x, src, s);
    var l, r := ShapeOf(x).l, ShapeOf(x).r;
    var p1 := Number(l, src, s, ps).value.1;
    GrowsTable(r, src, s, p1);
    TypesAgree(l, src, s, ps, all, d);
    TypesAgree(r, src, s, p1, all, d);
    BinaryDbType(ShapeOf(x).op, Number(l, src, s, ps).value.0, Number(r, src, s, p1).value.0, TypesOf(src, s, all), d);
  }

  lemma {:induction false} NotAgrees(x: Tree, src: seq<Source>, s: Schema, ps: seq<Param>, all: seq<Param>, d: Sql.Dialect)
    requires ShapeOf(x).NotS?
    requires d != Sql.MySql && Typed(x, src, s) && Number(x, src, s, ps).Some? && Number(x, src, s, ps).value.1 <= all
    ensures DbType(RB.Norm(Number(x, src, s, ps).value.0, d), TypesOf(src, s, all)) == ExprType(x, src, s)
    decreases Weight(x), 0
  {
    ShapeSmaller(x);
    PrefixType(x, src, s);
    var a := ShapeOf(x).arg;
    TypesAgree(a, src, s, ps, all, d);
    PrefixDbType(Number(a, src, s, ps).value.0, TypesOf(src, s, all), d);
  }

  lemma {:induction false} TestAgrees(x: Tree, src: seq<Source>, s: Schema, ps: seq<Param>, all: seq<Param>, d: Sql.Dialect)
    requires ShapeOf(x).NullS?
    requires d != Sql.MySql && Typed(x, src, s) && Number(x, src, s, ps).Some? && Number(x, src, s, ps).value.1 <= all
    ensures DbType(RB.Norm(Number(x, src, s, ps).value.0, d), TypesOf(src, s, all)) == ExprType(x, src, s)
    decreases Weight(x), 0
  {
    ShapeSmaller(x);
    PrefixType(x, src, s);
    var a := ShapeOf(x).arg;
    TypesAgree(a, src, s, ps, all, d);
    PrefixDbType(Number(a, src, s, ps).value.0, TypesOf(src, s, all), d);
  }

  lemma {:induction false} WindowAgrees(x: Tree, src: seq<Source>, s: Schema, ps: seq<Param>, all: seq<Param>, d: Sql.Dialect)
    requires ShapeOf(x).WindowS?
    requires d != Sql.MySql && Typed(x, src, s) && Number(x, src, s, ps).Some? && Number(x, src, s, ps).value.1 <= all
    ensures DbType(RB.Norm(Number(x, src, s, ps).value.0, d), TypesOf(src, s, all)) == ExprType(x, src, s)
    decreases Weight(x), 0
  {
    ShapeSmaller(x);
    CallType(x, src, s);
    var a, part, o := ShapeOf(x).arg, ShapeOf(x).part, ShapeOf(x).order;
    var p1 := Number(a, src, s, ps).value.1;
    GrowsTableAll(part, src, s, p1);
    GrowsTable(o, src, s, NumberAll(part, src, s, p1).value.1);
    TypesAgree(a, src, s, ps, all, d);
  }

  lemma {:induction false} CallAgrees(x: Tree, src: seq<Source>, s: Schema, ps: seq<Param>, all: seq<Param>, d: Sql.Dialect)
    requires ShapeOf(x).UnaryS?
    requires d != Sql.MySql && Typed(x, src, s) && Number(x, src, s, ps).Some? && Number(x, src, s, ps).value.1 <= all
    ensures DbType(RB.Norm(Number(x, src, s, ps).value.0, d), TypesOf(src, s, all)) == ExprType(x, src, s)
    decreases Weight(x), 0
  {
    ShapeSmaller(x);
    CallType(x, src, s);
    var f, distinct, a := ShapeOf(x).fn, ShapeOf(x).distinct, ShapeOf(x).arg;
    OneArgument(f, distinct, Number(a, src, s, ps).value.0, TypesOf(src, s, all), d);
    if FixedType(f) {
      Fixed(f, ExprType(a, src, s), DbType(RB.Norm(Number(a, src, s, ps).value.0, d), TypesOf(src, s, all)));
    } else {
      TypesAgree(a, src, s, ps, all, d);
    }
  }

  lemma {:induction false} PrefixType(x: Tree, src: seq<Source>, s: Schema)
    requires ShapeOf(x).NotS? || ShapeOf(x).NullS?
    ensures ShapeOf(x).NotS? ==> ExprType(x, src, s) == if ExprType(ShapeOf(x).arg, src, s) == BooleanT then BooleanT else UnknownT
    ensures ShapeOf(x).NullS? ==> ExprType(x, src, s) == BooleanT
  {
    assert x.kids[0].text in ["not", "is-null", "is-not-null"] && x.kids[1] == ShapeOf(x).arg;
  }

  lemma {:induction false} PrefixDbType(e: E.Expr, ty: Types, d: Sql.Dialect)
    ensures var t := DbType(RB.Norm(e, d), ty);
            && DbType(RB.Norm(E.Not(e), d), ty) == (if t == BooleanT then BooleanT else UnknownT)
            && DbType(RB.Norm(E.IsNull(e, false), d), ty) == DbType(RB.Norm(E.IsNull(e, true), d), ty)
               == (if t == UnknownT then UnknownT else BooleanT)
  {
  }

  lemma {:induction false} BinaryDbType(op: E.BinOp, l: E.Expr, r: E.Expr, ty: Types, d: Sql.Dialect)
    ensures var a, b := DbType(RB.Norm(l, d), ty), DbType(RB.Norm(r, d), ty);
            DbType(RB.Norm(E.Bin(op, l, r), d), ty) ==
            if Arithmetic(op) then
              if a in NUMBERS && b in NUMBERS then (if Float64T in [a, b] then Float64T else DecimalT) else UnknownT
            else if a != UnknownT && (a == b || (a in NUMBERS && b in NUMBERS)) then BooleanT else UnknownT
  {
  }

  lemma {:induction false} OneArgument(f: string, distinct: bool, e: E.Expr, ty: Types, d: Sql.Dialect)
    ensures DbType(RB.Norm(E.Call(f, distinct, [e]), d), ty) == Returns(f, DbType(RB.Norm(e, d), ty))
  {
    assert RB.NormAll([e], d)[0] == RB.Norm(e, d);
  }

  lemma {:induction false} Fixed(f: string, t: SqlType, u: SqlType)
    requires FixedType(f)
    ensures Returns(f, t) == Returns(f, u)
  {
  }

  lemma {:induction false} ListAgrees(x: Tree, src: seq<Source>, s: Schema, ps: seq<Param>, all: seq<Param>, d: Sql.Dialect)
    requires ShapeOf(x).ListS?
    requires d != Sql.MySql && Typed(x, src, s) && Number(x, src, s, ps).Some? && Number(x, src, s, ps).value.1 <= all
    ensures DbType(RB.Norm(Number(x, src, s, ps).value.0, d), TypesOf(src, s, all)) == ExprType(x, src, s)
    decreases Weight(x), 0
  {
    ShapeSmaller(x);
    CallType(x, src, s);
    var f, args := ShapeOf(x).fn, ShapeOf(x).args;
    WeightMember(args, 0);
    var (e, p1) := Number(args[0], src, s, ps).value;
    FirstArgument(f, NumberAll(args, src, s, ps).value.0, TypesOf(src, s, all), d);
    if FixedType(f) {
      Fixed(f, ExprType(args[0], src, s), DbType(RB.Norm(e, d), TypesOf(src, s, all)));
    } else {
      GrowsTableAll(args[1..], src, s, p1);
      TypesAgree(args[0], src, s, ps, all, d);
    }
  }

  lemma {:induction false} FirstArgument(f: string, es: seq<E.Expr>, ty: Types, d: Sql.Dialect)
    requires es != []
    ensures DbType(RB.Norm(E.Call(f, false, es), d), ty) == Returns(f, DbType(RB.Norm(es[0], d), ty))
  {
  }

  lemma {:induction false} ParamType(x: Param, ps: seq<Param>, all: seq<Param>, src: seq<Source>, s: Schema)
    requires Index(ps, x).Some? && Index(ps, x).value.1 <= all
    ensures TypesOf(src, s, all).par(Index(ps, x).value.0) == x.ty
  {
    var (i, qs) := Index(ps, x).value;
    assert qs[i - 1] == all[i - 1] == x;
  }

  lemma {:induction false} JunctionAgrees(x: Tree, src: seq<Source>, s: Schema, ps: seq<Param>, all: seq<Param>, d: Sql.Dialect)
    requires ShapeOf(x).JunctionS?
    requires d != Sql.MySql && Typed(x, src, s) && Number(x, src, s, ps).Some? && Number(x, src, s, ps).value.1 <= all
    ensures DbType(RB.Norm(Number(x, src, s, ps).value.0, d), TypesOf(src, s, all)) == ExprType(x, src, s)
    decreases Weight(x), 0
  {
    ShapeSmaller(x);
    JunctionType(x, src, s);
    AllBoolean(ShapeOf(x).args, src, s, ps, all, d);
    var es := NumberAll(ShapeOf(x).args, src, s, ps).value.0;
    JunctionDbType(es, TypesOf(src, s, all), d);
  }

  lemma {:induction false} JunctionDbType(es: seq<E.Expr>, ty: Types, d: Sql.Dialect)
    requires es != [] && BooleanAll(RB.NormAll(es, d), ty)
    ensures DbType(RB.Norm(E.And(es), d), ty) == BooleanT && DbType(RB.Norm(E.Or(es), d), ty) == BooleanT
  {
    assert RB.NormAll(es, d)[0] == RB.Norm(es[0], d);
  }

  lemma {:induction false} AllBoolean(xs: seq<Tree>, src: seq<Source>, s: Schema, ps: seq<Param>, all: seq<Param>, d: Sql.Dialect)
    requires d != Sql.MySql && TypedAll(xs, src, s) && NumberAll(xs, src, s, ps).Some? && NumberAll(xs, src, s, ps).value.1 <= all
    requires forall x :: x in xs ==> ExprType(x, src, s) == BooleanT
    ensures var es, ty := NumberAll(xs, src, s, ps).value.0, TypesOf(src, s, all);
            |es| == |xs| && BooleanAll(RB.NormAll(es, d), ty)
    decreases WeightAll(xs), 2
  {
    if xs != [] {
      var p1 := Number(xs[0], src, s, ps).value.1;
      GrowsTableAll(xs[1..], src, s, p1);
      assert xs[0] in xs;
      TypesAgree(xs[0], src, s, ps, all, d);
      AllBoolean(xs[1..], src, s, p1, all, d);
      assert RB.NormAll(NumberAll(xs, src, s, ps).value.0, d)[1..] == RB.NormAll(NumberAll(xs[1..], src, s, p1).value.0, d);
    }
  }

  /** Rows and arguments hold values of these types. */
  ghost predicate Fit(ty: Types, row: R.Row, names: seq<string>, env: R.Env) {
    && (forall a: string, c: string :: ty.col(a, c) != UnknownT ==> HasType(R.Cell(row, R.IndexOf(names, a), c), ty.col(a, c)))
    && (forall n: nat :: ty.par(n) != UnknownT ==> HasType(env.param(n), ty.par(n)))
  }

  /**
    On rows and arguments of the declared types, with functions that return what they should, an
    expression is NULL or a value of its type.
   */
  lemma {:induction false} DbTypeSound(e: E.Expr, ty: Types, row: R.Row, names: seq<string>, env: R.Env)
    requires DbType(e, ty) != UnknownT && TypedCalls(env, ty) && Fit(ty, row, names, env)
    ensures HasType(R.Eval(e, row, names, env), DbType(e, ty))
    decreases e, 0
  {
    match e
    case Bin(op, l, r) =>
      DbTypeSound(l, ty, row, names, env);
      DbTypeSound(r, ty, row, names, env);
      BinaryParts(op, R.Eval(l, row, names, env), R.Eval(r, row, names, env), DbType(l, ty), DbType(r, ty), env.less);
    case And(es) => BooleansSound(es, ty, row, names, env);
    case Or(es) => BooleansSound(es, ty, row, names, env);
    case Not(x) => DbTypeSound(x, ty, row, names, env);
    case IsNull(x, _) => DbTypeSound(x, ty, row, names, env);
    case _ =>
  }

  lemma {:induction false} BinaryParts(op: E.BinOp, a: R.Value, b: R.Value, t: SqlType, u: SqlType, less: (R.Value, R.Value) -> bool)
    requires HasType(a, t) && HasType(b, u)
    ensures Arithmetic(op) && t in NUMBERS && u in NUMBERS ==> forall v :: v in NUMBERS ==> HasType(R.ArithV(op, a, b), v)
    ensures !Arithmetic(op) && (t == u || (t in NUMBERS && u in NUMBERS)) ==> HasType(R.CompareV(op, a, b, less), BooleanT)
  {
    NumbersAre(t);
    NumbersAre(u);
    if !Arithmetic(op) && (t == u || (t in NUMBERS && u in NUMBERS)) {
      CompareTyped(op, a, b, t, u, less);
    }
  }

  lemma {:induction false} BooleansSound(es: seq<E.Expr>, ty: Types, row: R.Row, names: seq<string>, env: R.Env)
    requires BooleanAll(es, ty) && TypedCalls(env, ty) && Fit(ty, row, names, env)
    ensures var vs := R.EvalAll(es, row, names, env);
            HasType(R.Junction(vs, false), BooleanT) && HasType(R.Junction(vs, true), BooleanT)
    decreases es, 1
  {
    EachTruth(es, ty, row, names, env);
    JunctionTyped(R.EvalAll(es, row, names, env), false);
    JunctionTyped(R.EvalAll(es, row, names, env), true);
  }

  lemma {:induction false} EachTruth(es: seq<E.Expr>, ty: Types, row: R.Row, names: seq<string>, env: R.Env)
    requires BooleanAll(es, ty) && TypedCalls(env, ty) && Fit(ty, row, names, env)
    ensures forall v :: v in R.EvalAll(es, row, names, env) ==> R.Truth(v)
    decreases es, 0
  {
    if es != [] {
      DbTypeSound(es[0], ty, row, names, env);
      EachTruth(es[1..], ty, row, names, env);
    }
  }

  lemma {:induction false} FitsDeclared(src: seq<Source>, s: Schema, ps: seq<Param>, row: R.Row, env: R.Env)
    requires TypedRow(row, src, s) && TypedParams(env, ps)
    ensures Fit(TypesOf(src, s, ps), row, Aliases(src), env)
  {
    var ty := TypesOf(src, s, ps);
    forall a: string, c: string | ty.col(a, c) != UnknownT
      ensures HasType(R.Cell(row, R.IndexOf(Aliases(src), a), c), ty.col(a, c))
    {
      SameIndex(src, a);
    }
    forall n: nat | ty.par(n) != UnknownT
      ensures HasType(env.param(n), ty.par(n))
    {
      assert HasType(env.param((n - 1) + 1), ps[n - 1].ty);
    }
  }

  /**
    An expression whose parts have known types, calls among them, is NULL or a value of the type
    that expr_type reports, on every row, with every argument and for every function that is of
    its declared type.
   */
  lemma {:induction false} TypingSound(x: Tree, src: seq<Source>, s: Schema, ps: seq<Param>, all: seq<Param>, d: Sql.Dialect,
                                       row: R.Row, env: R.Env)
    requires d != Sql.MySql && Typed(x, src, s) && Number(x, src, s, ps).Some? && Number(x, src, s, ps).value.1 <= all
    requires TypedRow(row, src, s) && TypedParams(env, all) && TypedCalls(env, TypesOf(src, s, all))
    ensures HasType(R.Eval(RB.Norm(Number(x, src, s, ps).value.0, d), row, Aliases(src), env), ExprType(x, src, s))
  {
    TypesAgree(x, src, s, ps, all, d);
    FitsDeclared(src, s, all, row, env);
    DbTypeSound(RB.Norm(Number(x, src, s, ps).value.0, d), TypesOf(src, s, all), row, Aliases(src), env);
  }
}
