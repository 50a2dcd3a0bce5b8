/**
  What a condition, as the database reads it, can evaluate to: a value of one kind on every row,
  or nothing that a comparison, a connective or arithmetic could use.
 */
module Kinds {
  import opened Wrappers
  import opened Sexpr
  import opened Catalog
  import opened Emit
  import opened Compile
  import opened Typing
  import E = SqlExpr
  import RB = ReadBack
  import R = Relational
  import Sql

  /**
    The kind of the values of a condition as it is read, told from shapes and declared types:
    and / or of one operand is that operand, since its text is; functions, windows and bare names
    have none.
   */
  function Kind(x: Tree, src: seq<Source>, s: Schema): Option<SqlType>
    decreases Weight(x), 0
  {
    ShapeSmaller(x);
    match ShapeOf(x)
    case ColumnS(a, c) => (match Resolve(src, s, a, c) case Some(col) => Some(col.ty) case None => None)
    case ParamS(_, ty) => Some(ty)
    case BinaryS(op, l, r) => BinaryKind(op, Kind(l, src, s), Kind(r, src, s))
    case JunctionS(_, args) => JunctionKind(KindAll(args, src, s))
    case NotS(a) => if Kind(a, src, s) == Some(BooleanT) then Some(BooleanT) else None
    case NullS(_, a) => if Kind(a, src, s).Some? then Some(BooleanT) else None
    case _ => None
  }

  function KindAll(xs: seq<Tree>, src: seq<Source>, s: Schema): (r: seq<Option<SqlType>>)
    ensures |r| == |xs|
    decreases WeightAll(xs), 1
  {
    if xs == [] then [] else [Kind(xs[0], src, s)] + KindAll(xs[1..], src, s)
  }

  function BinaryKind(op: E.BinOp, a: Option<SqlType>, b: Option<SqlType>): Option<SqlType> {
    if a.None? || b.None? then None
    else if Arithmetic(op) then if NumericType(a.value) && NumericType(b.value) then Some(DecimalT) else None
    else if Compatible(a.value, b.value) then Some(BooleanT) else None
  }

  function JunctionKind(ks: seq<Option<SqlType>>): Option<SqlType> {
    if |ks| == 1 then ks[0]
    else if forall k :: k in ks ==> k == Some(BooleanT) then Some(BooleanT) else None
  }

  /** A divisor that is not zero where columns and parameters are positive: no subtraction in it. */
  predicate Positive(x: Tree)
    decreases Weight(x)
  {
    ShapeSmaller(x);
    match ShapeOf(x)
    case ColumnS(_, _) => true
    case ParamS(_, _) => true
    case BinaryS(op, l, r) => op in {E.Mul, E.Add, E.Div} && Positive(l) && Positive(r)
    case _ => false
  }

  predicate Known(t: SqlType) { !t.UnknownT? && !t.NullT? }

  /** Columns of declared types, and no division by a difference. */
  predicate Plain(x: Tree, src: seq<Source>, s: Schema)
    decreases Weight(x), 0
  {
    ShapeSmaller(x);
    match ShapeOf(x)
    case ColumnS(a, c) => (match Resolve(src, s, a, c) case Some(col) => Known(col.ty) case None => true)
    case BinaryS(op, l, r) => Plain(l, src, s) && Plain(r, src, s) && (op.Div? ==> Positive(r))
    case JunctionS(_, args) => PlainAll(args, src, s)
    case NotS(a) => Plain(a, src, s)
    case NullS(_, a) => Plain(a, src, s)
    case _ => true
  }

  predicate PlainAll(xs: seq<Tree>, src: seq<Source>, s: Schema)
    decreases WeightAll(xs), 1
  {
    xs == [] || (Plain(xs[0], src, s) && PlainAll(xs[1..], src, s))
  }

  // ---- values of a kind ----

  /**
    v is a value of kind k. Where rows and parameters are full, without NULL or anything that is
    not positive, it is not NULL either, and it is Bad exactly where there is no kind.
   */
  predicate Fits(v: R.Value, k: Option<SqlType>, full: bool, positive: bool) {
    match k
    case None => full ==> v.Bad?
    case Some(t) => HasType(v, t) && (full ==> !v.Null?) && (full && positive && v.Num? ==> v.x > 0.0)
  }

  lemma {:induction false} ArithmeticFits(op: E.BinOp, a: R.Value, b: R.Value, k: Option<SqlType>, l: Option<SqlType>,
                                          full: bool, pa: bool, pb: bool)
    requires Arithmetic(op) && Fits(a, k, full, pa) && Fits(b, l, full, pb) && (full && op.Div? ==> pb)
    ensures Fits(R.ArithV(op, a, b), BinaryKind(op, k, l), full, op != E.Sub && pa && pb)
  {
    if full && a.Num? && b.Num? && pa && pb {
      Products(op, a.x, b.x);
    }
  }

  lemma {:induction false} Products(op: E.BinOp, x: real, y: real)
    requires x > 0.0 && y > 0.0
    ensures x * y > 0.0 && x / y > 0.0
  {
    assert x / y * y == x;
  }

  lemma {:induction false} ComparisonFits(op: E.BinOp, a: R.Value, b: R.Value, k: Option<SqlType>, l: Option<SqlType>,
                                          full: bool, pa: bool, pb: bool, less: (R.Value, R.Value) -> bool)
    requires !Arithmetic(op) && Fits(a, k, full, pa) && Fits(b, l, full, pb)
    ensures Fits(R.CompareV(op, a, b, less), BinaryKind(op, k, l), full, false)
  {
  }

  lemma {:induction false} JunctionFits(vs: seq<R.Value>, ks: seq<Option<SqlType>>, zero: bool, full: bool)
    requires |vs| == |ks| != 1 && forall i :: 0 <= i < |vs| ==> Fits(vs[i], ks[i], full, false)
    ensures Fits(R.Junction(vs, zero), JunctionKind(ks), full, false)
  {
    if JunctionKind(ks).Some? {
      assert forall i :: 0 <= i < |ks| ==> ks[i] in ks;
    } else {
      var k :| k in ks && k != Some(BooleanT);
      var i :| 0 <= i < |ks| && ks[i] == k;
      assert full ==> vs[i] in vs && !R.Truth(vs[i]);
    }
  }

  /** Rows and parameters in which every value of a known type is there, and every number positive. */
  ghost predicate FullRow(row: R.Row, src: seq<Source>, s: Schema) {
    forall i, col :: 0 <= i < |src| && ColFind(s, src[i].schema, src[i].table, col).Some?
                     && Known(ColFind(s, src[i].schema, src[i].table, col).value.ty) ==>
      Fits(R.Cell(row, i, col), Some(ColFind(s, src[i].schema, src[i].table, col).value.ty), true, true)
  }

  ghost predicate FullEnv(env: R.Env, ps: seq<Param>) {
    && (forall k :: 0 <= k < |ps| && Known(ps[k].ty) ==> Fits(env.param(k + 1), Some(ps[k].ty), true, true))
    && (forall e, row :: env.other(e, row) == R.Bad)
  }

  /** The row and the parameters in hand, and whether they are full. */
  ghost predicate Given(row: R.Row, env: R.Env, src: seq<Source>, s: Schema, all: seq<Param>, full: bool) {
    && TypedRow(row, src, s) && TypedParams(env, all)
    && (full ==> FullRow(row, src, s) && FullEnv(env, all))
  }

  ghost predicate Reads(e: E.Expr, k: Option<SqlType>, positive: bool, d: Sql.Dialect, row: R.Row, names: seq<string>, env: R.Env, full: bool) {
    Fits(R.Eval(RB.Norm(e, d), row, names, env), k, full, positive)
  }

  /** A condition as it is read has values of its kind. */
  lemma {:induction false} KindSound(x: Tree, src: seq<Source>, s: Schema, ps: seq<Param>, all: seq<Param>, d: Sql.Dialect,
                                     row: R.Row, env: R.Env, full: bool)
    requires d != Sql.MySql && Number(x, src, s, ps).Some? && Number(x, src, s, ps).value.1 <= all
    requires Given(row, env, src, s, all, full) && (full ==> Plain(x, src, s))
    ensures Reads(Number(x, src, s, ps).value.0, Kind(x, src, s), Positive(x), d, row, Aliases(src), env, full)
    decreases Weight(x), 1
  {
    ShapeSmaller(x);
    match ShapeOf(x)
    case ColumnS(a, c) => SameIndex(src, a);
    case ParamS(n, ty) => ParamFits(Param(n, ty, User), ps, all, env, full);
    case BinaryS(_, _, _) => BinarySound(x, src, s, ps, all, d, row, env, full);
    case JunctionS(_, args) => JunctionSound(x, src, s, ps, all, d, row, env, full);
    case NotS(a) =>
      KindSound(a, src, s, ps, all, d, row, env, full);
      NotReads(Number(a, src, s, ps).value.0, Kind(a, src, s), Positive(a), d, row, Aliases(src), env, full);
    case NullS(negated, a) =>
      KindSound(a, src, s, ps, all, d, row, env, full);
      TestReads(Number(a, src, s, ps).value.0, Kind(a, src, s), Positive(a), negated, d, row, Aliases(src), env, full);
    case _ => NoKind(x, src, s, ps, d, row, env);
  }

  lemma {:induction false} NotReads(e: E.Expr, k: Option<SqlType>, positive: bool, d: Sql.Dialect,
                                    row: R.Row, names: seq<string>, env: R.Env, full: bool)
    requires Reads(e, k, positive, d, row, names, env, full)
    ensures Reads(E.Not(e), if k == Some(BooleanT) then k else None, false, d, row, names, env, full)
  {
  }

  lemma {:induction false} TestReads(e: E.Expr, k: Option<SqlType>, positive: bool, negated: bool, d: Sql.Dialect,
                                     row: R.Row, names: seq<string>, env: R.Env, full: bool)
    requires Reads(e, k, positive, d, row, names, env, full)
    ensures Reads(E.IsNull(e, negated), if k.Some? then Some(BooleanT) else None, false, d, row, names, env, full)
  {
  }

  /** Functions, windows and bare names are evaluated by the database alone. */
  lemma {:induction false} NoKind(x: Tree, src: seq<Source>, s: Schema, ps: seq<Param>, d: Sql.Dialect, row: R.Row, env: R.Env)
    requires ShapeOf(x).RefS? || ShapeOf(x).WindowS? || ShapeOf(x).UnaryS? || ShapeOf(x).ListS?
    requires Number(x, src, s, ps).Some?
    ensures var e := RB.Norm(Number(x, src, s, ps).value.0, d); R.Eval(e, row, Aliases(src), env) == env.other(e, row)
  {
  }

  lemma {:induction false} ParamFits(x: Param, ps: seq<Param>, all: seq<Param>, env: R.Env, full: bool)
    requires Index(ps, x).Some? && Index(ps, x).value.1 <= all && TypedParams(env, all) && (full ==> FullEnv(env, all) && Known(x.ty))
    ensures Fits(env.param(Index(ps, x).value.0), Some(x.ty), full, true)
  {
    var (i, qs) := Index(ps, x).value;
    assert qs[i - 1] == all[i - 1] == x;
    assert HasType(env.param(i - 1 + 1), x.ty);
  }

  lemma {:induction false} BinarySound(x: Tree, src: seq<Source>, s: Schema, ps: seq<Param>, all: seq<Param>, d: Sql.Dialect,
                                       row: R.Row, env: R.Env, full: bool)
    requires ShapeOf(x).BinaryS?
    requires d != Sql.MySql && Number(x, src, s, ps).Some? && Number(x, src, s, ps).value.1 <= all
    requires Given(row, env, src, s, all, full) && (full ==> Plain(x, src, s))
    ensures Reads(Number(x, src, s, ps).value.0, Kind(x, src, s), Positive(x), d, row, Aliases(src), env, full)
    decreases Weight(x), 0
  {
    ShapeSmaller(x);
    var op, l, r := ShapeOf(x).op, ShapeOf(x).l, ShapeOf(x).r;
    var (e1, p1) := Number(l, src, s, ps).value;
    var (e2, p2) := Number(r, src, s, p1).value;
    GrowsTable(r, src, s, p1);
    KindSound(l, src, s, ps, all, d, row, env, full);
    KindSound(r, src, s, p1, all, d, row, env, full);
    BinaryReads(op, e1, e2, Kind(l, src, s), Kind(r, src, s), Positive(l), Positive(r), d, row, Aliases(src), env, full);
  }

  lemma {:induction false} BinaryReads(op: E.BinOp, e1: E.Expr, e2: E.Expr, k: Option<SqlType>, l: Option<SqlType>, pa: bool, pb: bool,
                                       d: Sql.Dialect, row: R.Row, names: seq<string>, env: R.Env, full: bool)
    requires Reads(e1, k, pa, d, row, names, env, full) && Reads(e2, l, pb, d, row, names, env, full) && (full && op.Div? ==> pb)
    ensures Reads(E.Bin(op, e1, e2), BinaryKind(op, k, l), op in {E.Mul, E.Add, E.Div} && pa && pb, d, row, names, env, full)
  {
    var a, b := R.Eval(RB.Norm(e1, d), row, names, env), R.Eval(RB.Norm(e2, d), row, names, env);
    if Arithmetic(op) {
      ArithmeticFits(op, a, b, k, l, full, pa, pb);
    } else {
      ComparisonFits(op, a, b, k, l, full, pa, pb, env.less);
    }
  }

  lemma {:induction false} JunctionSound(x: Tree, src: seq<Source>, s: Schema, ps: seq<Param>, all: seq<Param>, d: Sql.Dialect,
                                         row: R.Row, env: R.Env, full: bool)
    requires ShapeOf(x).JunctionS?
    requires d != Sql.MySql && Number(x, src, s, ps).Some? && Number(x, src, s, ps).value.1 <= all
    requires Given(row, env, src, s, all, full) && (full ==> Plain(x, src, s))
    ensures Reads(Number(x, src, s, ps).value.0, Kind(x, src, s), Positive(x), d, row, Aliases(src), env, full)
    decreases Weight(x), 0
  {
    ShapeSmaller(x);
    var args := ShapeOf(x).args;
    AllSound(args, src, s, ps, all, d, row, env, full);
    JunctionReads(NumberAll(args, src, s, ps).value.0, KindAll(args, src, s), d, row, Aliases(src), env, full);
  }

  lemma {:induction false} AllSound(xs: seq<Tree>, src: seq<Source>, s: Schema, ps: seq<Param>, all: seq<Param>, d: Sql.Dialect,
                                    row: R.Row, env: R.Env, full: bool)
    requires d != Sql.MySql && NumberAll(xs, src, s, ps).Some? && NumberAll(xs, src, s, ps).value.1 <= all
    requires Given(row, env, src, s, all, full) && (full ==> PlainAll(xs, src, s))
    ensures var es, ks := NumberAll(xs, src, s, ps).value.0, KindAll(xs, src, s);
            |es| == |ks| && forall i :: 0 <= i < |es| ==> Reads(es[i], ks[i], false, d, row, Aliases(src), env, full)
    decreases WeightAll(xs), 2
  {
    if xs != [] {
      var p1 := Number(xs[0], src, s, ps).value.1;
      GrowsTableAll(xs[1..], src, s, p1);
      KindSound(xs[0], src, s, ps, all, d, row, env, full);
      AllSound(xs[1..], src, s, p1, all, d, row, env, full);
    }
  }

  lemma {:induction false} JunctionReads(es: seq<E.Expr>, ks: seq<Option<SqlType>>, d: Sql.Dialect,
                                         row: R.Row, names: seq<string>, env: R.Env, full: bool)
    requires |es| == |ks| && forall i :: 0 <= i < |es| ==> Reads(es[i], ks[i], false, d, row, names, env, full)
    ensures Reads(E.And(es), JunctionKind(ks), false, d, row, names, env, full)
    ensures Reads(E.Or(es), JunctionKind(ks), false, d, row, names, env, full)
  {
    if |es| != 1 {
      var vs := R.EvalAll(RB.NormAll(es, d), row, names, env);
      forall i | 0 <= i < |vs|
        ensures Fits(vs[i], ks[i], full, false)
      {
        assert Reads(es[i], ks[i], false, d, row, names, env, full);
      }
      JunctionFits(vs, ks, false, full);
      JunctionFits(vs, ks, true, full);
    }
  }

  // ---- rows and parameters that hold something everywhere ----

  function Sample(t: SqlType): (v: R.Value)
    ensures HasType(v, t) && (Known(t) ==> Fits(v, Some(t), true, true))
  {
    if !Known(t) then R.Null else if t.BooleanT? then R.Bool(true) else if NumericType(t) then R.Num(1.0) else R.Data(Tag(t), "x")
  }

  function SampleTuple(o: Source, s: Schema): R.Tuple {
    map c: string | c in (set x: Column | x in s.cols :: x.name) && ColFind(s, o.schema, o.table, c).Some?
      :: Sample(ColFind(s, o.schema, o.table, c).value.ty)
  }

  function SampleRow(src: seq<Source>, s: Schema): (r: R.Row)
    ensures |r| == |src|
  {
    seq(|src|, i requires 0 <= i < |src| => Some(SampleTuple(src[i], s)))
  }

  function SampleEnv(ps: seq<Param>): R.Env {
    R.Env((n: nat) => if 1 <= n <= |ps| then Sample(ps[n - 1].ty) else R.Null, (a: R.Value, b: R.Value) => false, (e: E.Expr, row: R.Row) => R.Bad)
  }

  lemma {:induction false} SampleCell(src: seq<Source>, s: Schema, i: nat, col: string)
    requires i < |src| && ColFind(s, src[i].schema, src[i].table, col).Some?
    ensures R.Cell(SampleRow(src, s), i, col) == Sample(ColFind(s, src[i].schema, src[i].table, col).value.ty)
  {
    var c := ColFind(s, src[i].schema, src[i].table, col).value;
    assert c in s.cols && c.name == col;
  }

  /** Such rows and parameters exist for all sources and parameters. */
  lemma {:induction false} SamplesGiven(src: seq<Source>, s: Schema, ps: seq<Param>)
    ensures Given(SampleRow(src, s), SampleEnv(ps), src, s, ps, true)
  {
    forall i, col | 0 <= i < |src| && ColFind(s, src[i].schema, src[i].table, col).Some?
      ensures R.Cell(SampleRow(src, s), i, col) == Sample(ColFind(s, src[i].schema, src[i].table, col).value.ty)
    {
      SampleCell(src, s, i, col);
    }
  }

  // ---- kinds and the types that expr_type reports ----

  predicate Alike(t: SqlType, u: SqlType) { t == u || (NumericType(t) && NumericType(u)) }

  /** No and / or of a single operand. */
  predicate Paired(x: Tree)
    decreases Weight(x), 0
  {
    ShapeSmaller(x);
    match ShapeOf(x)
    case BinaryS(_, l, r) => Paired(l) && Paired(r)
    case JunctionS(_, args) => |args| >= 2 && PairedAll(args)
    case NotS(a) => Paired(a)
    case NullS(_, a) => Paired(a)
    case _ => true
  }

  predicate PairedAll(xs: seq<Tree>)
    decreases WeightAll(xs), 1
  {
    xs == [] || (Paired(xs[0]) && PairedAll(xs[1..]))
  }

  /** A scalar condition has the kind of its type; where no text is dropped, nothing else has one. */
  lemma {:induction false} ScalarIsKind(x: Tree, src: seq<Source>, s: Schema)
    ensures Scalar(x, src, s) ==> Kind(x, src, s).Some? && Alike(Kind(x, src, s).value, ExprType(x, src, s))
    ensures Paired(x) && Plain(x, src, s) && Kind(x, src, s).Some? ==> Scalar(x, src, s)
    decreases Weight(x), 2
  {
    match ShapeOf(x)
    case BinaryS(_, _, _) => BinaryIsKind(x, src, s);
    case JunctionS(_, _) => JunctionIsKind(x, src, s);
    case NotS(_) => PrefixIsKind(x, src, s);
    case NullS(_, _) => PrefixIsKind(x, src, s);
    case ColumnS(_, _) => TypeOfShape(x, src, s);
    case ParamS(_, _) => TypeOfShape(x, src, s);
    case _ =>
  }

  lemma {:induction false} BinaryIsKind(x: Tree, src: seq<Source>, s: Schema)
    requires ShapeOf(x).BinaryS?
    ensures Scalar(x, src, s) ==> Kind(x, src, s).Some? && Alike(Kind(x, src, s).value, ExprType(x, src, s))
    ensures Paired(x) && Plain(x, src, s) && Kind(x, src, s).Some? ==> Scalar(x, src, s)
    decreases Weight(x), 1
  {
    ShapeSmaller(x);
    BinaryType(x, src, s);
    var l, r := ShapeOf(x).l, ShapeOf(x).r;
    ScalarIsKind(l, src, s);
    ScalarIsKind(r, src, s);
    NumbersAre(ExprType(l, src, s));
    NumbersAre(ExprType(r, src, s));
  }

  lemma {:induction false} JunctionIsKind(x: Tree, src: seq<Source>, s: Schema)
    requires ShapeOf(x).JunctionS?
    ensures Scalar(x, src, s) ==> Kind(x, src, s).Some? && Alike(Kind(x, src, s).value, ExprType(x, src, s))
    ensures Paired(x) && Plain(x, src, s) && Kind(x, src, s).Some? ==> Scalar(x, src, s)
    decreases Weight(x), 1
  {
    ShapeSmaller(x);
    JunctionType(x, src, s);
    ScalarsAreKinds(ShapeOf(x).args, src, s);
    JunctionScalar(x, src, s);
  }

  lemma {:induction false} PrefixIsKind(x: Tree, src: seq<Source>, s: Schema)
    requires ShapeOf(x).NotS? || ShapeOf(x).NullS?
    ensures Scalar(x, src, s) ==> Kind(x, src, s).Some? && Alike(Kind(x, src, s).value, ExprType(x, src, s))
    ensures Paired(x) && Plain(x, src, s) && Kind(x, src, s).Some? ==> Scalar(x, src, s)
    decreases Weight(x), 1
  {
    ShapeSmaller(x);
    PrefixType(x, src, s);
    ScalarIsKind(ShapeOf(x).arg, src, s);
  }

  lemma {:induction false} ScalarsAreKinds(xs: seq<Tree>, src: seq<Source>, s: Schema)
    ensures var ks := KindAll(xs, src, s);
            && (ScalarAll(xs, src, s) ==> forall i :: 0 <= i < |xs| ==> ks[i].Some? && Alike(ks[i].value, ExprType(xs[i], src, s)))
            && (PairedAll(xs) && PlainAll(xs, src, s) && (forall k :: k in ks ==> k == Some(BooleanT)) ==>
                  ScalarAll(xs, src, s) && forall x :: x in xs ==> ExprType(x, src, s) == BooleanT)
    decreases WeightAll(xs), 3
  {
    if xs != [] {
      ScalarIsKind(xs[0], src, s);
      ScalarsAreKinds(xs[1..], src, s);
      assert KindAll(xs, src, s)[0] == Kind(xs[0], src, s) && KindAll(xs, src, s)[1..] == KindAll(xs[1..], src, s);
      assert forall k :: k in KindAll(xs[1..], src, s) ==> k in KindAll(xs, src, s);
      assert KindAll(xs, src, s)[0] in KindAll(xs, src, s);
    }
  }

  lemma {:induction false} JunctionScalar(x: Tree, src: seq<Source>, s: Schema)
    requires ShapeOf(x).JunctionS?
    requires var args := ShapeOf(x).args;
             ScalarAll(args, src, s) ==> forall i :: 0 <= i < |args| ==> KindAll(args, src, s)[i].Some? && Alike(KindAll(args, src, s)[i].value, ExprType(args[i], src, s))
    ensures Scalar(x, src, s) ==> JunctionKind(KindAll(ShapeOf(x).args, src, s)) == Some(BooleanT)
  {
    if Scalar(x, src, s) {
      var args, ks := ShapeOf(x).args, KindAll(ShapeOf(x).args, src, s);
      JunctionType(x, src, s);
      forall k | k in ks
        ensures k == Some(BooleanT)
      {
        var i :| 0 <= i < |ks| && ks[i] == k;
        assert args[i] in args;
      }
    }
  }
}
