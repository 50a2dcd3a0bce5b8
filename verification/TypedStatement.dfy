/** When the conditions of an accepted statement are always true, false or NULL. */
module TypedStatement {
  import opened Wrappers
  import opened Sexpr
  import opened Catalog
  import opened Emit
  import opened Compile
  import opened CompileProps
  import opened Typing
  import opened Kinds
  import opened TenantCompile
  import Sql
  import E = SqlExpr
  import St = Statement
  import RB = ReadBack
  import R = Relational
  import J = JoinTree
  import X = Samples

  ghost predicate TruthOf(e: E.Expr, row: R.Row, names: seq<string>, env: R.Env) {
    R.Truth(R.Eval(e, row, names, env))
  }

  lemma {:induction false} ConjunctionTruth(es: seq<E.Expr>, row: R.Row, names: seq<string>, env: R.Env)
    requires St.Conjunction(es).Some? && forall e :: e in es ==> TruthOf(e, row, names, env)
    ensures TruthOf(St.Conjunction(es).value, row, names, env)
  {
    var vs := R.EvalAll(es, row, names, env);
    forall v | v in vs
      ensures R.Truth(v)
    {
      var i :| 0 <= i < |vs| && vs[i] == v;
      assert TruthOf(es[i], row, names, env);
    }
    JunctionTyped(vs, false);
    assert |es| == 1 ==> TruthOf(es[0], row, names, env);
  }

  /** The source a predicate was injected for, whose tenant column has the runtime's type. */
  lemma {:induction false} TenantSource(src: seq<Source>, s: Schema, p: Policy, ps: seq<Param>, t: St.Tenant) returns (i: nat)
    requires TenantsPlan(src, s, p, ps).Ok? && t in TenantsPlan(src, s, p, ps).value.0
    ensures i < |src| && src[i].alias == t.alias
    ensures var x := ColFind(s, src[i].schema, src[i].table, t.col); x.Some? && Compatible(x.value.ty, RuntimeType(p))
  {
    var col := PolicyTenant(p, src[0].schema, src[0].table);
    var ts := TenantsPlan(src, s, p, ps).value.0;
    if col.Some? && t == ts[0] {
      i := 0;
    } else {
      var p1 := if col.Some? then Index(ps, TenantParam(p)).value.1 else ps;
      assert t in TenantsPlan(src[1..], s, p, p1).value.0;
      i := TenantSource(src[1..], s, p, p1, t);
      i := i + 1;
    }
  }

  lemma {:induction false} TenantTruth(src: seq<Source>, s: Schema, p: Policy, t: St.Tenant, i: nat, d: Sql.Dialect, row: R.Row, env: R.Env)
    requires d != Sql.MySql && i < |src| && src[i].alias == t.alias && DistinctNames(Aliases(src))
    requires var x := ColFind(s, src[i].schema, src[i].table, t.col); x.Some? && Compatible(x.value.ty, RuntimeType(p))
    requires TypedRow(row, src, s) && HasType(env.param(t.index), RuntimeType(p))
    ensures TruthOf(St.TenantExpr(t, d), row, Aliases(src), env)
  {
    NameAt(Aliases(src), i);
    var cell := R.Cell(row, i, t.col);
    var ty := ColFind(s, src[i].schema, src[i].table, t.col).value.ty;
    assert HasType(cell, ty);
    assert R.Eval(E.Col(t.alias, t.col), row, Aliases(src), env) == cell;
    CompareTyped(E.Eq, cell, env.param(t.index), ty, RuntimeType(p), env.less);
  }

  lemma {:induction false} NamesAreAliases(root: Tree, s: Schema, p: Policy, lim: Limits, d: Sql.Dialect, c: Compiled, r: Run, e: Sql.Dialect)
    requires Accepted(root, s, p, lim, d, c, r)
    ensures R.Names(St.Meant(c.stmt, e)) == Aliases(r.src)
  {
    SourcesKept(root, s, p, lim, d, c, r, e);
  }

  lemma {:induction false} TablesGrow(root: Tree, s: Schema, p: Policy, lim: Limits, d: Sql.Dialect, c: Compiled, r: Run)
    requires Accepted(root, s, p, lim, d, c, r)
    ensures r.p3 <= c.params && r.p2 <= c.params
  {
    ClausesInStep(root, s, p, lim, d, c, r);
    var a, b, x, y, z := r.p2, r.p3, r.p4, r.p5, c.params;
    assert a <= b <= x <= y <= z;
  }

  lemma {:induction false} UserNumbered(root: Tree, s: Schema, p: Policy, lim: Limits, d: Sql.Dialect, c: Compiled, r: Run)
    requires Accepted(root, s, p, lim, d, c, r) && c.stmt.cond.Some?
    ensures var w := FindClause(r.cs, "where");
            && w.Some? && w.value.Node? && |w.value.kids| >= 2
            && Number(w.value.kids[1], r.src, s, r.p2) == Some((c.stmt.cond.value, r.p3)) && r.p3 <= c.params
  {
    TablesGrow(root, s, p, lim, d, c, r);
  }

  lemma {:induction false} UserTruth(root: Tree, s: Schema, p: Policy, lim: Limits, d: Sql.Dialect, c: Compiled, r: Run,
                                     e: Sql.Dialect, row: R.Row, env: R.Env)
    requires Accepted(root, s, p, lim, d, c, r) && e != Sql.MySql && c.stmt.cond.Some?
    requires ReadsBoolean(FindClause(r.cs, "where").value, r.src, s)
    requires TypedRow(row, r.src, s) && TypedParams(env, c.params)
    ensures TruthOf(RB.Norm(c.stmt.cond.value, e), row, Aliases(r.src), env)
  {
    UserNumbered(root, s, p, lim, d, c, r);
    BooleanRead(FindClause(r.cs, "where").value.kids[1], r.src, s, r.p2, c.params, e, row, env);
  }

  lemma {:induction false} BooleanRead(x: Tree, src: seq<Source>, s: Schema, ps: seq<Param>, all: seq<Param>, e: Sql.Dialect,
                                       row: R.Row, env: R.Env)
    requires e != Sql.MySql && Number(x, src, s, ps).Some? && Number(x, src, s, ps).value.1 <= all
    requires Kind(x, src, s) == Some(BooleanT) && TypedRow(row, src, s) && TypedParams(env, all)
    ensures TruthOf(RB.Norm(Number(x, src, s, ps).value.0, e), row, Aliases(src), env)
  {
    KindSound(x, src, s, ps, all, e, row, env, false);
  }

  /** A clause whose condition, as it is read, has truth values. */
  predicate ReadsBoolean(w: Tree, src: seq<Source>, s: Schema) {
    w.Node? && |w.kids| >= 2 && Kind(w.kids[1], src, s) == Some(BooleanT)
  }

  lemma {:induction false} AllTenantsTruth(root: Tree, s: Schema, p: Policy, lim: Limits, d: Sql.Dialect, c: Compiled, r: Run,
                                           e: Sql.Dialect, row: R.Row, env: R.Env, t: St.Tenant)
    requires Accepted(root, s, p, lim, d, c, r) && e != Sql.MySql && t in c.stmt.tenants
    requires DistinctNames(Aliases(r.src)) && TypedRow(row, r.src, s) && TypedParams(env, c.params)
    ensures TruthOf(St.TenantExpr(t, e), row, Aliases(r.src), env)
  {
    var i := TenantSource(r.src, s, p, r.p3, t);
    TenantsBound(root, s, p, lim, d, c, r, t);
    assert HasType(env.param(t.index - 1 + 1), c.params[t.index - 1].ty);
    TenantTruth(r.src, s, p, t, i, e, row, env);
  }

  lemma {:induction false} ConjunctIs(q: St.Stmt, e: Sql.Dialect, x: E.Expr)
    requires x in St.Conjuncts(q, e)
    ensures (q.cond.Some? && x == RB.Norm(q.cond.value, e)) || exists t :: t in q.tenants && x == St.TenantExpr(t, e)
  {
    var ts := St.TenantExprs(q.tenants, e);
    if x in ts {
      var k :| 0 <= k < |ts| && ts[k] == x;
      assert q.tenants[k] in q.tenants;
    }
  }

  lemma {:induction false} ConjunctTruth(root: Tree, s: Schema, p: Policy, lim: Limits, d: Sql.Dialect, c: Compiled, r: Run,
                                         e: Sql.Dialect, row: R.Row, env: R.Env, x: E.Expr)
    requires Accepted(root, s, p, lim, d, c, r) && e != Sql.MySql && x in St.Conjuncts(c.stmt, e)
    requires DistinctNames(Aliases(r.src)) && TypedRow(row, r.src, s) && TypedParams(env, c.params)
    requires var w := FindClause(r.cs, "where"); w.Some? ==> ReadsBoolean(w.value, r.src, s)
    ensures TruthOf(x, row, Aliases(r.src), env)
  {
    ConjunctIs(c.stmt, e, x);
    if c.stmt.cond.Some? && x == RB.Norm(c.stmt.cond.value, e) {
      UserTruth(root, s, p, lim, d, c, r, e, row, env);
    } else {
      var t :| t in c.stmt.tenants && x == St.TenantExpr(t, e);
      AllTenantsTruth(root, s, p, lim, d, c, r, e, row, env, t);
    }
  }

  /**
    Where the user's condition has truth values as it is read, the whole condition the database
    reads, injected predicates included, is true, false or NULL on every row that holds values of
    the schema's types, padded or not.
   */
  lemma {:induction false} ConditionIsTruthValued(root: Tree, s: Schema, p: Policy, lim: Limits, d: Sql.Dialect,
                                                  e: Sql.Dialect, r: Run, row: R.Row, env: R.Env)
    requires CompileTree(root, s, p, lim, d).Ok? && e != Sql.MySql
    requires var c := CompileTree(root, s, p, lim, d).value;
             && Accepted(root, s, p, lim, d, c, r) && DistinctNames(Aliases(r.src))
             && TypedRow(row, r.src, s) && TypedParams(env, c.params)
    requires var w := FindClause(r.cs, "where"); w.Some? ==> ReadsBoolean(w.value, r.src, s)
    ensures var m := St.Meant(CompileTree(root, s, p, lim, d).value.stmt, e);
            m.cond.Some? ==> TruthOf(m.cond.value, row, R.Names(m), env)
  {
    var c := CompileTree(root, s, p, lim, d).value;
    NamesAreAliases(root, s, p, lim, d, c, r, e);
    var es := St.Conjuncts(c.stmt, e);
    forall x | x in es
      ensures TruthOf(x, row, Aliases(r.src), env)
    {
      ConjunctTruth(root, s, p, lim, d, c, r, e, row, env, x);
    }
    if es != [] {
      ConjunctionTruth(es, row, Aliases(r.src), env);
    }
  }

  // ---- and nowhere else ----

  lemma {:induction false} ConjunctionFails(es: seq<E.Expr>, x: E.Expr, row: R.Row, names: seq<string>, env: R.Env)
    requires x in es && !TruthOf(x, row, names, env)
    ensures St.Conjunction(es).Some? && !TruthOf(St.Conjunction(es).value, row, names, env)
  {
    var i :| 0 <= i < |es| && es[i] == x;
    if |es| > 1 {
      var vs := R.EvalAll(es, row, names, env);
      assert vs[i] in vs && !R.Truth(vs[i]);
    }
  }

  /** The whole condition is true, false or NULL on all rows and parameters of the declared types. */
  ghost predicate AlwaysTruth(q: St.Query, src: seq<Source>, s: Schema, ps: seq<Param>) {
    forall row: R.Row, env: R.Env :: TypedRow(row, src, s) && TypedParams(env, ps) ==> ConditionTruth(q, row, env)
  }

  ghost predicate ConditionTruth(q: St.Query, row: R.Row, env: R.Env) {
    q.cond.Some? ==> TruthOf(q.cond.value, row, R.Names(q), env)
  }

  lemma {:induction false} UserFails(root: Tree, s: Schema, p: Policy, lim: Limits, d: Sql.Dialect, c: Compiled, r: Run, e: Sql.Dialect)
    requires Accepted(root, s, p, lim, d, c, r) && e != Sql.MySql && c.stmt.cond.Some?
    requires var x := FindClause(r.cs, "where").value.kids[1]; Plain(x, r.src, s) && Kind(x, r.src, s) != Some(BooleanT)
    ensures !TruthOf(RB.Norm(c.stmt.cond.value, e), SampleRow(r.src, s), Aliases(r.src), SampleEnv(c.params))
  {
    UserNumbered(root, s, p, lim, d, c, r);
    OtherRead(FindClause(r.cs, "where").value.kids[1], r.src, s, r.p2, c.params, e);
  }

  lemma {:induction false} OtherRead(x: Tree, src: seq<Source>, s: Schema, ps: seq<Param>, all: seq<Param>, e: Sql.Dialect)
    requires e != Sql.MySql && Number(x, src, s, ps).Some? && Number(x, src, s, ps).value.1 <= all
    requires Plain(x, src, s) && Kind(x, src, s) != Some(BooleanT)
    ensures !TruthOf(RB.Norm(Number(x, src, s, ps).value.0, e), SampleRow(src, s), Aliases(src), SampleEnv(all))
  {
    SamplesGiven(src, s, all);
    KindSound(x, src, s, ps, all, e, SampleRow(src, s), SampleEnv(all), true);
  }

  /**
    The exact condition: the whole condition of an accepted statement is true, false or NULL on all
    rows and parameters of the declared types exactly when the user's part has truth values as it
    is read. Columns without a declared type and division by a difference are left out of the
    second half, since NULL may hide there what is wrong (DifferenceHides).
   */
  lemma {:induction false} ConditionExactly(root: Tree, s: Schema, p: Policy, lim: Limits, d: Sql.Dialect, e: Sql.Dialect, r: Run)
    requires CompileTree(root, s, p, lim, d).Ok? && e != Sql.MySql
    requires Accepted(root, s, p, lim, d, CompileTree(root, s, p, lim, d).value, r) && DistinctNames(Aliases(r.src))
    requires var w := FindClause(r.cs, "where"); w.Some? && w.value.Node? && |w.value.kids| >= 2 ==> Plain(w.value.kids[1], r.src, s)
    ensures var c := CompileTree(root, s, p, lim, d).value;
            var w := FindClause(r.cs, "where");
            AlwaysTruth(St.Meant(c.stmt, e), r.src, s, c.params) <==> (w.Some? ==> ReadsBoolean(w.value, r.src, s))
  {
    var c := CompileTree(root, s, p, lim, d).value;
    var w := FindClause(r.cs, "where");
    var m := St.Meant(c.stmt, e);
    if w.Some? ==> ReadsBoolean(w.value, r.src, s) {
      forall row: R.Row, env: R.Env | TypedRow(row, r.src, s) && TypedParams(env, c.params)
        ensures ConditionTruth(m, row, env)
      {
        ConditionIsTruthValued(root, s, p, lim, d, e, r, row, env);
      }
    } else {
      CondGiven(root, s, p, lim, d, c, r);
      UserFails(root, s, p, lim, d, c, r, e);
      NamesAreAliases(root, s, p, lim, d, c, r, e);
      SamplesGiven(r.src, s, c.params);
      ConjunctionFails(St.Conjuncts(c.stmt, e), RB.Norm(c.stmt.cond.value, e), SampleRow(r.src, s), Aliases(r.src), SampleEnv(c.params));
      assert !ConditionTruth(m, SampleRow(r.src, s), SampleEnv(c.params));
    }
  }

  lemma {:induction false} CondGiven(root: Tree, s: Schema, p: Policy, lim: Limits, d: Sql.Dialect, c: Compiled, r: Run)
    requires Accepted(root, s, p, lim, d, c, r)
    ensures var w := FindClause(r.cs, "where");
            c.stmt.cond.Some? <==> w.Some? && (w.Some? ==> w.value.Node? && |w.value.kids| >= 2)
  {
  }

  /** A clause whose condition expr_type calls boolean, with every part of a known type. */
  predicate BooleanScalar(w: Tree, src: seq<Source>, s: Schema) {
    w.Node? && |w.kids| >= 2 && Scalar(w.kids[1], src, s) && ExprType(w.kids[1], src, s) == BooleanT
  }

  /**
    In terms of expr_type: a condition that it calls boolean, each part of a known type, has truth
    values as it is read, and where no and / or has a single operand there is no other.
   */
  lemma {:induction false} BooleanScalarReads(w: Tree, src: seq<Source>, s: Schema)
    requires w.Node? && |w.kids| >= 2
    ensures BooleanScalar(w, src, s) ==> ReadsBoolean(w, src, s)
    ensures Plain(w.kids[1], src, s) && Paired(w.kids[1]) ==> (ReadsBoolean(w, src, s) <==> BooleanScalar(w, src, s))
  {
    ScalarIsKind(w.kids[1], src, s);
  }

  // ---- join conditions ----

  lemma {:induction false} KeyNumber(s: Schema, on: Tree, srcs: seq<Source>, target: Source, src: seq<Source>, ps: seq<Param>)
    requires JoinAllowed(s, on, srcs, target) && Number(on, src, s, ps).Some?
    ensures Number(on, src, s, []) == Some((Number(on, src, s, ps).value.0, []))
  {
    var l, r := on.kids[1], on.kids[2];
    assert ShapeOf(on) == BinaryS(E.Eq, l, r);
    assert ShapeOf(l).ColumnS? && ShapeOf(r).ColumnS? by {
      assert Form(l, "column", 3) && Form(r, "column", 3);
    }
  }

  /**
    So is every join condition, on the rows joined so far with one more entry, when its columns
    have known types.
   */
  lemma {:induction false} JoinIsTruthValued(root: Tree, s: Schema, p: Policy, lim: Limits, d: Sql.Dialect,
                                             e: Sql.Dialect, r: Run, k: nat, row: R.Row, env: R.Env)
    requires CompileTree(root, s, p, lim, d).Ok? && e != Sql.MySql
    requires Accepted(root, s, p, lim, d, CompileTree(root, s, p, lim, d).value, r)
    requires J.DistinctAliases(r.src) && 0 < k < |r.src| == |J.JoinClauses(r.cs)| + 1
    requires TypedRow(row, r.src, s)
    requires var x := J.JoinClauses(r.cs)[k - 1]; x.Node? && |x.kids| == 5 && Scalar(x.kids[4], r.src, s)
    ensures var m := St.Meant(CompileTree(root, s, p, lim, d).value.stmt, e);
            |m.joins| == |r.src| - 1 && TruthOf(m.joins[k - 1].on, row, R.Names(m), env)
  {
    var c := CompileTree(root, s, p, lim, d).value;
    NamesAreAliases(root, s, p, lim, d, c, r, e);
    J.RunSources(root, s, p, lim, d, c, r);
    assert J.Adds(J.JoinClauses(r.cs), 1, r.src, s, p, k - 1);
    OnTruth(r.cs, r.src, s, p, r.p1, c.stmt.joins, r.p2, k, e, row, env);
  }

  /** A scalar equality is boolean, and is read as one. */
  lemma {:induction false} OnIsBoolean(on: Tree, src: seq<Source>, s: Schema)
    requires Form(on, "eq", 3) && Scalar(on, src, s)
    ensures Kind(on, src, s) == Some(BooleanT)
  {
    ScalarIsKind(on, src, s);
    assert ShapeOf(on).BinaryS?;
    BinaryType(on, src, s);
  }

  lemma {:induction false} OnTruth(cs: seq<Tree>, src: seq<Source>, s: Schema, p: Policy, ps: seq<Param>, js: seq<St.Join>, qs: seq<Param>,
                                   k: nat, e: Sql.Dialect, row: R.Row, env: R.Env)
    requires src != [] && J.Grown(J.JoinClauses(cs), [src[0]], src, s, p) && J.DistinctAliases(src) && 0 < k < |src|
    requires JoinsPlan(cs, src, 1, s, ps) == Some((js, qs)) && e != Sql.MySql && TypedRow(row, src, s)
    requires J.Adds(J.JoinClauses(cs), 1, src, s, p, k - 1) && Scalar(J.JoinClauses(cs)[k - 1].kids[4], src, s)
    ensures |js| == |src| - 1 && TruthOf(RB.Norm(js[k - 1].on, e), row, Aliases(src), env)
  {
    var x := J.JoinClauses(cs)[k - 1];
    J.PlanAt(cs, src, 1, s, ps, k);
    J.OwnClause(cs, src[0], src, s, p, k - 1);
    var os: seq<Param> :| Number(x.kids[4], src, s, os).Some? && Number(x.kids[4], src, s, os).value.0 == js[k - 1].on;
    KeyNumber(s, x.kids[4], src[..k], src[k], src, os);
    OnIsBoolean(x.kids[4], src, s);
    BooleanRead(x.kids[4], src, s, [], [], e, row, env);
  }

  // ---- where the check does not look ----

  /** A condition clause with nothing after its condition has been checked to be boolean. */
  lemma {:induction false} WhereIsBoolean(root: Tree, s: Schema, p: Policy, lim: Limits, cs: seq<Tree>, src: seq<Source>)
    requires Front(root, s, p, lim) == Ok((cs, src))
    ensures var w := FindClause(cs, "where"); w.Some? && |w.value.kids| == 2 ==> ExprType(w.value.kids[1], src, s) == BooleanT
  {
    FrontFacts(root, s, p, lim);
    var w := FindClause(cs, "where");
    if w.Some? {
      assert w.value in root.kids[2].kids;
      assert WellTyped(w.value, src, s);
    }
  }

  /** The product of two texts, and its comparison with itself. */
  function Nonsense(): Tree { X.Of("mul", X.ParamNode("a", "text"), X.ParamNode("a", "text")) }
  function Comparison(): Tree { X.Of("eq", Nonsense(), Nonsense()) }

  const A: Param := Param("a", TextT, User)

  lemma {:induction false} NonsenseIsNumbered(s: Schema)
    ensures var e := E.Bin(E.Mul, E.Par(1), E.Par(1));
            && ExprType(Nonsense(), X.SOURCES, s) == UnknownT
            && Number(Nonsense(), X.SOURCES, s, []) == Some((e, [A])) && Number(Nonsense(), X.SOURCES, s, [A]) == Some((e, [A]))
  {
    var a := X.ParamNode("a", "text");
    TextIsNumbered(s);
    assert ShapeOf(Nonsense()) == BinaryS(E.Mul, a, a);
  }

  lemma {:induction false} TextIsNumbered(s: Schema)
    ensures var a := X.ParamNode("a", "text");
            && ExprType(a, X.SOURCES, s) == TextT
            && Number(a, X.SOURCES, s, []) == Some((E.Par(1), [A])) && Number(a, X.SOURCES, s, [A]) == Some((E.Par(1), [A]))
  {
    X.ShortNames();
    X.ParamNumbered("a", "text", s, []);
    X.ParamNumbered("a", "text", s, [A]);
    X.FirstEntry(A);
    TextHasType(s);
  }

  lemma {:induction false} TextHasType(s: Schema)
    ensures ExprType(X.ParamNode("a", "text"), X.SOURCES, s) == TextT
  {
  }

  lemma {:induction false} ComparisonIsNumbered(s: Schema)
    ensures var e := E.Bin(E.Mul, E.Par(1), E.Par(1));
            && ExprType(Comparison(), X.SOURCES, s) == BooleanT
            && Number(Comparison(), X.SOURCES, s, []) == Some((E.Bin(E.Eq, e, e), [A]))
  {
    NonsenseIsNumbered(s);
    assert ShapeOf(Comparison()) == BinaryS(E.Eq, Nonsense(), Nonsense());
  }

  lemma {:induction false} NonsenseIsBad(row: R.Row, names: seq<string>, env: R.Env)
    requires env.param(1) == R.Data(1, "x")
    ensures var e := E.Bin(E.Mul, E.Par(1), E.Par(1)); !TruthOf(E.Bin(E.Eq, e, e), row, names, env)
    ensures !TruthOf(E.Par(1), row, names, env) && TypedParams(env, [A])
  {
    var e := E.Bin(E.Mul, E.Par(1), E.Par(1));
    var v := R.Eval(E.Par(1), row, names, env);
    assert v == R.Data(1, "x");
    assert R.Eval(e, row, names, env) == R.ArithV(E.Mul, v, v) == R.Bad;
    assert R.Eval(E.Bin(E.Eq, e, e), row, names, env) == R.CompareV(E.Eq, R.Bad, R.Bad, env.less);
  }

  /** Nodes whose heads no check looks for pass when their members do. */
  lemma {:induction false} PairChecked(h: string, a: Tree, b: Tree, s: Schema, p: Policy)
    requires h !in ["column", "where", "join", "field", "window"]
    requires X.ValidAll([a, b], s, p) && X.TypedAll([a, b], s)
    ensures ValidColumns(X.Of(h, a, b), X.SOURCES, s, p) && WellTyped(X.Of(h, a, b), X.SOURCES, s)
  {
    X.ListChecked(h, [a, b], s, p);
    assert X.Of(h, a, b) == X.List(h, [a, b]);
  }

  lemma {:induction false} ComparisonIsChecked(s: Schema, p: Policy)
    ensures ValidColumns(Comparison(), X.SOURCES, s, p) && WellTyped(Comparison(), X.SOURCES, s)
  {
    X.LeavesChecked("a", "text", s, p);
    PairChecked("mul", X.ParamNode("a", "text"), X.ParamNode("a", "text"), s, p);
    PairChecked("eq", Nonsense(), Nonsense(), s, p);
  }

  lemma {:induction false} ComparisonClause(s: Schema, p: Policy)
    ensures var w := Node([Atom("where"), Comparison()]);
            && ValidColumns(w, X.SOURCES, s, p) && WellTyped(w, X.SOURCES, s)
            && CondPlan(Some(w), X.SOURCES, s, []) ==
               Some((Some(E.Bin(E.Eq, E.Bin(E.Mul, E.Par(1), E.Par(1)), E.Bin(E.Mul, E.Par(1), E.Par(1)))), [A]))
  {
    var w := Node([Atom("where"), Comparison()]);
    ComparisonIsNumbered(s);
    ComparisonIsChecked(s, p);
    assert IsList(w, "where") && !Form(w, "column", 3);
    assert forall k :: k in w.kids ==> k == Atom("where") || k == Comparison();
  }

  /**
    Two operands of unknown type count as comparable: this query is accepted, and its condition is
    neither true, false nor NULL although the parameter holds a text, as it should.
   */
  lemma {:induction false} UnknownComparisonSlips(s: Schema, p: Policy, lim: Limits, d: Sql.Dialect, row: R.Row, names: seq<string>, env: R.Env)
    requires X.Plain(s, p, lim) && env.param(1) == R.Data(1, "x")
    ensures var w := Node([Atom("where"), Comparison()]);
            var c := CompileTree(X.Query([X.FieldNode(X.RefNode("t"), "x")], [w]), s, p, lim, d);
            && c.Ok? && c.value.stmt.cond.Some? && TypedParams(env, c.value.params)
            && !TruthOf(c.value.stmt.cond.value, row, names, env)
  {
    var w, e := Node([Atom("where"), Comparison()]), E.Bin(E.Mul, E.Par(1), E.Par(1));
    ComparisonClause(s, p);
    X.WhereQuery(w, E.Bin(E.Eq, e, e), [A], s, p, lim, d);
    NonsenseIsBad(row, names, env);
  }

  lemma {:induction false} LongClause(s: Schema, p: Policy)
    ensures var w := X.Of("where", X.ParamNode("a", "text"), Atom("x"));
            && ValidColumns(w, X.SOURCES, s, p) && WellTyped(w, X.SOURCES, s)
            && CondPlan(Some(w), X.SOURCES, s, []) == Some((Some(E.Par(1)), [A]))
  {
    var w := X.Of("where", X.ParamNode("a", "text"), Atom("x"));
    TextIsNumbered(s);
    X.LeavesChecked("a", "text", s, p);
    assert IsList(w, "where") && !Form(w, "column", 3) && !Form(w, "where", 2);
    assert forall k :: k in w.kids ==> k == Atom("where") || k == X.ParamNode("a", "text") || k == Atom("x");
  }

  /** A where clause with anything after its condition is not checked: this query filters by a text. */
  lemma {:induction false} LongWhereSlips(s: Schema, p: Policy, lim: Limits, d: Sql.Dialect, row: R.Row, names: seq<string>, env: R.Env)
    requires X.Plain(s, p, lim) && env.param(1) == R.Data(1, "x")
    ensures var w := X.Of("where", X.ParamNode("a", "text"), Atom("x"));
            var c := CompileTree(X.Query([X.FieldNode(X.RefNode("t"), "x")], [w]), s, p, lim, d);
            && c.Ok? && c.value.stmt.cond.Some? && TypedParams(env, c.value.params)
            && !TruthOf(c.value.stmt.cond.value, row, names, env)
  {
    LongClause(s, p);
    X.WhereQuery(X.Of("where", X.ParamNode("a", "text"), Atom("x")), E.Par(1), [A], s, p, lim, d);
    NonsenseIsBad(row, names, env);
  }

  // ---- why division by a difference is left out ----

  /** A number divided by its difference to itself, compared with a text. */
  function Quotient(): Tree { X.Of("div", X.ParamNode("a", "int64"), Zero()) }
  function Zero(): Tree { X.Of("sub", X.ParamNode("a", "int64"), X.ParamNode("a", "int64")) }
  function Hidden(): Tree { X.Of("eq", Quotient(), X.ParamNode("b", "text")) }

  const QUOTIENT: E.Expr := E.Bin(E.Div, E.Par(1), E.Bin(E.Sub, E.Par(1), E.Par(1)))
  const HIDDEN: seq<Param> := [X.Entry("a"), Param("b", TextT, User)]

  lemma {:induction false} QuotientIsNumbered(s: Schema)
    ensures Number(Quotient(), X.SOURCES, s, []) == Some((QUOTIENT, [X.Entry("a")]))
    ensures Kind(Quotient(), X.SOURCES, s) == Some(DecimalT)
  {
    var a := X.ParamNode("a", "int64");
    X.ShortNames();
    X.ParamNumbered("a", "int64", s, []);
    X.ParamNumbered("a", "int64", s, [X.Entry("a")]);
    X.FirstEntry(X.Entry("a"));
    assert ShapeOf(Zero()) == BinaryS(E.Sub, a, a) && ShapeOf(Quotient()) == BinaryS(E.Div, a, Zero());
    assert ShapeOf(a) == ParamS("a", Int64T);
    assert Kind(Zero(), X.SOURCES, s) == Some(DecimalT);
  }

  lemma {:induction false} HiddenIsNumbered(s: Schema)
    ensures Number(Hidden(), X.SOURCES, s, []) == Some((E.Bin(E.Eq, QUOTIENT, E.Par(2)), HIDDEN))
    ensures Kind(Hidden(), X.SOURCES, s) == None
  {
    var b := X.ParamNode("b", "text");
    QuotientIsNumbered(s);
    X.ShortNames();
    X.ParamNumbered("b", "text", s, [X.Entry("a")]);
    assert [X.Entry("a")] + [Param("b", TextT, User)] == HIDDEN;
    assert X.Entry("a").name == "a" && Position([X.Entry("a")], "b") == 1;
    assert ShapeOf(Hidden()) == BinaryS(E.Eq, Quotient(), b) && ShapeOf(b) == ParamS("b", TextT);
  }

  /** A condition without truth values by its kind that never shows it: the quotient is always NULL. */
  lemma {:induction false} DifferenceHides(s: Schema, row: R.Row, names: seq<string>, env: R.Env)
    requires TypedParams(env, HIDDEN)
    ensures Kind(Hidden(), X.SOURCES, s) == None
    ensures Number(Hidden(), X.SOURCES, s, []).Some? && TruthOf(Number(Hidden(), X.SOURCES, s, []).value.0, row, names, env)
  {
    HiddenIsNumbered(s);
    assert HasType(env.param(0 + 1), HIDDEN[0].ty) && HasType(env.param(1 + 1), HIDDEN[1].ty);
    HiddenIsNull(row, names, env);
  }

  lemma {:induction false} HiddenIsNull(row: R.Row, names: seq<string>, env: R.Env)
    requires HasType(env.param(1), Int64T) && HasType(env.param(2), TextT)
    ensures R.Eval(E.Bin(E.Eq, QUOTIENT, E.Par(2)), row, names, env) == R.Null
  {
    var a, b := env.param(1), env.param(2);
    assert R.Eval(E.Bin(E.Sub, E.Par(1), E.Par(1)), row, names, env) == R.ArithV(E.Sub, a, a);
    assert R.Eval(QUOTIENT, row, names, env) == R.ArithV(E.Div, a, R.ArithV(E.Sub, a, a)) == R.Null;
    assert R.Eval(E.Bin(E.Eq, QUOTIENT, E.Par(2)), row, names, env) == R.CompareV(E.Eq, R.Null, b, env.less);
  }
}
