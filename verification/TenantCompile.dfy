/** Tenant isolation of the statements the compiler actually produces, up to their text. */
module TenantCompile {
  import opened Wrappers
  import opened Sexpr
  import opened Catalog
  import opened Emit
  import opened Compile
  import opened CompileProps
  import Sql
  import E = SqlExpr
  import St = Statement
  import Placeholders
  import R = Relational
  import TenantIsolation

  /** The tenant column the policy names for each table. */
  function RulesOf(p: Policy): R.Rules { (sc: string, tn: string) => PolicyTenant(p, sc, tn) }

  ghost predicate DistinctNames(names: seq<string>) {
    forall i, j :: 0 <= i < j < |names| ==> names[i] != names[j]
  }

  /** The parameters carry the tenant wherever the policy's own entry stands. */
  ghost predicate BindsTenant(params: seq<Param>, env: R.Env, tenant: R.Value) {
    forall k :: 0 <= k < |params| && params[k].origin.FromPolicy? ==> env.param(k + 1) == tenant
  }

  // ---- every ruled source has its predicate ----

  lemma {:induction false} TenantsCover(src: seq<Source>, s: Schema, p: Policy, ps: seq<Param>, i: nat)
    requires TenantsPlan(src, s, p, ps).Ok? && i < |src| && PolicyTenant(p, src[i].schema, src[i].table).Some?
    ensures exists t :: t in TenantsPlan(src, s, p, ps).value.0 && t.alias == src[i].alias
                        && Some(t.col) == PolicyTenant(p, src[i].schema, src[i].table)
  {
    var col := PolicyTenant(p, src[0].schema, src[0].table);
    var p1 := if col.Some? then Index(ps, TenantParam(p)).value.1 else ps;
    var ts := TenantsPlan(src, s, p, ps).value.0;
    if i == 0 {
      assert ts[0] in ts;
    } else {
      TenantsCover(src[1..], s, p, p1, i - 1);
      var rest := TenantsPlan(src[1..], s, p, p1).value.0;
      var t :| t in rest && t.alias == src[i].alias && Some(t.col) == PolicyTenant(p, src[i].schema, src[i].table);
      assert t in ts;
    }
  }

  lemma {:induction false} IndexMarked(ts: seq<St.Tenant>, t: St.Tenant)
    requires t in ts
    ensures t.index in TenantMarks(ts)
  {
    if t != ts[0] {
      assert t in ts[1..];
      IndexMarked(ts[1..], t);
    }
  }

  lemma {:induction false} DenotesPolicy(ks: seq<nat>, sites: seq<Param>, ps: seq<Param>, qs: seq<Param>, n: nat, x: Param)
    requires Placeholders.Denote(ks, sites, ps) && ps <= qs && n in ks && forall q :: q in sites ==> q == x
    ensures 1 <= n <= |qs| && qs[n - 1] == x
  {
    var i :| 0 <= i < |ks| && ks[i] == n;
    assert sites[i] in sites;
  }

  lemma {:induction false} BoundInStep(ts: seq<St.Tenant>, src: seq<Source>, p: Policy, ps: seq<Param>, qs: seq<Param>, t: St.Tenant)
    requires Placeholders.Denote(TenantMarks(ts), TenantSites(src, p), ps) && ps <= qs && t in ts
    ensures 1 <= t.index <= |qs| && qs[t.index - 1] == TenantParam(p)
  {
    IndexMarked(ts, t);
    TenantSitesArePolicy(src, p);
    DenotesPolicy(TenantMarks(ts), TenantSites(src, p), ps, qs, t.index, TenantParam(p));
  }

  lemma {:induction false} TenantStep(root: Tree, s: Schema, p: Policy, lim: Limits, d: Sql.Dialect, c: Compiled, r: Run)
    requires Accepted(root, s, p, lim, d, c, r)
    ensures r.p4 <= c.params && Placeholders.Denote(TenantMarks(c.stmt.tenants), TenantSites(r.src, p), r.p4)
  {
    ClausesInStep(root, s, p, lim, d, c, r);
    var a, b, x := r.p4, r.p5, c.params;
    assert a <= b <= x;
  }

  /** Every injected predicate compares with the policy's parameter. */
  lemma {:induction false} TenantsBound(root: Tree, s: Schema, p: Policy, lim: Limits, d: Sql.Dialect, c: Compiled, r: Run, t: St.Tenant)
    requires Accepted(root, s, p, lim, d, c, r) && t in c.stmt.tenants
    ensures 1 <= t.index <= |c.params| && c.params[t.index - 1] == TenantParam(p)
  {
    TenantStep(root, s, p, lim, d, c, r);
    BoundInStep(c.stmt.tenants, r.src, p, r.p4, c.params, t);
  }

  // ---- the condition as it is read ----

  lemma {:induction false} ConjunctHolds(es: seq<E.Expr>, e: E.Expr, row: R.Row, names: seq<string>, env: R.Env)
    requires e in es && St.Conjunction(es).Some? && R.Holds(St.Conjunction(es).value, row, names, env)
    ensures R.Holds(e, row, names, env)
  {
    if |es| > 1 {
      var i :| 0 <= i < |es| && es[i] == e;
      var vs := R.EvalAll(es, row, names, env);
      assert vs[i] == R.Eval(e, row, names, env) && vs[i] in vs;
    }
  }

  lemma {:induction false} NameAt(names: seq<string>, i: nat)
    requires i < |names| && DistinctNames(names)
    ensures R.IndexOf(names, names[i]) == i
  {
  }

  lemma {:induction false} TenantConjunct(q: St.Stmt, d: Sql.Dialect, t: St.Tenant)
    requires t in q.tenants
    ensures St.TenantExpr(t, d) in St.Conjuncts(q, d) && St.Conjunction(St.Conjuncts(q, d)).Some?
  {
    var i :| 0 <= i < |q.tenants| && q.tenants[i] == t;
    var ts := St.TenantExprs(q.tenants, d);
    assert ts[i] == St.TenantExpr(t, d);
    assert ts[i] in ts;
  }

  /** A row on which the condition is true has the tenant's value in the column of a predicate. */
  lemma {:induction false} PredicateHolds(q: St.Stmt, d: Sql.Dialect, t: St.Tenant, i: nat, row: R.Row, env: R.Env, tenant: R.Value)
    requires d != Sql.MySql && t in q.tenants && env.param(t.index) == tenant
    requires var m := St.Meant(q, d);
             && i < |row| == |m.joins| + 1 && DistinctNames(R.Names(m)) && R.Names(m)[i] == t.alias
             && (m.cond.Some? ==> R.Holds(m.cond.value, row, R.Names(m), env))
    ensures row[i].Some? && R.OwnTuple(row[i].value, t.col, tenant)
  {
    var names := R.Names(St.Meant(q, d));
    TenantConjunct(q, d, t);
    ConjunctHolds(St.Conjuncts(q, d), St.TenantExpr(t, d), row, names, env);
    NameAt(names, i);
    assert R.Eval(E.Col(t.alias, t.col), row, names, env) == R.Cell(row, i, t.col);
    assert R.Eval(E.Par(t.index), row, names, env) == tenant;
    assert R.CompareV(E.Eq, R.Cell(row, i, t.col), tenant, env.less) == R.Bool(true);
  }

  lemma {:induction false} MeantSource(q: St.Stmt, e: Sql.Dialect, i: nat)
    requires i <= |q.joins|
    ensures var o := if i == 0 then q.from else q.joins[i - 1].src;
            R.SourceOf(St.Meant(q, e), i) == o && R.Names(St.Meant(q, e))[i] == o.alias
  {
  }

  lemma {:induction false} SourcesKept(root: Tree, s: Schema, p: Policy, lim: Limits, d: Sql.Dialect, c: Compiled, r: Run, e: Sql.Dialect)
    requires Accepted(root, s, p, lim, d, c, r)
    ensures var m := St.Meant(c.stmt, e);
            && |r.src| == |m.joins| + 1
            && forall i :: 0 <= i < |r.src| ==> R.SourceOf(m, i) == r.src[i] && R.Names(m)[i] == r.src[i].alias
  {
    StmtSources(root, s, p, lim, d, c, r);
    MeantSources(c.stmt, e, r.src);
  }

  lemma {:induction false} StmtSources(root: Tree, s: Schema, p: Policy, lim: Limits, d: Sql.Dialect, c: Compiled, r: Run)
    requires Accepted(root, s, p, lim, d, c, r)
    ensures |r.src| == |c.stmt.joins| + 1 && c.stmt.from == r.src[0]
    ensures forall k :: 0 <= k < |c.stmt.joins| ==> c.stmt.joins[k].src == r.src[1 + k]
  {
    PlannedJoins(r.cs, r.src, s, r.p1, c.stmt.joins, r.p2);
  }

  lemma {:induction false} MeantSources(q: St.Stmt, e: Sql.Dialect, src: seq<Source>)
    requires |src| == |q.joins| + 1 && q.from == src[0] && forall k :: 0 <= k < |q.joins| ==> q.joins[k].src == src[1 + k]
    ensures var m := St.Meant(q, e);
            && |src| == |m.joins| + 1
            && forall i :: 0 <= i < |src| ==> R.SourceOf(m, i) == src[i] && R.Names(m)[i] == src[i].alias
  {
    forall i | 0 <= i < |src|
      ensures R.SourceOf(St.Meant(q, e), i) == src[i] && R.Names(St.Meant(q, e))[i] == src[i].alias
    {
      MeantSource(q, e, i);
      assert i > 0 ==> q.joins[i - 1].src == src[1 + (i - 1)];
    }
  }

  lemma {:induction false} GuardsRow(root: Tree, s: Schema, p: Policy, lim: Limits, d: Sql.Dialect, c: Compiled, r: Run,
                                     e: Sql.Dialect, env: R.Env, tenant: R.Value, row: R.Row)
    requires Accepted(root, s, p, lim, d, c, r) && e != Sql.MySql && BindsTenant(c.params, env, tenant)
    requires var m := St.Meant(c.stmt, e);
             && |row| == |m.joins| + 1 && DistinctNames(R.Names(m))
             && (m.cond.Some? ==> R.Holds(m.cond.value, row, R.Names(m), env))
    ensures R.OwnRow(St.Meant(c.stmt, e), row, RulesOf(p), tenant)
  {
    var m := St.Meant(c.stmt, e);
    SourcesKept(root, s, p, lim, d, c, r, e);
    forall i | 0 <= i < |row|
      ensures R.OwnEntry(row[i], R.RuleOf(m, i, RulesOf(p)), tenant)
    {
      var rule := PolicyTenant(p, r.src[i].schema, r.src[i].table);
      assert R.RuleOf(m, i, RulesOf(p)) == rule;
      if rule.Some? {
        TenantsCover(r.src, s, p, r.p3, i);
        var t :| t in c.stmt.tenants && t.alias == r.src[i].alias && Some(t.col) == rule;
        TenantsBound(root, s, p, lim, d, c, r, t);
        PredicateHolds(c.stmt, e, t, i, row, env, tenant);
      }
    }
  }

  /**
    For every accepted query, database and tenant: the rows that survive the condition are those
    of the database from which all rows of other tenants have been deleted in every table with a
    rule, whatever the kinds of the joins. Read with the numbering of e, which is that of every
    dialect with numbers.
   */
  lemma {:induction false} TenantRestriction(root: Tree, s: Schema, p: Policy, lim: Limits, d: Sql.Dialect,
                                             e: Sql.Dialect, env: R.Env, db: R.Database, tenant: R.Value)
    requires CompileTree(root, s, p, lim, d).Ok? && e != Sql.MySql
    requires var c := CompileTree(root, s, p, lim, d).value;
             DistinctNames(R.Names(St.Meant(c.stmt, e))) && BindsTenant(c.params, env, tenant)
    ensures var m := St.Meant(CompileTree(root, s, p, lim, d).value.stmt, e);
            R.Surviving(m, db, env) == R.Surviving(m, R.Restrict(db, RulesOf(p), tenant), env)
  {
    var c := CompileTree(root, s, p, lim, d).value;
    var r := TakeApart(root, s, p, lim, d);
    var w := TenantIsolation.World(St.Meant(c.stmt, e), RulesOf(p), tenant, env);
    forall row: R.Row | |row| == |w.q.joins| + 1 && (w.q.cond.Some? ==> R.Holds(w.q.cond.value, row, R.Names(w.q), w.env))
      ensures R.OwnRow(w.q, row, w.rules, w.tenant)
    {
      GuardsRow(root, s, p, lim, d, c, r, e, env, tenant, row);
    }
    TenantIsolation.TenantFilter(w, db);
  }
}
