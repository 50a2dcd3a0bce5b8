/**
  The rows a request asks for, and that the statement written for it selects exactly those, with
  every source limited to the tenant where the policy has a rule.
 */
module AskedRows {
  import opened Wrappers
  import opened Sexpr
  import opened Catalog
  import opened Emit
  import opened Compile
  import opened CompileProps
  import opened Language
  import opened Asked
  import Recovery
  import E = SqlExpr
  import RB = ReadBack
  import St = Statement
  import StatementText
  import Sql
  import R = Relational
  import J = JoinTree
  import TC = TenantCompile
  import Positional

  // ---- joins, row by row ----

  lemma {:induction false} MatchesAre(r: R.Row, l: R.Row, ts: seq<R.Tuple>, on: E.Expr, names: seq<string>, env: R.Env)
    ensures r in R.Matches(l, ts, on, names, env) <==> exists t :: t in ts && r == l + [Some(t)] && R.Holds(on, r, names, env)
  {
    if ts != [] {
      MatchesAre(r, l, ts[1..], on, names, env);
      assert forall t :: t in ts <==> t == ts[0] || t in ts[1..];
    }
  }

  /** No tuple of the right side matches this row. */
  ghost predicate Lonely(l: R.Row, ts: seq<R.Tuple>, on: E.Expr, names: seq<string>, env: R.Env) {
    forall t :: t in ts ==> !R.Holds(on, l + [Some(t)], names, env)
  }

  lemma {:induction false} NoMatches(l: R.Row, ts: seq<R.Tuple>, on: E.Expr, names: seq<string>, env: R.Env)
    ensures R.Matches(l, ts, on, names, env) == [] <==> Lonely(l, ts, on, names, env)
  {
    if ts != [] {
      NoMatches(l, ts[1..], on, names, env);
      assert forall t :: t in ts <==> t == ts[0] || t in ts[1..];
    }
  }

  ghost predicate Paired(r: R.Row, acc: seq<R.Row>, ts: seq<R.Tuple>, on: E.Expr, names: seq<string>, env: R.Env) {
    exists l, t :: l in acc && t in ts && r == l + [Some(t)] && R.Holds(on, r, names, env)
  }

  ghost predicate LeftAlone(r: R.Row, acc: seq<R.Row>, ts: seq<R.Tuple>, on: E.Expr, names: seq<string>, env: R.Env) {
    exists l :: l in acc && r == l + [None] && Lonely(l, ts, on, names, env)
  }

  ghost predicate RightAlone(r: R.Row, acc: seq<R.Row>, n: nat, ts: seq<R.Tuple>, on: E.Expr, names: seq<string>, env: R.Env) {
    exists t :: t in ts && r == R.Pad(n) + [Some(t)] && forall l :: l in acc ==> !R.Holds(on, l + [Some(t)], names, env)
  }

  lemma {:induction false} PartIs(r: R.Row, l: R.Row, keep: bool, ts: seq<R.Tuple>, on: E.Expr, names: seq<string>, env: R.Env)
    ensures r in R.Part(l, keep, ts, on, names, env) <==>
            Paired(r, [l], ts, on, names, env) || (keep && LeftAlone(r, [l], ts, on, names, env))
  {
    MatchesAre(r, l, ts, on, names, env);
    NoMatches(l, ts, on, names, env);
    assert l in [l];
  }

  lemma {:induction false} OneLeft(r: R.Row, l: R.Row, acc: seq<R.Row>, ts: seq<R.Tuple>, on: E.Expr, names: seq<string>, env: R.Env)
    ensures Paired(r, [l] + acc, ts, on, names, env) <==> Paired(r, [l], ts, on, names, env) || Paired(r, acc, ts, on, names, env)
    ensures LeftAlone(r, [l] + acc, ts, on, names, env) <==> LeftAlone(r, [l], ts, on, names, env) || LeftAlone(r, acc, ts, on, names, env)
  {
    assert forall x :: x in [l] + acc <==> x in [l] || x in acc;
  }

  lemma {:induction false} LeftSideIs(r: R.Row, acc: seq<R.Row>, keep: bool, ts: seq<R.Tuple>, on: E.Expr, names: seq<string>, env: R.Env)
    ensures r in R.LeftSide(acc, keep, ts, on, names, env) <==>
            Paired(r, acc, ts, on, names, env) || (keep && LeftAlone(r, acc, ts, on, names, env))
  {
    if acc != [] {
      assert acc == [acc[0]] + acc[1..];
      PartIs(r, acc[0], keep, ts, on, names, env);
      LeftSideIs(r, acc[1..], keep, ts, on, names, env);
      OneLeft(r, acc[0], acc[1..], ts, on, names, env);
    }
  }

  lemma {:induction false} UnmatchedIs(r: R.Row, acc: seq<R.Row>, n: nat, ts: seq<R.Tuple>, on: E.Expr, names: seq<string>, env: R.Env)
    ensures r in R.Unmatched(acc, n, ts, on, names, env) <==> RightAlone(r, acc, n, ts, on, names, env)
  {
    if ts != [] {
      UnmatchedIs(r, acc, n, ts[1..], on, names, env);
      assert forall t :: t in ts <==> t == ts[0] || t in ts[1..];
    }
  }

  /**
    A join of any kind, row by row: the matching pairs; under left and full every row of the left
    side that matches nothing, padded; under right and full the same for the right side.
   */
  lemma {:induction false} JoinedExactly(r: R.Row, acc: seq<R.Row>, n: nat, kind: St.JoinKind, ts: seq<R.Tuple>, on: E.Expr,
                                         names: seq<string>, env: R.Env)
    ensures r in R.JoinRows(acc, n, kind, ts, on, names, env) <==>
            || Paired(r, acc, ts, on, names, env)
            || (kind in {St.Left, St.Full} && LeftAlone(r, acc, ts, on, names, env))
            || (kind in {St.Right, St.Full} && RightAlone(r, acc, n, ts, on, names, env))
  {
    LeftSideIs(r, acc, kind.Left? || kind.Full?, ts, on, names, env);
    UnmatchedIs(r, acc, n, ts, on, names, env);
  }

  // ---- the rows a request asks for ----

  /** The join condition of a clause holds on a row. */
  ghost predicate On(j: Tree, r: R.Row, names: seq<string>, w: World) {
    j.Node? && |j.kids| == 5 && Value(j.kids[4], r, names, w) == R.Bool(true)
  }

  function WordAt(x: Tree, i: nat): string {
    if x.Node? && i < |x.kids| && x.kids[i].Atom? then x.kids[i].text else ""
  }

  function Tuples(db: R.Database, table: string): seq<R.Tuple> { db("public", table) }

  /** r is a row of the first table with the tables of these join clauses, each joined as its word says. */
  ghost predicate IsRow(r: R.Row, first: string, js: seq<Tree>, db: R.Database, names: seq<string>, w: World)
    decreases |js|
  {
    if js == [] then |r| == 1 && r[0].Some? && r[0].value in Tuples(db, first)
    else
      var n := |js|;
      var before, j := js[..n - 1], js[n - 1];
      var ts := Tuples(db, WordAt(j, 2));
      && |r| == n + 1
      && var l, x := r[..n], r[n];
         || (x.Some? && x.value in ts && IsRow(l, first, before, db, names, w) && On(j, r, names, w))
         || (WordAt(j, 1) in ["left", "full"] && x.None? && IsRow(l, first, before, db, names, w)
             && forall t :: t in ts ==> !On(j, l + [Some(t)], names, w))
         || (WordAt(j, 1) in ["right", "full"] && x.Some? && x.value in ts && l == R.Pad(n)
             && forall m: R.Row :: IsRow(m, first, before, db, names, w) ==> !On(j, m + [x], names, w))
  }

  /** A join as the database reads it is the join a clause asks for. */
  ghost predicate SameJoin(j: St.Join, x: Tree, names: seq<string>, env: R.Env, w: World) {
    && j.src.schema == "public" && x.Node? && |x.kids| == 5
    && x.kids[1] == Atom(J.KindWord(j.kind)) && x.kids[2] == Atom(j.src.table)
    && forall r: R.Row :: R.Holds(j.on, r, names, env) <==> On(x, r, names, w)
  }

  /** The query as the database reads it has the sources and joins asked for. */
  ghost predicate SameJoins(q: St.Query, first: string, js: seq<Tree>, env: R.Env, w: World) {
    && q.from.schema == "public" && q.from.table == first && |q.joins| == |js|
    && forall k :: 0 <= k < |js| ==> SameJoin(q.joins[k], js[k], R.Names(q), env, w)
  }

  lemma {:induction false} SingleIs(ts: seq<R.Tuple>, r: R.Row)
    ensures r in R.Single(ts) <==> |r| == 1 && r[0].Some? && r[0].value in ts
  {
    if ts != [] {
      SingleIs(ts[1..], r);
      assert |r| == 1 && r[0] == Some(ts[0]) ==> r == [Some(ts[0])];
      assert forall t :: t in ts <==> t == ts[0] || t in ts[1..];
    }
  }

  /** acc holds the rows asked for by these clauses. */
  ghost predicate AreRows(acc: seq<R.Row>, first: string, js: seq<Tree>, db: R.Database, names: seq<string>, w: World) {
    forall l: R.Row :: l in acc <==> IsRow(l, first, js, db, names, w)
  }

  lemma {:induction false} RowsAreAsked(q: St.Query, first: string, js: seq<Tree>, n: nat, db: R.Database, env: R.Env, w: World)
    requires SameJoins(q, first, js, env, w) && n <= |js|
    ensures AreRows(R.Rows(q, n, db, env), first, js[..n], db, R.Names(q), w)
    decreases n
  {
    if n == 0 {
      FirstTable(first, db, R.Names(q), w);
      assert js[..0] == [];
    } else {
      RowsAreAsked(q, first, js, n - 1, db, env, w);
      OneMoreJoin(R.Rows(q, n - 1, db, env), first, js[..n - 1], js[n - 1], q.joins[n - 1], db, R.Names(q), env, w);
      NextRows(q, n, db, env);
      assert js[..n] == js[..n - 1] + [js[n - 1]];
    }
  }

  lemma {:induction false} NextRows(q: St.Query, n: nat, db: R.Database, env: R.Env)
    requires 0 < n <= |q.joins|
    ensures var j := q.joins[n - 1];
            R.Rows(q, n, db, env) == R.JoinRows(R.Rows(q, n - 1, db, env), n, j.kind, R.Table(db, j.src), j.on, R.Names(q), env)
  {
  }

  lemma {:induction false} FirstTable(first: string, db: R.Database, names: seq<string>, w: World)
    ensures AreRows(R.Single(Tuples(db, first)), first, [], db, names, w)
  {
    forall r: R.Row
      ensures r in R.Single(Tuples(db, first)) <==> IsRow(r, first, [], db, names, w)
    {
      SingleIs(Tuples(db, first), r);
    }
  }

  lemma {:induction false} OneMoreJoin(acc: seq<R.Row>, first: string, before: seq<Tree>, x: Tree, j: St.Join,
                                       db: R.Database, names: seq<string>, env: R.Env, w: World)
    requires SameJoin(j, x, names, env, w) && AreRows(acc, first, before, db, names, w)
    ensures AreRows(R.JoinRows(acc, |before| + 1, j.kind, R.Table(db, j.src), j.on, names, env), first, before + [x], db, names, w)
  {
    var n, ts := |before| + 1, Tuples(db, WordAt(x, 2));
    forall r: R.Row
      ensures r in R.JoinRows(acc, n, j.kind, ts, j.on, names, env) <==> IsRow(r, first, before + [x], db, names, w)
    {
      JoinedExactly(r, acc, n, j.kind, ts, j.on, names, env);
      PairsAsked(r, acc, first, before, x, j, ts, db, names, env, w);
      LeftAsked(r, acc, first, before, x, j, ts, db, names, env, w);
      RightAsked(r, acc, first, before, x, j, ts, db, names, env, w);
      LastJoin(r, first, before, x, db, names, w);
    }
  }

  ghost predicate PairAsked(r: R.Row, first: string, before: seq<Tree>, x: Tree, db: R.Database, names: seq<string>, w: World) {
    && |r| == |before| + 2 && r[|r| - 1].Some? && r[|r| - 1].value in Tuples(db, WordAt(x, 2))
    && IsRow(r[..|r| - 1], first, before, db, names, w) && On(x, r, names, w)
  }

  ghost predicate LeftOnly(r: R.Row, first: string, before: seq<Tree>, x: Tree, db: R.Database, names: seq<string>, w: World) {
    && |r| == |before| + 2 && r[|r| - 1].None? && IsRow(r[..|r| - 1], first, before, db, names, w)
    && forall t :: t in Tuples(db, WordAt(x, 2)) ==> !On(x, r[..|r| - 1] + [Some(t)], names, w)
  }

  ghost predicate RightOnly(r: R.Row, first: string, before: seq<Tree>, x: Tree, db: R.Database, names: seq<string>, w: World) {
    && |r| == |before| + 2 && r[|r| - 1].Some? && r[|r| - 1].value in Tuples(db, WordAt(x, 2)) && r[..|r| - 1] == R.Pad(|before| + 1)
    && forall m: R.Row :: IsRow(m, first, before, db, names, w) ==> !On(x, m + [r[|r| - 1]], names, w)
  }

  lemma {:induction false} LastJoin(r: R.Row, first: string, before: seq<Tree>, x: Tree, db: R.Database, names: seq<string>, w: World)
    ensures IsRow(r, first, before + [x], db, names, w) <==>
            || PairAsked(r, first, before, x, db, names, w)
            || (WordAt(x, 1) in ["left", "full"] && LeftOnly(r, first, before, x, db, names, w))
            || (WordAt(x, 1) in ["right", "full"] && RightOnly(r, first, before, x, db, names, w))
  {
    var js, n := before + [x], |before| + 1;
    assert js[..n - 1] == before && js[n - 1] == x;
  }

  lemma {:induction false} RowLength(r: R.Row, first: string, js: seq<Tree>, db: R.Database, names: seq<string>, w: World)
    requires IsRow(r, first, js, db, names, w)
    ensures |r| == |js| + 1
  {
  }

  lemma {:induction false} PairsAsked(r: R.Row, acc: seq<R.Row>, first: string, before: seq<Tree>, x: Tree, j: St.Join, ts: seq<R.Tuple>,
                                      db: R.Database, names: seq<string>, env: R.Env, w: World)
    requires SameJoin(j, x, names, env, w) && AreRows(acc, first, before, db, names, w) && ts == Tuples(db, WordAt(x, 2))
    ensures Paired(r, acc, ts, j.on, names, env) <==> PairAsked(r, first, before, x, db, names, w)
  {
    if Paired(r, acc, ts, j.on, names, env) {
      var l, t :| l in acc && t in ts && r == l + [Some(t)] && R.Holds(j.on, r, names, env);
      RowLength(l, first, before, db, names, w);
      assert r[..|r| - 1] == l;
    }
    if PairAsked(r, first, before, x, db, names, w) {
      assert r == r[..|r| - 1] + [Some(r[|r| - 1].value)];
    }
  }

  lemma {:induction false} LeftAsked(r: R.Row, acc: seq<R.Row>, first: string, before: seq<Tree>, x: Tree, j: St.Join, ts: seq<R.Tuple>,
                                     db: R.Database, names: seq<string>, env: R.Env, w: World)
    requires SameJoin(j, x, names, env, w) && AreRows(acc, first, before, db, names, w) && ts == Tuples(db, WordAt(x, 2))
    ensures LeftAlone(r, acc, ts, j.on, names, env) <==> LeftOnly(r, first, before, x, db, names, w)
  {
    if LeftAlone(r, acc, ts, j.on, names, env) {
      var l :| l in acc && r == l + [None] && Lonely(l, ts, j.on, names, env);
      RowLength(l, first, before, db, names, w);
      assert r[..|r| - 1] == l;
    }
    if LeftOnly(r, first, before, x, db, names, w) {
      assert r == r[..|r| - 1] + [None];
    }
  }

  lemma {:induction false} RightAsked(r: R.Row, acc: seq<R.Row>, first: string, before: seq<Tree>, x: Tree, j: St.Join, ts: seq<R.Tuple>,
                                      db: R.Database, names: seq<string>, env: R.Env, w: World)
    requires SameJoin(j, x, names, env, w) && AreRows(acc, first, before, db, names, w) && ts == Tuples(db, WordAt(x, 2))
    ensures RightAlone(r, acc, |before| + 1, ts, j.on, names, env) <==> RightOnly(r, first, before, x, db, names, w)
  {
    if RightOnly(r, first, before, x, db, names, w) {
      assert r == R.Pad(|before| + 1) + [Some(r[|r| - 1].value)];
    }
    if RightAlone(r, acc, |before| + 1, ts, j.on, names, env) {
      var t :| t in ts && r == R.Pad(|before| + 1) + [Some(t)] && forall l :: l in acc ==> !R.Holds(j.on, l + [Some(t)], names, env);
      assert r[..|r| - 1] == R.Pad(|before| + 1) && r[|r| - 1] == Some(t);
    }
  }

  // ---- the rows that are selected ----

  lemma {:induction false} PassingIs(r: R.Row, rows: seq<R.Row>, cond: Option<E.Expr>, names: seq<string>, env: R.Env)
    ensures r in R.Passing(rows, cond, names, env) <==> r in rows && (cond.None? || R.Holds(cond.value, r, names, env))
  {
    if rows != [] {
      PassingIs(r, rows[1..], cond, names, env);
      assert forall x :: x in rows <==> x == rows[0] || x in rows[1..];
    }
  }

  lemma {:induction false} ConjunctionIs(es: seq<E.Expr>, r: R.Row, names: seq<string>, env: R.Env)
    ensures var c := St.Conjunction(es);
            (c.Some? ==> R.Holds(c.value, r, names, env)) <==> forall e :: e in es ==> R.Holds(e, r, names, env)
  {
    var vs := R.EvalAll(es, r, names, env);
    if |es| > 1 {
      assert R.Eval(E.And(es), r, names, env) == R.Junction(vs, false);
      if forall e :: e in es ==> R.Holds(e, r, names, env) {
        forall v | v in vs
          ensures v == R.Bool(true)
        {
          var i :| 0 <= i < |vs| && vs[i] == v;
          assert es[i] in es;
        }
      } else {
        var e :| e in es && !R.Holds(e, r, names, env);
        var i :| 0 <= i < |es| && es[i] == e;
        assert vs[i] in vs && vs[i] != R.Bool(true);
        NotAll(vs, vs[i]);
      }
    }
  }

  lemma {:induction false} NotAll(vs: seq<R.Value>, v: R.Value)
    requires v in vs && v != R.Bool(true)
    ensures R.Junction(vs, false) != R.Bool(true)
  {
  }

  /** The tenant column of a table, by the first rule of the policy for it. */
  ghost predicate TenantColumn(p: Policy, table: string, col: string) {
    exists k :: 0 <= k < |p.tenants| && RuleFor(p.tenants[k], table) && p.tenants[k].col == col
                && forall j :: 0 <= j < k ==> !RuleFor(p.tenants[j], table)
  }

  predicate RuleFor(x: TenantRule, table: string) { x.schema == "public" && x.table == table }

  lemma {:induction false} FirstRule(rs: seq<TenantRule>, table: string)
    ensures RuleIn(rs, "public", table).None? <==> forall k :: 0 <= k < |rs| ==> !RuleFor(rs[k], table)
    ensures forall k :: 0 <= k < |rs| && RuleFor(rs[k], table) && (forall j :: 0 <= j < k ==> !RuleFor(rs[j], table)) ==>
              RuleIn(rs, "public", table) == Some(rs[k])
    ensures RuleIn(rs, "public", table).Some? ==>
              exists k :: 0 <= k < |rs| && RuleFor(rs[k], table) && rs[k] == RuleIn(rs, "public", table).value
                          && forall j :: 0 <= j < k ==> !RuleFor(rs[j], table)
  {
    if rs != [] && !RuleFor(rs[0], table) {
      FirstRule(rs[1..], table);
      assert forall k :: 0 < k < |rs| ==> rs[k] == rs[1..][k - 1];
      if RuleIn(rs, "public", table).Some? {
        var k :| 0 <= k < |rs| - 1 && RuleFor(rs[1..][k], table) && rs[1..][k] == RuleIn(rs, "public", table).value
                 && forall j :: 0 <= j < k ==> !RuleFor(rs[1..][j], table);
        assert RuleFor(rs[k + 1], table);
      }
    }
  }

  lemma {:induction false} RulesAre(p: Policy, table: string, col: string)
    ensures PolicyTenant(p, "public", table) == Some(col) <==> TenantColumn(p, table, col)
  {
    FirstRule(p.tenants, table);
  }

  /** The name of the argument that carries the tenant. */
  function TenantName(p: Policy): string { if p.runtimeName == "" then "tenant_id" else p.runtimeName }

  function AliasOf(from: Tree): string { if from.Node? && |from.kids| == 3 then WordAt(from, 2) else WordAt(from, 1) }

  /** The names of the sources, from first to last, and their tables. */
  function NamesOf(from: Tree, js: seq<Tree>): (r: seq<string>)
    ensures |r| == |js| + 1
  {
    [AliasOf(from)] + seq(|js|, i requires 0 <= i < |js| => WordAt(js[i], 3))
  }

  function TableOf(from: Tree, js: seq<Tree>, i: nat): string
    requires i <= |js|
  {
    if i == 0 then WordAt(from, 1) else WordAt(js[i - 1], 2)
  }

  /** Entry i of a row belongs to the tenant wherever the policy has a rule for its table. */
  ghost predicate Own(r: R.Row, i: nat, table: string, p: Policy, w: World) {
    forall col :: TenantColumn(p, table, col) ==> R.EqV(R.Cell(r, i, col), w.arg(TenantName(p))) == R.Bool(true)
  }

  /** What a request asks for, its policy granting: rows of its joins on which its condition is true, and own throughout. */
  ghost predicate Selected(r: R.Row, root: Tree, p: Policy, db: R.Database, w: World) {
    var cs := Recovery.ClausesOf(root);
    var js := J.JoinClauses(cs);
    && FindClause(cs, "from").Some?
    && var from := FindClause(cs, "from").value;
       && IsRow(r, WordAt(from, 1), js, db, NamesOf(from, js), w)
       && WhereTrue(cs, r, NamesOf(from, js), w) && OwnAll(r, TablesOf(from, js), p, w)
  }

  ghost predicate OneNameEach(root: Tree) {
    var cs := Recovery.ClausesOf(root);
    && FindClause(cs, "from").Some?
    && TC.DistinctNames(NamesOf(FindClause(cs, "from").value, J.JoinClauses(cs)))
  }

  // ---- accepted requests ----

  lemma {:induction false} SourcesNamed(root: Tree, s: Schema, p: Policy, lim: Limits, d: Sql.Dialect, c: Compiled, r: Run)
    requires Accepted(root, s, p, lim, d, c, r) && r.cs == Recovery.ClausesOf(root)
    ensures FindClause(r.cs, "from").Some?
    ensures var from, js := FindClause(r.cs, "from").value, J.JoinClauses(r.cs);
            && |r.src| == |js| + 1
            && forall i :: 0 <= i < |r.src| ==> r.src[i] == Source("public", TableOf(from, js, i), NamesOf(from, js)[i])
  {
    var from, js := FindClause(r.cs, "from").value, J.JoinClauses(r.cs);
    FrontFacts(root, s, p, lim);
    Recovery.FromOfRun(root, s, p, lim, d, c, r, from);
    J.RunSources(root, s, p, lim, d, c, r);
    NamesAre(from, js, r.src, s, p);
  }

  lemma {:induction false} NamesAre(from: Tree, js: seq<Tree>, src: seq<Source>, s: Schema, p: Policy)
    requires src != [] && J.Grown(js, [src[0]], src, s, p) && Recovery.SaysFrom(from, src[0])
    ensures |src| == |js| + 1
    ensures forall i :: 0 <= i < |src| ==> src[i] == Source("public", TableOf(from, js, i), NamesOf(from, js)[i])
  {
    forall i | 0 <= i < |src|
      ensures src[i] == Source("public", TableOf(from, js, i), NamesOf(from, js)[i])
    {
      if i > 0 {
        assert J.Adds(js, 1, src, s, p, i - 1);
        JoinedNamed(js[i - 1], src[i]);
      }
    }
  }

  lemma {:induction false} JoinedNamed(x: Tree, o: Source)
    requires J.JoinedSource(x) == Some(o)
    ensures o == Source("public", WordAt(x, 2), WordAt(x, 3))
  {
  }

  /** The database's condition on a join is the one its clause asks for. */
  lemma {:induction false} JoinMeansAsked(j: St.Join, x: Tree, ps: seq<Param>, e: Sql.Dialect, names: seq<string>, w: World)
    requires e != Sql.MySql && Recovery.SaysJoin(x, j, ps) && E.Wf(j.on)
    ensures SameJoin(St.Join(j.kind, j.src, RB.Norm(j.on, e)), x, names, EnvOf(w, ps), w)
  {
    forall r: R.Row
      ensures R.Eval(RB.Norm(j.on, e), r, names, EnvOf(w, ps)) == Value(x.kids[4], r, names, w)
    {
      EvalIsValue(j.on, ps, e, r, names, w);
      TidyValue(x.kids[4], r, names, w);
    }
    assert x.kids[1] == x.kids[..4][1] && x.kids[2] == x.kids[..4][2];
  }

  lemma {:induction false} JoinsMeanAsked(q: St.Stmt, from: Tree, js: seq<Tree>, ps: seq<Param>, e: Sql.Dialect, w: World)
    requires e != Sql.MySql && St.WfStmt(q) && Recovery.SaysFrom(from, q.from) && Recovery.JoinsSaid(js, q.joins, ps)
    ensures SameJoins(St.Meant(q, e), WordAt(from, 1), js, EnvOf(w, ps), w)
  {
    var m := St.Meant(q, e);
    forall k | 0 <= k < |js|
      ensures SameJoin(m.joins[k], js[k], R.Names(m), EnvOf(w, ps), w)
    {
      assert q.joins[k] in q.joins;
      JoinMeansAsked(q.joins[k], js[k], ps, e, R.Names(m), w);
    }
  }

  /** An injected predicate was injected for a source with that rule. */
  lemma {:induction false} TenantFrom(src: seq<Source>, s: Schema, p: Policy, ps: seq<Param>, t: St.Tenant) returns (i: nat)
    requires TenantsPlan(src, s, p, ps).Ok? && t in TenantsPlan(src, s, p, ps).value.0
    ensures i < |src| && src[i].alias == t.alias && PolicyTenant(p, src[i].schema, src[i].table) == Some(t.col)
  {
    var col := PolicyTenant(p, src[0].schema, src[0].table);
    var ts := TenantsPlan(src, s, p, ps).value.0;
    if col.Some? && t == ts[0] {
      i := 0;
    } else {
      var p1 := if col.Some? then Index(ps, TenantParam(p)).value.1 else ps;
      assert t in TenantsPlan(src[1..], s, p, p1).value.0;
      i := TenantFrom(src[1..], s, p, p1, t);
      i := i + 1;
    }
  }

  lemma {:induction false} PredicateIs(t: St.Tenant, e: Sql.Dialect, r: R.Row, names: seq<string>, i: nat, env: R.Env)
    requires e != Sql.MySql && i < |names| && names[i] == t.alias && TC.DistinctNames(names)
    ensures R.Holds(St.TenantExpr(t, e), r, names, env) <==> R.EqV(R.Cell(r, i, t.col), env.param(t.index)) == R.Bool(true)
  {
    TC.NameAt(names, i);
    assert R.Eval(E.Col(t.alias, t.col), r, names, env) == R.Cell(r, i, t.col);
    assert R.Eval(E.Par(t.index), r, names, env) == env.param(t.index);
  }

  ghost predicate AllBound(ts: seq<St.Tenant>, ps: seq<Param>, p: Policy) {
    forall t :: t in ts ==> 1 <= t.index <= |ps| && ps[t.index - 1] == TenantParam(p)
  }

  lemma {:induction false} TenantsAreBound(root: Tree, s: Schema, p: Policy, lim: Limits, d: Sql.Dialect, c: Compiled, r: Run)
    requires Accepted(root, s, p, lim, d, c, r)
    ensures AllBound(c.stmt.tenants, c.params, p)
  {
    forall t | t in c.stmt.tenants
      ensures 1 <= t.index <= |c.params| && c.params[t.index - 1] == TenantParam(p)
    {
      TC.TenantsBound(root, s, p, lim, d, c, r, t);
    }
  }

  lemma {:induction false} ArgumentAt(w: World, ps: seq<Param>, i: nat, p: Policy)
    requires 1 <= i <= |ps| && ps[i - 1] == TenantParam(p)
    ensures EnvOf(w, ps).param(i) == w.arg(TenantName(p))
  {
  }

  ghost predicate TenantsHold(ts: seq<St.Tenant>, e: Sql.Dialect, row: R.Row, names: seq<string>, env: R.Env) {
    forall t :: t in ts ==> R.Holds(St.TenantExpr(t, e), row, names, env)
  }

  ghost predicate OwnAll(row: R.Row, tables: seq<string>, p: Policy, w: World) {
    forall i :: 0 <= i < |tables| ==> Own(row, i, tables[i], p, w)
  }

  lemma {:induction false} HoldingIsOwn(ts: seq<St.Tenant>, src: seq<Source>, s: Schema, p: Policy, ps: seq<Param>, all: seq<Param>, e: Sql.Dialect,
                                        row: R.Row, names: seq<string>, tables: seq<string>, w: World)
    requires TenantsPlan(src, s, p, ps).Ok? && TenantsPlan(src, s, p, ps).value.0 == ts && AllBound(ts, all, p)
    requires e != Sql.MySql && |names| == |tables| == |src| && TC.DistinctNames(names)
    requires forall i :: 0 <= i < |src| ==> src[i] == Source("public", tables[i], names[i])
    requires TenantsHold(ts, e, row, names, EnvOf(w, all))
    ensures OwnAll(row, tables, p, w)
  {
    forall i, col | 0 <= i < |tables| && TenantColumn(p, tables[i], col)
      ensures R.EqV(R.Cell(row, i, col), w.arg(TenantName(p))) == R.Bool(true)
    {
      RulesAre(p, tables[i], col);
      TC.TenantsCover(src, s, p, ps, i);
      var t :| t in ts && t.alias == src[i].alias && Some(t.col) == PolicyTenant(p, src[i].schema, src[i].table);
      PredicateIs(t, e, row, names, i, EnvOf(w, all));
      ArgumentAt(w, all, t.index, p);
    }
  }

  lemma {:induction false} OwnIsHolding(ts: seq<St.Tenant>, src: seq<Source>, s: Schema, p: Policy, ps: seq<Param>, all: seq<Param>, e: Sql.Dialect,
                                        row: R.Row, names: seq<string>, tables: seq<string>, w: World)
    requires TenantsPlan(src, s, p, ps).Ok? && TenantsPlan(src, s, p, ps).value.0 == ts && AllBound(ts, all, p)
    requires e != Sql.MySql && |names| == |tables| == |src| && TC.DistinctNames(names)
    requires forall i :: 0 <= i < |src| ==> src[i] == Source("public", tables[i], names[i])
    requires OwnAll(row, tables, p, w)
    ensures TenantsHold(ts, e, row, names, EnvOf(w, all))
  {
    forall t | t in ts
      ensures R.Holds(St.TenantExpr(t, e), row, names, EnvOf(w, all))
    {
      var i := TenantFrom(src, s, p, ps, t);
      RulesAre(p, tables[i], t.col);
      assert Own(row, i, tables[i], p, w);
      PredicateIs(t, e, row, names, i, EnvOf(w, all));
      ArgumentAt(w, all, t.index, p);
    }
  }

  /** The injected predicates hold on a row exactly when it is the tenant's own throughout. */
  lemma {:induction false} TenantsAsked(ts: seq<St.Tenant>, src: seq<Source>, s: Schema, p: Policy, ps: seq<Param>, all: seq<Param>, e: Sql.Dialect,
                                        row: R.Row, names: seq<string>, tables: seq<string>, w: World)
    requires TenantsPlan(src, s, p, ps).Ok? && TenantsPlan(src, s, p, ps).value.0 == ts && AllBound(ts, all, p)
    requires e != Sql.MySql && |names| == |tables| == |src| && TC.DistinctNames(names)
    requires forall i :: 0 <= i < |src| ==> src[i] == Source("public", tables[i], names[i])
    ensures TenantsHold(ts, e, row, names, EnvOf(w, all)) <==> OwnAll(row, tables, p, w)
  {
    if TenantsHold(ts, e, row, names, EnvOf(w, all)) {
      HoldingIsOwn(ts, src, s, p, ps, all, e, row, names, tables, w);
    }
    if OwnAll(row, tables, p, w) {
      OwnIsHolding(ts, src, s, p, ps, all, e, row, names, tables, w);
    }
  }

  /** The where clause, if there is one, is true on the row. */
  ghost predicate WhereTrue(cs: seq<Tree>, row: R.Row, names: seq<string>, w: World) {
    forall x :: x in cs && IsList(x, "where") ==> |x.kids| >= 2 && Value(x.kids[1], row, names, w) == R.Bool(true)
  }

  lemma {:induction false} WhereAsked(q: St.Stmt, cs: seq<Tree>, lim: Limits, ps: seq<Param>, e: Sql.Dialect, row: R.Row, names: seq<string>, w: World)
    requires e != Sql.MySql && St.WfStmt(q) && Recovery.NothingMore(cs, q, lim) && forall x :: x in cs ==> Recovery.Says(x, q, ps)
    ensures (q.cond.Some? ==> R.Holds(RB.Norm(q.cond.value, e), row, names, EnvOf(w, ps)))
            <==> WhereTrue(cs, row, names, w)
  {
    forall x | x in cs && IsList(x, "where")
      ensures q.cond.Some? && |x.kids| >= 2
      ensures R.Eval(RB.Norm(q.cond.value, e), row, names, EnvOf(w, ps)) == Value(x.kids[1], row, names, w)
    {
      assert Recovery.Says(x, q, ps);
      EvalIsValue(q.cond.value, ps, e, row, names, w);
      TidyValue(x.kids[1], row, names, w);
    }
  }

  lemma {:induction false} ConditionIs(q: St.Stmt, e: Sql.Dialect, row: R.Row, names: seq<string>, env: R.Env)
    ensures var c := St.Conjunction(St.Conjuncts(q, e));
            (c.Some? ==> R.Holds(c.value, row, names, env)) <==>
            (q.cond.Some? ==> R.Holds(RB.Norm(q.cond.value, e), row, names, env))
            && TenantsHold(q.tenants, e, row, names, env)
  {
    var es := St.Conjuncts(q, e);
    ConjunctionIs(es, row, names, env);
    forall x | x in es
      ensures (q.cond.Some? && x == RB.Norm(q.cond.value, e)) || exists t :: t in q.tenants && x == St.TenantExpr(t, e)
    {
      ConjunctFrom(q, e, x);
    }
    forall t | t in q.tenants
      ensures St.TenantExpr(t, e) in es
    {
      TC.TenantConjunct(q, e, t);
    }
  }

  lemma {:induction false} ConjunctFrom(q: St.Stmt, e: Sql.Dialect, x: E.Expr)
    requires x in St.Conjuncts(q, e)
    ensures (q.cond.Some? && x == RB.Norm(q.cond.value, e)) || exists t :: t in q.tenants && x == St.TenantExpr(t, e)
  {
    var ts := St.TenantExprs(q.tenants, e);
    if x in ts {
      var k :| 0 <= k < |ts| && ts[k] == x;
      assert q.tenants[k] in q.tenants;
    }
  }

  function TablesOf(from: Tree, js: seq<Tree>): (r: seq<string>)
    ensures |r| == |js| + 1 && forall i :: 0 <= i <= |js| ==> r[i] == TableOf(from, js, i)
  {
    seq(|js| + 1, i requires 0 <= i <= |js| => TableOf(from, js, i))
  }

  /** The names the database sees are the ones the request gives. */
  lemma {:induction false} NamesMeant(q: St.Stmt, e: Sql.Dialect, src: seq<Source>, names: seq<string>)
    requires |names| == |src| == |q.joins| + 1 && q.from == src[0] && forall k :: 0 <= k < |q.joins| ==> q.joins[k].src == src[1 + k]
    requires forall i :: 0 <= i < |src| ==> src[i].alias == names[i]
    ensures R.Names(St.Meant(q, e)) == names
  {
    TC.MeantSources(q, e, src);
  }

  /**
    The statement selects what is asked: for every accepted request with a name of its own for
    each source, and every database and arguments, a row survives the condition exactly when the
    request asks for it and it is the tenant's own in every table with a rule.
   */
  lemma {:induction false} SelectsWhatIsAsked(root: Tree, s: Schema, p: Policy, lim: Limits, d: Sql.Dialect, e: Sql.Dialect,
                                              db: R.Database, w: World, row: R.Row)
    requires CompileTree(root, s, p, lim, d).Ok? && e != Sql.MySql && OneNameEach(root)
    ensures var c := CompileTree(root, s, p, lim, d).value;
            row in R.Surviving(St.Meant(c.stmt, e), db, EnvOf(w, c.params)) <==> Selected(row, root, p, db, w)
  {
    var c := CompileTree(root, s, p, lim, d).value;
    var r := Recovery.RequestRecovered(root, s, p, lim, d);
    SourcesNamed(root, s, p, lim, d, c, r);
    AcceptedIsWf(root, s, p, lim, d);
    TenantsAreBound(root, s, p, lim, d, c, r);
    TC.StmtSources(root, s, p, lim, d, c, r);
    PlanSelects(c.stmt, r.cs, r.src, s, p, lim, r.p3, c.params, e, db, w, row, FindClause(r.cs, "from").value, J.JoinClauses(r.cs));
  }

  /** The sources are those that the clauses name, in their order. */
  ghost predicate Placed(src: seq<Source>, from: Tree, js: seq<Tree>) {
    |src| == |js| + 1 && forall i :: 0 <= i < |src| ==> src[i] == Source("public", TableOf(from, js, i), NamesOf(from, js)[i])
  }

  /** The joins of a statement are over these sources. */
  ghost predicate Over(q: St.Stmt, src: seq<Source>) {
    |src| == |q.joins| + 1 && q.from == src[0] && forall k :: 0 <= k < |q.joins| ==> q.joins[k].src == src[1 + k]
  }

  lemma {:induction false} NamesPlaced(q: St.Stmt, e: Sql.Dialect, src: seq<Source>, from: Tree, js: seq<Tree>)
    requires Over(q, src) && Placed(src, from, js)
    ensures R.Names(St.Meant(q, e)) == NamesOf(from, js)
  {
    NamesMeant(q, e, src, NamesOf(from, js));
  }

  lemma {:induction false} TenantsPlaced(ts: seq<St.Tenant>, src: seq<Source>, s: Schema, p: Policy, ps: seq<Param>, all: seq<Param>, e: Sql.Dialect,
                                         row: R.Row, from: Tree, js: seq<Tree>, w: World)
    requires TenantsPlan(src, s, p, ps).Ok? && TenantsPlan(src, s, p, ps).value.0 == ts && AllBound(ts, all, p)
    requires e != Sql.MySql && Placed(src, from, js) && TC.DistinctNames(NamesOf(from, js))
    ensures TenantsHold(ts, e, row, NamesOf(from, js), EnvOf(w, all)) <==> OwnAll(row, TablesOf(from, js), p, w)
  {
    TenantsAsked(ts, src, s, p, ps, all, e, row, NamesOf(from, js), TablesOf(from, js), w);
  }

  lemma {:induction false} PlanSelects(q: St.Stmt, cs: seq<Tree>, src: seq<Source>, s: Schema, p: Policy, lim: Limits, ps: seq<Param>, all: seq<Param>,
                                       e: Sql.Dialect, db: R.Database, w: World, row: R.Row, from: Tree, js: seq<Tree>)
    requires TenantsPlan(src, s, p, ps).Ok? && TenantsPlan(src, s, p, ps).value.0 == q.tenants && AllBound(q.tenants, all, p)
    requires e != Sql.MySql && St.WfStmt(q) && TC.DistinctNames(NamesOf(from, js))
    requires Recovery.SaysFrom(from, q.from) && Recovery.NothingMore(cs, q, lim) && Recovery.JoinsSaid(js, q.joins, all)
    requires forall x :: x in cs ==> Recovery.Says(x, q, all)
    requires Over(q, src) && Placed(src, from, js)
    ensures row in R.Surviving(St.Meant(q, e), db, EnvOf(w, all))
            <==> IsRow(row, WordAt(from, 1), js, db, NamesOf(from, js), w)
                 && WhereTrue(cs, row, NamesOf(from, js), w) && OwnAll(row, TablesOf(from, js), p, w)
  {
    var names := NamesOf(from, js);
    NamesPlaced(q, e, src, from, js);
    RowsOfRun(q, from, js, all, e, db, w, row, names);
    WhereAsked(q, cs, lim, all, e, row, names, w);
    TenantsPlaced(q.tenants, src, s, p, ps, all, e, row, from, js, w);
  }

  lemma {:induction false} RowsOfRun(q: St.Stmt, from: Tree, js: seq<Tree>, ps: seq<Param>, e: Sql.Dialect, db: R.Database, w: World,
                                     row: R.Row, names: seq<string>)
    requires e != Sql.MySql && St.WfStmt(q) && Recovery.SaysFrom(from, q.from) && Recovery.JoinsSaid(js, q.joins, ps)
    requires R.Names(St.Meant(q, e)) == names
    ensures var env := EnvOf(w, ps);
            row in R.Surviving(St.Meant(q, e), db, env) <==>
            IsRow(row, WordAt(from, 1), js, db, names, w)
            && (q.cond.Some? ==> R.Holds(RB.Norm(q.cond.value, e), row, names, env))
            && TenantsHold(q.tenants, e, row, names, env)
  {
    var m, env := St.Meant(q, e), EnvOf(w, ps);
    JoinsMeanAsked(q, from, js, ps, e, w);
    RowsAreAsked(m, WordAt(from, 1), js, |js|, db, env, w);
    assert js[..|js|] == js;
    PassingIs(row, R.Rows(m, |m.joins|, db, env), m.cond, names, env);
    ConditionIs(q, e, row, names, env);
  }

  /** So does its text, as a database of any dialect reads it; MySQL's where no parameter repeats. */
  lemma {:induction false} TextSelectsWhatIsAsked(root: Tree, s: Schema, p: Policy, lim: Limits, d: Sql.Dialect,
                                                  db: R.Database, w: World, row: R.Row)
    requires CompileTree(root, s, p, lim, d).Ok? && OneNameEach(root) && !HasEmptyGroup(root)
    requires d == Sql.MySql ==> Positional.NoRepeats(root, s, p, lim)
    ensures var c := CompileTree(root, s, p, lim, d).value;
            var q := Positional.ReadBy(StatementText.Text(c.stmt, d), d);
            q.Some? && (row in R.Surviving(q.value, db, EnvOf(w, c.params)) <==> Selected(row, root, p, db, w))
  {
    Positional.ReadAsMeant(root, s, p, lim, d);
    SelectsWhatIsAsked(root, s, p, lim, d, Positional.Numbering(d), db, w, row);
  }
}
