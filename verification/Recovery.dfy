/**
  The statement written for an accepted request gives the request back, clause by clause and word
  by word: nothing that was asked is lost or changed on the way.
 */
module Recovery {
  import opened Wrappers
  import opened Sexpr
  import opened Decimal
  import opened Catalog
  import opened Emit
  import opened Compile
  import opened CompileProps
  import opened Language
  import E = SqlExpr
  import St = Statement
  import Sql
  import Typing
  import J = JoinTree

  // ---- what a clause says ----

  predicate SaysFrom(x: Tree, o: Source) {
    && o.schema == "public"
    && (x == Form2("from", Atom(o.table), Atom(o.alias)) || (x == Form1("from", Atom(o.table)) && o.alias == o.table))
  }

  function FieldTrees(fs: seq<(E.Expr, string)>, ps: seq<Param>): seq<Tree> {
    if fs == [] then [] else [Form2("field", TreeOf(fs[0].0, ps), Atom(fs[0].1))] + FieldTrees(fs[1..], ps)
  }

  predicate SaysJoin(x: Tree, j: St.Join, ps: seq<Param>) {
    && j.src.schema == "public" && x.Node? && |x.kids| == 5
    && x.kids[..4] == [Atom("join"), Atom(J.KindWord(j.kind)), Atom(j.src.table), Atom(j.src.alias)]
    && Tidy(x.kids[4]) == TreeOf(j.on, ps)
  }

  predicate SaysOrder(x: Tree, o: (E.Expr, bool), ps: seq<Param>) {
    && Form(x, "order-by", 3) && Tidy(x.kids[1]) == TreeOf(o.0, ps)
    && (o.1 <==> x.kids[2] == Atom("desc"))
  }

  /** A numeral, perhaps with something behind it, whose value is n as far as 64 bits go. */
  ghost predicate SaysLimit(x: Tree, n: nat) {
    exists a: string, b: string :: IsNumeral(a, b) && x == Form1("limit", Atom(a + b)) && n == if Num(a) <= ULONG_MAX then Num(a) else ULONG_MAX
  }

  predicate IsNumeral(a: string, b: string) { a != "" && AllDigits(a) && (b == "" || !IsDigit(b[0])) }

  function RowLimit(q: St.Stmt): Option<nat> { if q.top.Some? then q.top else q.limit }

  /** What a clause asks for is what the statement has at its place. */
  ghost predicate Says(x: Tree, q: St.Stmt, ps: seq<Param>) {
    && (IsList(x, "from") ==> SaysFrom(x, q.from))
    && (IsList(x, "select") ==> TidyAll(x.kids) == [Atom("select")] + FieldTrees(q.fields, ps))
    && (IsList(x, "where") ==> q.cond.Some? && |x.kids| >= 2 && Tidy(x.kids[1]) == TreeOf(q.cond.value, ps))
    && (IsList(x, "group-by") ==> q.group.Some? && TidyAll(x.kids) == [Atom("group-by")] + TreesOf(q.group.value, ps))
    && (IsList(x, "order-by") ==> q.order.Some? && SaysOrder(x, q.order.value, ps))
    && (IsList(x, "limit") ==> RowLimit(q).Some? && SaysLimit(x, RowLimit(q).value))
  }

  // ---- single clauses ----

  lemma {:induction false} FindIs(cs: seq<Tree>, x: Tree, h: string)
    requires ClausesValid(cs) && x in cs && IsList(x, h) && h in CLAUSES && h != "join"
    ensures FindClause(cs, h) == Some(x)
  {
    var y := FindClause(cs, h);
    FindFinds(cs, x, h);
    var i :| 0 <= i < |cs| && cs[i] == x;
    var j :| 0 <= j < |cs| && cs[j] == y.value;
    assert ClauseName(cs[i]) == ClauseName(cs[j]) == Some(h);
  }

  lemma {:induction false} FindFinds(cs: seq<Tree>, x: Tree, h: string)
    requires x in cs && IsList(x, h)
    ensures FindClause(cs, h).Some?
  {
    if !IsList(cs[0], h) {
      assert x in cs[1..];
      FindFinds(cs[1..], x, h);
    }
  }

  lemma {:induction false} FromSaid(x: Tree)
    requires IsList(x, "from") && 2 <= |x.kids| <= 3 && FromSource(x).Some?
    ensures SaysFrom(x, FromSource(x).value)
  {
    if |x.kids| == 3 {
      assert x.kids == [x.kids[0], x.kids[1], x.kids[2]];
    } else {
      assert x.kids == [x.kids[0], x.kids[1]];
    }
  }

  lemma {:induction false} FieldsSaid(fs: seq<Tree>, src: seq<Source>, s: Schema, ps: seq<Param>, all: seq<Param>)
    requires FieldsPlan(fs, src, s, ps).Some? && FieldsPlan(fs, src, s, ps).value.1 <= all
    ensures TidyAll(fs) == FieldTrees(FieldsPlan(fs, src, s, ps).value.0, all) && ps <= FieldsPlan(fs, src, s, ps).value.1
  {
    if fs != [] {
      var k := fs[0].kids;
      var (e, p1) := Number(k[1], src, s, ps).value;
      FieldsSaid(fs[1..], src, s, p1, all);
      Typing.GrowsTable(k[1], src, s, ps);
      NumberRecovers(k[1], src, s, ps, all);
      assert k == [Atom("field"), k[1], Atom(k[2].text)];
      TidyThree(Atom("field"), k[1], k[2]);
      FieldsCons(e, k[2].text, FieldsPlan(fs[1..], src, s, p1).value.0, all);
    }
  }

  lemma {:induction false} FieldsCons(e: E.Expr, name: string, fs: seq<(E.Expr, string)>, ps: seq<Param>)
    ensures FieldTrees([(e, name)] + fs, ps) == [Form2("field", TreeOf(e, ps), Atom(name))] + FieldTrees(fs, ps)
  {
    assert ([(e, name)] + fs)[1..] == fs;
  }

  lemma {:induction false} LimitSaid(x: Tree, p: Policy, lim: Limits)
    requires LimitOf(Some(x), p, lim).Some?
    ensures SaysLimit(x, LimitOf(Some(x), p, lim).value)
  {
    var t := x.kids[1].text;
    var a, b := t[..DigitLen(t)], t[DigitLen(t)..];
    assert t == a + b && x.kids == [Atom("limit"), Atom(t)];
    assert IsNumeral(a, b) && x == Form1("limit", Atom(a + b));
  }

  lemma {:induction false} ListTidy(x: Tree, h: string)
    requires IsList(x, h)
    ensures TidyAll(x.kids) == [Atom(h)] + TidyAll(x.kids[1..])
  {
    assert x.kids == [Atom(h)] + x.kids[1..];
  }

  // ---- whole requests ----

  lemma {:induction false} SelectSaid(root: Tree, s: Schema, p: Policy, lim: Limits, d: Sql.Dialect, c: Compiled, r: Run)
    requires Accepted(root, s, p, lim, d, c, r)
    ensures var x := FindClause(r.cs, "select").value; TidyAll(x.kids) == [Atom("select")] + FieldTrees(c.stmt.fields, c.params)
  {
    var x := FindClause(r.cs, "select").value;
    TablesStep(root, s, p, lim, d, c, r);
    FieldsSaid(x.kids[1..], r.src, s, [], c.params);
    ListTidy(x, "select");
  }

  lemma {:induction false} TenantsGrow(src: seq<Source>, s: Schema, p: Policy, ps: seq<Param>)
    requires TenantsPlan(src, s, p, ps).Ok?
    ensures ps <= TenantsPlan(src, s, p, ps).value.1
  {
    if src != [] {
      var col := PolicyTenant(p, src[0].schema, src[0].table);
      TenantsGrow(src[1..], s, p, if col.Some? then Index(ps, TenantParam(p)).value.1 else ps);
    }
  }

  lemma {:induction false} ClauseGrows(x: Option<Tree>, src: seq<Source>, s: Schema, ps: seq<Param>)
    ensures CondPlan(x, src, s, ps).Some? ==> ps <= CondPlan(x, src, s, ps).value.1
    ensures OrderPlan(x, src, s, ps).Some? ==> ps <= OrderPlan(x, src, s, ps).value.1
  {
    if x.Some? && x.value.Node? && |x.value.kids| >= 2 && Number(x.value.kids[1], src, s, ps).Some? {
      Typing.GrowsTable(x.value.kids[1], src, s, ps);
    }
  }

  lemma {:induction false} GroupGrows(x: Option<Tree>, src: seq<Source>, s: Schema, ps: seq<Param>)
    requires GroupPlan(x, src, s, ps).Some?
    ensures ps <= GroupPlan(x, src, s, ps).value.1
  {
    if x.Some? { Typing.GrowsTableAll(x.value.kids[1..], src, s, ps); }
  }

  /** The table grows from clause to clause. */
  lemma {:induction false} TablesStep(root: Tree, s: Schema, p: Policy, lim: Limits, d: Sql.Dialect, c: Compiled, r: Run)
    requires Accepted(root, s, p, lim, d, c, r)
    ensures r.p1 <= c.params && r.p2 <= c.params && r.p3 <= c.params && r.p5 <= c.params
  {
    JoinsGrow(r.cs, r.src, 1, s, r.p1);
    ClauseGrows(FindClause(r.cs, "where"), r.src, s, r.p2);
    TenantsGrow(r.src, s, p, r.p3);
    GroupGrows(FindClause(r.cs, "group-by"), r.src, s, r.p4);
    ClauseGrows(FindClause(r.cs, "order-by"), r.src, s, r.p5);
    Chain(r.p1, r.p2, r.p3, r.p4, r.p5, c.params);
  }

  lemma {:induction false} Chain(a: seq<Param>, b: seq<Param>, x: seq<Param>, y: seq<Param>, z: seq<Param>, w: seq<Param>)
    requires a <= b && b <= x && x <= y && y <= z && z <= w
    ensures a <= w && b <= w && x <= w && z <= w
  {
  }

  lemma {:induction false} WhereSaid(root: Tree, s: Schema, p: Policy, lim: Limits, d: Sql.Dialect, c: Compiled, r: Run, x: Tree)
    requires Accepted(root, s, p, lim, d, c, r) && FindClause(r.cs, "where") == Some(x)
    ensures c.stmt.cond.Some? && |x.kids| >= 2 && Tidy(x.kids[1]) == TreeOf(c.stmt.cond.value, c.params)
  {
    TablesStep(root, s, p, lim, d, c, r);
    NumberRecovers(x.kids[1], r.src, s, r.p2, c.params);
  }

  lemma {:induction false} GroupSaid(root: Tree, s: Schema, p: Policy, lim: Limits, d: Sql.Dialect, c: Compiled, r: Run, x: Tree)
    requires Accepted(root, s, p, lim, d, c, r) && FindClause(r.cs, "group-by") == Some(x)
    ensures c.stmt.group.Some? && TidyAll(x.kids) == [Atom("group-by")] + TreesOf(c.stmt.group.value, c.params)
  {
    TablesStep(root, s, p, lim, d, c, r);
    AllRecover(x.kids[1..], r.src, s, r.p4, c.params);
    ListTidy(x, "group-by");
  }

  lemma {:induction false} OrderSaid(root: Tree, s: Schema, p: Policy, lim: Limits, d: Sql.Dialect, c: Compiled, r: Run, x: Tree)
    requires Accepted(root, s, p, lim, d, c, r) && FindClause(r.cs, "order-by") == Some(x)
    ensures c.stmt.order.Some? && SaysOrder(x, c.stmt.order.value, c.params)
  {
    NumberRecovers(x.kids[1], r.src, s, r.p5, c.params);
  }

  lemma {:induction false} ClauseSaid(root: Tree, s: Schema, p: Policy, lim: Limits, d: Sql.Dialect, c: Compiled, r: Run, x: Tree)
    requires CompileTree(root, s, p, lim, d) == Ok(c) && Accepted(root, s, p, lim, d, c, r) && ClausesValid(r.cs) && x in r.cs
    ensures Says(x, c.stmt, c.params)
  {
    if IsList(x, "from") {
      FindIs(r.cs, x, "from");
      FromOfRun(root, s, p, lim, d, c, r, x);
    } else if IsList(x, "select") {
      FindIs(r.cs, x, "select");
      SelectSaid(root, s, p, lim, d, c, r);
    } else if IsList(x, "where") {
      FindIs(r.cs, x, "where");
      WhereSaid(root, s, p, lim, d, c, r, x);
    } else if IsList(x, "group-by") {
      FindIs(r.cs, x, "group-by");
      GroupSaid(root, s, p, lim, d, c, r, x);
    } else if IsList(x, "order-by") {
      FindIs(r.cs, x, "order-by");
      OrderSaid(root, s, p, lim, d, c, r, x);
    } else if IsList(x, "limit") {
      FindIs(r.cs, x, "limit");
      LimitOfRun(root, s, p, lim, d, c, r);
      LimitSaid(x, p, lim);
    }
  }

  lemma {:induction false} FromOfRun(root: Tree, s: Schema, p: Policy, lim: Limits, d: Sql.Dialect, c: Compiled, r: Run, x: Tree)
    requires Accepted(root, s, p, lim, d, c, r) && FindClause(r.cs, "from") == Some(x)
    ensures SaysFrom(x, c.stmt.from)
  {
    FrontFacts(root, s, p, lim);
    FirstKept(r.cs, [FromSource(x).value], s, p);
    FromSaid(x);
  }

  lemma {:induction false} FirstKept(cs: seq<Tree>, srcs: seq<Source>, s: Schema, p: Policy)
    requires JoinSources(cs, srcs, s, p).Ok?
    ensures srcs <= JoinSources(cs, srcs, s, p).value
  {
    J.SourcesGrow(cs, srcs, s, p);
  }

  lemma {:induction false} LimitOfRun(root: Tree, s: Schema, p: Policy, lim: Limits, d: Sql.Dialect, c: Compiled, r: Run)
    requires CompileTree(root, s, p, lim, d) == Ok(c) && Accepted(root, s, p, lim, d, c, r)
    ensures RowLimit(c.stmt) == LimitOf(FindClause(r.cs, "limit"), p, lim)
  {
    RowsAreLimited(root, s, p, lim, d);
  }

  /** What a statement has without being asked: the default limit, and nothing else. */
  ghost predicate NothingMore(cs: seq<Tree>, q: St.Stmt, lim: Limits) {
    && (q.cond.Some? ==> exists x :: x in cs && IsList(x, "where"))
    && (q.group.Some? ==> exists x :: x in cs && IsList(x, "group-by"))
    && (q.order.Some? ==> exists x :: x in cs && IsList(x, "order-by"))
    && (RowLimit(q) == Some(lim.defaultLimit) || exists x :: x in cs && IsList(x, "limit"))
  }

  lemma {:induction false} MoreOfRun(root: Tree, s: Schema, p: Policy, lim: Limits, d: Sql.Dialect, c: Compiled, r: Run)
    requires CompileTree(root, s, p, lim, d) == Ok(c) && Accepted(root, s, p, lim, d, c, r)
    ensures NothingMore(r.cs, c.stmt, lim)
  {
    LimitOfRun(root, s, p, lim, d, c, r);
    Found(r.cs, "where");
    Found(r.cs, "group-by");
    Found(r.cs, "order-by");
    Found(r.cs, "limit");
  }

  lemma {:induction false} Found(cs: seq<Tree>, h: string)
    ensures FindClause(cs, h).Some? ==> exists x :: x in cs && IsList(x, h)
  {
  }

  /** The joins of the statement are the join clauses, in their order. */
  ghost predicate JoinsSaid(js: seq<Tree>, joins: seq<St.Join>, ps: seq<Param>) {
    |js| == |joins| && forall k :: 0 <= k < |js| ==> SaysJoin(js[k], joins[k], ps)
  }

  lemma {:induction false} JoinsGrow(cs: seq<Tree>, src: seq<Source>, i: nat, s: Schema, ps: seq<Param>)
    requires i <= |src| && JoinsPlan(cs, src, i, s, ps).Some?
    ensures ps <= JoinsPlan(cs, src, i, s, ps).value.1
    decreases |src| - i
  {
    if i < |src| {
      var x := JoinNode(cs, src[i].alias).value;
      Typing.GrowsTable(x.kids[4], src, s, ps);
      JoinsGrow(cs, src, i + 1, s, Number(x.kids[4], src, s, ps).value.1);
    }
  }

  predicate JoinOf(j: St.Join, x: Option<Tree>, o: Source, ps: seq<Param>) {
    x.Some? && x.value.Node? && |x.value.kids| >= 5 && j.src == o && Tidy(x.value.kids[4]) == TreeOf(j.on, ps)
  }

  lemma {:induction false} ConditionSaid(cs: seq<Tree>, src: seq<Source>, i: nat, s: Schema, ps: seq<Param>, all: seq<Param>, k: nat)
    requires i <= k < |src| && JoinsPlan(cs, src, i, s, ps).Some? && JoinsPlan(cs, src, i, s, ps).value.1 <= all
    ensures var js := JoinsPlan(cs, src, i, s, ps).value.0;
            |js| == |src| - i && JoinOf(js[k - i], JoinNode(cs, src[k].alias), src[k], all)
    decreases |src| - i
  {
    if i < k {
      J.PlanStep(cs, src, i, s, ps);
      var p1 := Number(JoinNode(cs, src[i].alias).value.kids[4], src, s, ps).value.1;
      var js, rest := JoinsPlan(cs, src, i, s, ps).value.0, JoinsPlan(cs, src, i + 1, s, p1).value.0;
      ConditionSaid(cs, src, i + 1, s, p1, all, k);
      LaterJoin(js, rest, k - i, JoinNode(cs, src[k].alias), src[k], all);
    } else {
      ConditionHere(cs, src, i, s, ps, all);
    }
  }

  lemma {:induction false} LaterJoin(js: seq<St.Join>, rest: seq<St.Join>, n: nat, x: Option<Tree>, o: Source, ps: seq<Param>)
    requires js != [] && js == [js[0]] + rest && 0 < n <= |rest| && JoinOf(rest[n - 1], x, o, ps)
    ensures |js| == 1 + |rest| && JoinOf(js[n], x, o, ps)
  {
  }

  lemma {:induction false} ConditionHere(cs: seq<Tree>, src: seq<Source>, i: nat, s: Schema, ps: seq<Param>, all: seq<Param>)
    requires i < |src| && JoinsPlan(cs, src, i, s, ps).Some? && JoinsPlan(cs, src, i, s, ps).value.1 <= all
    ensures var js := JoinsPlan(cs, src, i, s, ps).value.0;
            |js| == |src| - i && JoinOf(js[0], JoinNode(cs, src[i].alias), src[i], all)
  {
    J.PlanStep(cs, src, i, s, ps);
    JoinsWf(cs, src, i, s, ps);
    var x := JoinNode(cs, src[i].alias).value;
    JoinsGrow(cs, src, i + 1, s, Number(x.kids[4], src, s, ps).value.1);
    NumberRecovers(x.kids[4], src, s, ps, all);
  }

  lemma {:induction false} JoinSaid(cs: seq<Tree>, src: seq<Source>, s: Schema, p: Policy, ps: seq<Param>, all: seq<Param>, k: nat)
    requires src != [] && J.Grown(J.JoinClauses(cs), [src[0]], src, s, p) && J.DistinctAliases(src) && 0 < k < |src|
    requires JoinsPlan(cs, src, 1, s, ps).Some? && JoinsPlan(cs, src, 1, s, ps).value.1 <= all
    ensures var js := JoinsPlan(cs, src, 1, s, ps).value.0; |js| == |src| - 1 && SaysJoin(J.JoinClauses(cs)[k - 1], js[k - 1], all)
  {
    J.JoinAt(cs, src, s, p, ps, k);
    J.OwnClause(cs, src[0], src, s, p, k - 1);
    ConditionSaid(cs, src, 1, s, ps, all, k);
    J.ClausesAreJoins(cs);
    var x := J.JoinClauses(cs)[k - 1];
    assert x in J.JoinClauses(cs);
    HeadSaid(x, JoinsPlan(cs, src, 1, s, ps).value.0[k - 1], k, src, s);
  }

  lemma {:induction false} HeadSaid(x: Tree, j: St.Join, k: nat, src: seq<Source>, s: Schema)
    requires 0 < k < |src| && J.KeyJoin(j, x, k, src, s) && IsList(x, "join")
    ensures j.src.schema == "public" && x.kids[..4] == [Atom("join"), Atom(J.KindWord(j.kind)), Atom(j.src.table), Atom(j.src.alias)]
  {
  }

  lemma {:induction false} AllJoinsSaid(root: Tree, s: Schema, p: Policy, lim: Limits, d: Sql.Dialect, c: Compiled, r: Run)
    requires Accepted(root, s, p, lim, d, c, r) && J.DistinctAliases(r.src)
    ensures JoinsSaid(J.JoinClauses(r.cs), c.stmt.joins, c.params)
  {
    J.RunSources(root, s, p, lim, d, c, r);
    TablesStep(root, s, p, lim, d, c, r);
    EachJoinSaid(r.cs, r.src, s, p, r.p1, c.params);
  }

  lemma {:induction false} EachJoinSaid(cs: seq<Tree>, src: seq<Source>, s: Schema, p: Policy, ps: seq<Param>, all: seq<Param>)
    requires src != [] && J.Grown(J.JoinClauses(cs), [src[0]], src, s, p) && J.DistinctAliases(src)
    requires JoinsPlan(cs, src, 1, s, ps).Some? && JoinsPlan(cs, src, 1, s, ps).value.1 <= all
    ensures JoinsSaid(J.JoinClauses(cs), JoinsPlan(cs, src, 1, s, ps).value.0, all)
  {
    JoinsWf(cs, src, 1, s, ps);
    forall k | 0 <= k < |J.JoinClauses(cs)|
      ensures SaysJoin(J.JoinClauses(cs)[k], JoinsPlan(cs, src, 1, s, ps).value.0[k], all)
    {
      JoinSaid(cs, src, s, p, ps, all, k + 1);
    }
  }

  /** The clauses of a request, by their place in the tree. */
  function ClausesOf(root: Tree): seq<Tree> {
    if root.Node? && |root.kids| >= 3 && root.kids[2].Node? && root.kids[2].kids != [] then root.kids[2].kids[1..] else []
  }

  /**
    Every clause of an accepted request is found again in the statement, and the statement has no
    clause of its own but the row limit and the predicates of the tenants. With distinct aliases
    the joins are the join clauses in their order.
   */
  lemma {:induction false} RequestRecovered(root: Tree, s: Schema, p: Policy, lim: Limits, d: Sql.Dialect) returns (r: Run)
    requires CompileTree(root, s, p, lim, d).Ok?
    ensures var c := CompileTree(root, s, p, lim, d).value;
            && Accepted(root, s, p, lim, d, c, r) && r.cs == ClausesOf(root)
            && (forall x :: x in ClausesOf(root) ==> Says(x, c.stmt, c.params)) && NothingMore(ClausesOf(root), c.stmt, lim)
            && (J.DistinctAliases(r.src) ==> JoinsSaid(J.JoinClauses(ClausesOf(root)), c.stmt.joins, c.params))
  {
    var c := CompileTree(root, s, p, lim, d).value;
    r := TakeApart(root, s, p, lim, d);
    FrontFacts(root, s, p, lim);
    forall x | x in r.cs
      ensures Says(x, c.stmt, c.params)
    {
      ClauseSaid(root, s, p, lim, d, c, r, x);
    }
    MoreOfRun(root, s, p, lim, d, c, r);
    if J.DistinctAliases(r.src) {
      AllJoinsSaid(root, s, p, lim, d, c, r);
    }
  }
}
