/** What holds of every statement the compiler accepts. */
module CompileProps {
  import opened Wrappers
  import opened Sexpr
  import opened Decimal
  import opened Catalog
  import opened Emit
  import opened Compile
  import opened Placeholders
  import Sql
  import E = SqlExpr
  import St = Statement

  // ---- well-formedness ----

  ghost predicate PublicSources(src: seq<Source>) {
    forall o :: o in src ==> o.schema == "public" && Sql.Ident(o.table) && Sql.Ident(o.alias)
  }

  lemma {:induction false} PublicIsIdent()
    ensures Sql.Ident("public")
  {
  }

  lemma {:induction false} JoinSourcesPublic(cs: seq<Tree>, srcs: seq<Source>, s: Schema, p: Policy)
    requires PublicSources(srcs) && JoinSources(cs, srcs, s, p).Ok?
    ensures PublicSources(JoinSources(cs, srcs, s, p).value) && srcs <= JoinSources(cs, srcs, s, p).value
  {
    if cs != [] {
      JoinSourcesPublic(cs[1..], if IsList(cs[0], "join") then srcs + [ParseSource(cs[0], 2, 3).value] else srcs, s, p);
    }
  }

  lemma {:induction false} FieldsWf(fs: seq<Tree>, src: seq<Source>, s: Schema, ps: seq<Param>)
    requires FieldsPlan(fs, src, s, ps).Some?
    ensures var fields := FieldsPlan(fs, src, s, ps).value.0;
            |fields| == |fs| && forall f :: f in fields ==> E.Wf(f.0) && Sql.Ident(f.1)
  {
    if fs != [] {
      NumberWf(fs[0].kids[1], src, s, ps);
      FieldsWf(fs[1..], src, s, Number(fs[0].kids[1], src, s, ps).value.1);
    }
  }

  lemma {:induction false} JoinsWf(cs: seq<Tree>, src: seq<Source>, i: nat, s: Schema, ps: seq<Param>)
    requires i <= |src| && JoinsPlan(cs, src, i, s, ps).Some?
    ensures var js := JoinsPlan(cs, src, i, s, ps).value.0;
            && |js| == |src| - i
            && forall k :: 0 <= k < |js| ==> js[k].src == src[i + k] && E.Wf(js[k].on)
    decreases |src| - i
  {
    if i < |src| {
      var j := JoinNode(cs, src[i].alias).value;
      NumberWf(j.kids[4], src, s, ps);
      JoinsWf(cs, src, i + 1, s, Number(j.kids[4], src, s, ps).value.1);
    }
  }

  lemma {:induction false} TenantsWf(src: seq<Source>, s: Schema, p: Policy, ps: seq<Param>)
    requires PublicSources(src) && TenantsPlan(src, s, p, ps).Ok?
    ensures forall t :: t in TenantsPlan(src, s, p, ps).value.0 ==> Sql.Ident(t.alias) && Sql.Ident(t.col)
  {
    if src != [] {
      var col := PolicyTenant(p, src[0].schema, src[0].table);
      assert PublicSources(src[1..]);
      assert src[0] in src;
      TenantsWf(src[1..], s, p, if col.Some? then Index(ps, TenantParam(p)).value.1 else ps);
    }
  }

  // ---- the accepted compile, taken apart ----

  /** The intermediate results of an accepted compile. */
  datatype Run = Run(cs: seq<Tree>, src: seq<Source>, fields: seq<(E.Expr, string)>, joins: seq<St.Join>,
                     cond: Option<E.Expr>, p1: seq<Param>, p2: seq<Param>, p3: seq<Param>, p4: seq<Param>, p5: seq<Param>)

  ghost predicate Accepted(root: Tree, s: Schema, p: Policy, lim: Limits, d: Sql.Dialect, c: Compiled, r: Run) {
    && Front(root, s, p, lim) == Ok((r.cs, r.src)) && r.src != []
    && FindClause(r.cs, "select").Some?
    && FieldsPlan(FindClause(r.cs, "select").value.kids[1..], r.src, s, []) == Some((r.fields, r.p1))
    && JoinsPlan(r.cs, r.src, 1, s, r.p1) == Some((r.joins, r.p2))
    && CondPlan(FindClause(r.cs, "where"), r.src, s, r.p2) == Some((r.cond, r.p3))
    && TenantsPlan(r.src, s, p, r.p3) == Ok((c.stmt.tenants, r.p4))
    && GroupPlan(FindClause(r.cs, "group-by"), r.src, s, r.p4) == Some((c.stmt.group, r.p5))
    && OrderPlan(FindClause(r.cs, "order-by"), r.src, s, r.p5) == Some((c.stmt.order, c.params))
    && c.stmt.fields == r.fields && c.stmt.from == r.src[0] && c.stmt.joins == r.joins && c.stmt.cond == r.cond
  }

  lemma {:induction false} TakeApart(root: Tree, s: Schema, p: Policy, lim: Limits, d: Sql.Dialect) returns (r: Run)
    requires CompileTree(root, s, p, lim, d).Ok?
    ensures Accepted(root, s, p, lim, d, CompileTree(root, s, p, lim, d).value, r)
  {
    var (cs, src) := Front(root, s, p, lim).value;
    var (fields, joins, cond, p3) := Upper(cs, src, s).value;
    var sel := FindClause(cs, "select").value;
    var p1 := FieldsPlan(sel.kids[1..], src, s, []).value.1;
    var p2 := JoinsPlan(cs, src, 1, s, p1).value.1;
    var p4 := TenantsPlan(src, s, p, p3).value.1;
    var p5 := GroupPlan(FindClause(cs, "group-by"), src, s, p4).value.1;
    r := Run(cs, src, fields, joins, cond, p1, p2, p3, p4, p5);
  }

  lemma {:induction false} FrontFacts(root: Tree, s: Schema, p: Policy, lim: Limits)
    requires Front(root, s, p, lim).Ok?
    ensures var (cs, src) := Front(root, s, p, lim).value;
            && src != [] && PublicSources(src)
            && QueryClauses(root) == Ok(cs)
            && FindClause(cs, "select").Some? && |FindClause(cs, "select").value.kids| >= 2
            && ValidColumns(root.kids[2], src, s, p) && WellTyped(root.kids[2], src, s)
            && FindClause(cs, "from").Some?
            && FromSource(FindClause(cs, "from").value).Some?
            && Usable(s, p, FromSource(FindClause(cs, "from").value).value)
            && JoinSources(cs, [FromSource(FindClause(cs, "from").value).value], s, p) == Ok(src)
  {
    var cs := QueryClauses(root).value;
    JoinSourcesPublic(cs, [FromSource(FindClause(cs, "from").value).value], s, p);
  }

  lemma {:induction false} SourcesWf(root: Tree, s: Schema, p: Policy, lim: Limits, d: Sql.Dialect, c: Compiled, r: Run)
    requires Accepted(root, s, p, lim, d, c, r)
    ensures forall o :: o in r.src ==> St.WfSource(o)
  {
    FrontFacts(root, s, p, lim);
    PublicIsIdent();
  }

  lemma {:induction false} FieldsOfRunWf(root: Tree, s: Schema, p: Policy, lim: Limits, d: Sql.Dialect, c: Compiled, r: Run)
    requires Accepted(root, s, p, lim, d, c, r)
    ensures r.fields != [] && (forall f :: f in r.fields ==> E.Wf(f.0) && Sql.Ident(f.1))
  {
    FrontFacts(root, s, p, lim);
    FieldsWf(FindClause(r.cs, "select").value.kids[1..], r.src, s, []);
  }

  lemma {:induction false} JoinsOfRunWf(root: Tree, s: Schema, p: Policy, lim: Limits, d: Sql.Dialect, c: Compiled, r: Run)
    requires Accepted(root, s, p, lim, d, c, r)
    ensures forall j :: j in r.joins ==> St.WfSource(j.src) && E.Wf(j.on)
  {
    SourcesWf(root, s, p, lim, d, c, r);
    JoinsWf(r.cs, r.src, 1, s, r.p1);
    forall j | j in r.joins
      ensures St.WfSource(j.src) && E.Wf(j.on)
    {
      var k :| 0 <= k < |r.joins| && r.joins[k] == j;
      assert r.src[1 + k] in r.src;
    }
  }

  lemma {:induction false} RestWf(root: Tree, s: Schema, p: Policy, lim: Limits, d: Sql.Dialect, c: Compiled, r: Run)
    requires Accepted(root, s, p, lim, d, c, r)
    ensures c.stmt.cond.Some? ==> E.Wf(c.stmt.cond.value)
    ensures forall t :: t in c.stmt.tenants ==> Sql.Ident(t.alias) && Sql.Ident(t.col)
    ensures c.stmt.group.Some? ==> forall e :: e in c.stmt.group.value ==> E.Wf(e)
    ensures c.stmt.order.Some? ==> E.Wf(c.stmt.order.value.0)
  {
    FrontFacts(root, s, p, lim);
    TenantsWf(r.src, s, p, r.p3);
    CondWf(FindClause(r.cs, "where"), r.src, s, r.p2);
    GroupWf(FindClause(r.cs, "group-by"), r.src, s, r.p4);
    OrderWf(FindClause(r.cs, "order-by"), r.src, s, r.p5);
  }

  lemma {:induction false} CondWf(x: Option<Tree>, src: seq<Source>, s: Schema, ps: seq<Param>)
    requires CondPlan(x, src, s, ps).Some?
    ensures var c := CondPlan(x, src, s, ps).value.0; c.Some? ==> E.Wf(c.value)
  {
    if x.Some? { NumberWf(x.value.kids[1], src, s, ps); }
  }

  lemma {:induction false} GroupWf(x: Option<Tree>, src: seq<Source>, s: Schema, ps: seq<Param>)
    requires GroupPlan(x, src, s, ps).Some?
    ensures var g := GroupPlan(x, src, s, ps).value.0; g.Some? ==> forall e :: e in g.value ==> E.Wf(e)
  {
    if x.Some? { NumberAllWf(x.value.kids[1..], src, s, ps); }
  }

  lemma {:induction false} OrderWf(x: Option<Tree>, src: seq<Source>, s: Schema, ps: seq<Param>)
    requires OrderPlan(x, src, s, ps).Some?
    ensures var o := OrderPlan(x, src, s, ps).value.0; o.Some? ==> E.Wf(o.value.0)
  {
    if x.Some? { NumberWf(x.value.kids[1], src, s, ps); }
  }

  /** Every accepted statement is well formed, so its text reads back. */
  lemma {:induction false} AcceptedIsWf(root: Tree, s: Schema, p: Policy, lim: Limits, d: Sql.Dialect)
    requires CompileTree(root, s, p, lim, d).Ok?
    ensures St.WfStmt(CompileTree(root, s, p, lim, d).value.stmt)
  {
    var c := CompileTree(root, s, p, lim, d).value;
    var r := TakeApart(root, s, p, lim, d);
    StatementWf(root, s, p, lim, d, c, r);
  }

  lemma {:induction false} StatementWf(root: Tree, s: Schema, p: Policy, lim: Limits, d: Sql.Dialect, c: Compiled, r: Run)
    requires Accepted(root, s, p, lim, d, c, r)
    ensures St.WfStmt(c.stmt)
  {
    SourcesWf(root, s, p, lim, d, c, r);
    FieldsOfRunWf(root, s, p, lim, d, c, r);
    JoinsOfRunWf(root, s, p, lim, d, c, r);
    RestWf(root, s, p, lim, d, c, r);
    assert r.src[0] in r.src;
  }

  /**
    Every source of an accepted statement is written as "public"."table". So is the table that
    WITH adds for its outer query, although SQL knows that one by its bare name only.
   */
  lemma {:induction false} SourcesAreQualified(root: Tree, s: Schema, p: Policy, lim: Limits, d: Sql.Dialect)
    requires CompileTree(root, s, p, lim, d).Ok?
    ensures var q := CompileTree(root, s, p, lim, d).value.stmt;
            q.from.schema == "public" && forall j :: j in q.joins ==> j.src.schema == "public"
  {
    var c := CompileTree(root, s, p, lim, d).value;
    var r := TakeApart(root, s, p, lim, d);
    RunIsQualified(root, s, p, lim, d, c, r);
  }

  lemma {:induction false} RunIsQualified(root: Tree, s: Schema, p: Policy, lim: Limits, d: Sql.Dialect, c: Compiled, r: Run)
    requires Accepted(root, s, p, lim, d, c, r)
    ensures c.stmt.from.schema == "public" && forall j :: j in c.stmt.joins ==> j.src.schema == "public"
  {
    FrontFacts(root, s, p, lim);
    PlannedJoins(r.cs, r.src, s, r.p1, c.stmt.joins, r.p2);
    PublicJoins(c.stmt.joins, r.src);
    assert r.src[0] in r.src;
  }

  lemma {:induction false} PlannedJoins(cs: seq<Tree>, src: seq<Source>, s: Schema, ps: seq<Param>, js: seq<St.Join>, qs: seq<Param>)
    requires src != [] && JoinsPlan(cs, src, 1, s, ps) == Some((js, qs))
    ensures |src| == |js| + 1 && forall k :: 0 <= k < |js| ==> js[k].src == src[1 + k]
  {
    JoinsWf(cs, src, 1, s, ps);
  }

  lemma {:induction false} PublicJoins(js: seq<St.Join>, src: seq<Source>)
    requires PublicSources(src) && |js| < |src| && forall k :: 0 <= k < |js| ==> js[k].src == src[1 + k]
    ensures forall j :: j in js ==> j.src.schema == "public"
  {
    forall j | j in js
      ensures j.src.schema == "public"
    {
      var k :| 0 <= k < |js| && js[k] == j;
      assert src[1 + k] in src;
    }
  }

  /** The grouping list is empty exactly when the clause holds nothing but its head. */
  lemma {:induction false} GroupIsEmpty(root: Tree, s: Schema, p: Policy, lim: Limits, d: Sql.Dialect)
    requires CompileTree(root, s, p, lim, d).Ok?
    ensures CompileTree(root, s, p, lim, d).value.stmt.group == Some([]) <==> HasEmptyGroup(root)
  {
    var c := CompileTree(root, s, p, lim, d).value;
    var r := TakeApart(root, s, p, lim, d);
    FrontFacts(root, s, p, lim);
    GroupLength(FindClause(r.cs, "group-by"), r.src, s, r.p4);
  }

  /** The query has a clause (group-by) with nothing to group by. */
  predicate HasEmptyGroup(root: Tree) {
    && root.Node? && |root.kids| >= 3 && root.kids[2].Node? && root.kids[2].kids != []
    && var g := FindClause(root.kids[2].kids[1..], "group-by"); g.Some? && |g.value.kids| == 1
  }

  lemma {:induction false} GroupLength(x: Option<Tree>, src: seq<Source>, s: Schema, ps: seq<Param>)
    requires GroupPlan(x, src, s, ps).Some?
    ensures var g := GroupPlan(x, src, s, ps).value.0;
            (x.Some? ==> x.value.Node?) && (g == Some([]) <==> x.Some? && |x.value.kids| == 1)
  {
    if x.Some? { NumberAllWf(x.value.kids[1..], src, s, ps); }
  }

  /**
    Every accepted statement carries exactly one row limit, at the place its dialect wants it:
    the context's default without a limit clause, and otherwise the clause's numeral, which is
    between 1 and the policy's maximum.
   */
  lemma {:induction false} RowsAreLimited(root: Tree, s: Schema, p: Policy, lim: Limits, d: Sql.Dialect)
    requires CompileTree(root, s, p, lim, d).Ok?
    ensures var q := CompileTree(root, s, p, lim, d).value.stmt;
            var written := if d.SqlServer? then q.top else q.limit;
            var x := FindClause(root.kids[2].kids[1..], "limit");
            && written.Some? && (if d.SqlServer? then q.limit else q.top).None?
            && (x.None? ==> written.value == lim.defaultLimit)
            && (x.Some? ==> |x.value.kids| == 2 && x.value.kids[1].Atom? && written.value == Strtoul(x.value.kids[1].text)
                            && 1 <= written.value <= p.maxLimit)
  {
    FrontFacts(root, s, p, lim);
    var (cs, src) := Front(root, s, p, lim).value;
    BackIsLimited(cs, src, s, p, lim, d);
  }

  lemma {:induction false} BackIsLimited(cs: seq<Tree>, src: seq<Source>, s: Schema, p: Policy, lim: Limits, d: Sql.Dialect)
    requires src != [] && Back(cs, src, s, p, lim, d).Ok?
    ensures var q := Back(cs, src, s, p, lim, d).value.stmt;
            var limit := LimitOf(FindClause(cs, "limit"), p, lim);
            limit.Some? && q.top == (if d.SqlServer? then limit else None) && q.limit == (if d.SqlServer? then None else limit)
  {
  }

  // ---- placeholders ----

  function FieldMarks(fs: seq<(E.Expr, string)>): seq<nat> {
    if fs == [] then [] else Marks(E.Pieces(fs[0].0)) + FieldMarks(fs[1..])
  }

  function JoinMarks(js: seq<St.Join>): seq<nat> {
    if js == [] then [] else Marks(E.Pieces(js[0].on)) + JoinMarks(js[1..])
  }

  function TenantMarks(ts: seq<St.Tenant>): seq<nat> {
    if ts == [] then [] else [ts[0].index] + TenantMarks(ts[1..])
  }

  lemma {:induction false} FieldsMarks(fs: seq<(E.Expr, string)>)
    ensures Marks(St.FieldsPieces(fs)) == FieldMarks(fs)
  {
    if fs != [] {
      Parted(E.Pieces(fs[0].0), St.AS, [Sql.Id(fs[0].1)]);
      NoMarks([Sql.Id(fs[0].1)]);
      var one := St.FieldPieces(fs[0]);
      assert Marks(one) == Marks(E.Pieces(fs[0].0)) + [];
      FieldsMarks(fs[1..]);
      if |fs| > 1 {
        Parted(one, E.COMMA, St.FieldsPieces(fs[1..]));
      } else {
        assert fs[1..] == [];
      }
    }
  }

  lemma {:induction false} SourceMarks(o: Source)
    ensures Marks(St.SourcePieces(o)) == []
  {
    NoMarks(St.SourcePieces(o));
  }

  lemma {:induction false} JoinLeadPlain(j: St.Join)
    ensures var lead := St.JoinWords(j.kind) + St.SourcePieces(j.src) + St.ON;
            forall i :: 0 <= i < |lead| ==> !lead[i].Ph?
  {
  }

  lemma {:induction false} JoinsMarks(js: seq<St.Join>)
    ensures Marks(St.JoinsPieces(js)) == JoinMarks(js)
  {
    if js != [] {
      OneJoinMarks(js[0]);
      MarksAppend(St.JoinPieces(js[0]), St.JoinsPieces(js[1..]));
      JoinsMarks(js[1..]);
    }
  }

  lemma {:induction false} OneJoinMarks(j: St.Join)
    ensures Marks(St.JoinPieces(j)) == Marks(E.Pieces(j.on))
  {
    var lead := St.JoinWords(j.kind) + St.SourcePieces(j.src) + St.ON;
    JoinLeadPlain(j);
    NoMarks(lead);
    MarksAppend(lead, E.Pieces(j.on));
  }

  lemma {:induction false} TenantsMarks(ts: seq<St.Tenant>, first: bool)
    ensures Marks(St.TenantsPieces(ts, first)) == TenantMarks(ts)
  {
    if ts != [] {
      var t := ts[0];
      var lead := if first then St.WHERE else E.AND;
      var column := [Sql.Id(t.alias), Sql.S("."), Sql.Id(t.col)];
      NoMarks(lead + (column + St.EQ));
      MarksAppend(lead + (column + St.EQ), [Sql.Ph(t.index)]);
      assert lead + (column + St.EQ) + [Sql.Ph(t.index)] == lead + St.TenantPieces(t);
      assert [Sql.Ph(t.index)][1..] == [];
      MarksAppend(lead + St.TenantPieces(t), St.TenantsPieces(ts[1..], false));
      TenantsMarks(ts[1..], false);
    }
  }

  function CondMarks(c: Option<E.Expr>): seq<nat> {
    if c.Some? then Marks(E.Pieces(c.value)) else []
  }

  function GroupMarks(g: Option<seq<E.Expr>>): seq<nat> {
    if g.Some? then MarksEach(g.value) else []
  }

  function OrderMarks(o: Option<(E.Expr, bool)>): seq<nat> {
    if o.Some? then Marks(E.Pieces(o.value.0)) else []
  }

  lemma {:induction false} LowerMarks(q: St.Stmt)
    ensures Marks(St.CondPieces(q.cond)) == CondMarks(q.cond)
    ensures Marks(St.GroupPieces(q.group)) == GroupMarks(q.group)
    ensures Marks(St.OrderPieces(q.order)) == OrderMarks(q.order)
    ensures Marks(St.LimitPieces(q.limit)) == [] && Marks(St.SelectHead(q.top)) == []
  {
    if q.cond.Some? {
      NoMarks(St.WHERE);
      MarksAppend(St.WHERE, E.Pieces(q.cond.value));
    }
    if q.group.Some? {
      NoMarks(St.GROUP);
      SepMarks(q.group.value, E.COMMA);
      MarksAppend(St.GROUP, E.PiecesSep(q.group.value, E.COMMA));
    }
    if q.order.Some? {
      Framed(E.ORDER, E.Pieces(q.order.value.0), E.Direction(q.order.value.1));
    }
    NoMarks(St.LimitPieces(q.limit));
    NoMarks(St.SelectHead(q.top));
  }

  lemma {:induction false} Marks5(a: seq<Sql.Piece>, b: seq<Sql.Piece>, c: seq<Sql.Piece>, e: seq<Sql.Piece>, f: seq<Sql.Piece>)
    ensures Marks(a + b + c + e + f) == Marks(a) + Marks(b) + Marks(c) + Marks(e) + Marks(f)
  {
    MarksAppend(a, b);
    MarksAppend(a + b, c);
    MarksAppend(a + b + c, e);
    MarksAppend(a + b + c + e, f);
  }

  lemma {:induction false} TwoMarked(h: seq<Sql.Piece>, a: seq<Sql.Piece>, m: seq<Sql.Piece>, o: seq<Sql.Piece>, b: seq<Sql.Piece>)
    requires Marks(h) == [] && Marks(m) == [] && Marks(o) == []
    ensures Marks(h + a + m + o + b) == Marks(a) + Marks(b)
  {
    Marks5(h, a, m, o, b);
  }

  lemma {:induction false} FromPlain()
    ensures Marks(St.FROM) == []
  {
    NoMarks(St.FROM);
  }

  lemma {:induction false} UpperMarks(q: St.Stmt)
    ensures Marks(St.SelectHead(q.top) + St.FieldsPieces(q.fields) + St.FROM + St.SourcePieces(q.from) + St.JoinsPieces(q.joins))
            == FieldMarks(q.fields) + JoinMarks(q.joins)
  {
    LowerMarks(q);
    SourceMarks(q.from);
    FromPlain();
    TwoMarked(St.SelectHead(q.top), St.FieldsPieces(q.fields), St.FROM, St.SourcePieces(q.from), St.JoinsPieces(q.joins));
    FieldsMarks(q.fields);
    JoinsMarks(q.joins);
  }

  lemma {:induction false} Marks6(u: seq<Sql.Piece>, a: seq<Sql.Piece>, b: seq<Sql.Piece>, c: seq<Sql.Piece>, e: seq<Sql.Piece>, f: seq<Sql.Piece>)
    requires Marks(f) == []
    ensures Marks(u + a + b + c + e + f) == Marks(u) + Marks(a) + Marks(b) + Marks(c) + Marks(e)
  {
    Marks5(u, a, b, c, e);
    MarksAppend(u + a + b + c + e, f);
  }

  /** The numbers in the text of a statement, in reading order. */
  lemma {:induction false} StmtMarks(q: St.Stmt)
    ensures Marks(St.StmtPieces(q)) ==
            FieldMarks(q.fields) + JoinMarks(q.joins) + CondMarks(q.cond) + TenantMarks(q.tenants)
            + GroupMarks(q.group) + OrderMarks(q.order)
  {
    UpperMarks(q);
    TenantsMarks(q.tenants, q.cond.None?);
    LowerMarks(q);
    Marks6(St.SelectHead(q.top) + St.FieldsPieces(q.fields) + St.FROM + St.SourcePieces(q.from) + St.JoinsPieces(q.joins),
           St.CondPieces(q.cond), St.TenantsPieces(q.tenants, q.cond.None?),
           St.GroupPieces(q.group), St.OrderPieces(q.order), St.LimitPieces(q.limit));
  }

  // ---- the table over a whole compile ----

  function FieldSites(fs: seq<Tree>): seq<Param> {
    if fs == [] then []
    else (if Form(fs[0], "field", 3) then Sites(fs[0].kids[1]) else []) + FieldSites(fs[1..])
  }

  function JoinSites(cs: seq<Tree>, src: seq<Source>, i: nat): seq<Param>
    requires i <= |src|
    decreases |src| - i
  {
    if i == |src| then []
    else (match JoinNode(cs, src[i].alias)
          case Some(j) => if |j.kids| < 5 then [] else Sites(j.kids[4])
          case None => [])
         + JoinSites(cs, src, i + 1)
  }

  /** One request for the policy's parameter for every source with a rule. */
  function TenantSites(src: seq<Source>, p: Policy): seq<Param> {
    if src == [] then []
    else if PolicyTenant(p, src[0].schema, src[0].table).Some? then [TenantParam(p)] + TenantSites(src[1..], p)
    else TenantSites(src[1..], p)
  }

  function ClauseSites(x: Option<Tree>): seq<Param> {
    if x.Some? && x.value.Node? && |x.value.kids| >= 2 then Sites(x.value.kids[1]) else []
  }

  function GroupSites(x: Option<Tree>): seq<Param> {
    if x.Some? && x.value.Node? && x.value.kids != [] then SitesAll(x.value.kids[1..]) else []
  }

  /** A tenant site asks for the policy's parameter, and there is one for every ruled source. */
  lemma {:induction false} TenantSitesArePolicy(src: seq<Source>, p: Policy)
    ensures forall q :: q in TenantSites(src, p) ==> q == TenantParam(p)
  {
    if src != [] {
      TenantSitesArePolicy(src[1..], p);
    }
  }

  ghost predicate Table(ps: seq<Param>) { Distinct(ps) && |ps| <= MAX_PARAMS }

  lemma {:induction false} FieldsInStep(fs: seq<Tree>, src: seq<Source>, s: Schema, ps: seq<Param>)
    requires Table(ps) && FieldsPlan(fs, src, s, ps).Some?
    ensures var (fields, qs) := FieldsPlan(fs, src, s, ps).value; InStep(ps, qs, FieldMarks(fields), FieldSites(fs))
  {
    if fs == [] {
      Nothing(ps);
    } else {
      var x := fs[0].kids[1];
      var (e, p1) := Number(x, src, s, ps).value;
      var (rest, p2) := FieldsPlan(fs[1..], src, s, p1).value;
      NumberInStep(x, src, s, ps);
      FieldsInStep(fs[1..], src, s, p1);
      var all := FieldsPlan(fs, src, s, ps).value.0;
      assert all[1..] == rest;
      Steps(ps, p1, p2, Marks(E.Pieces(e)), FieldMarks(rest), Sites(x), FieldSites(fs[1..]));
    }
  }

  lemma {:induction false} JoinsInStep(cs: seq<Tree>, src: seq<Source>, i: nat, s: Schema, ps: seq<Param>)
    requires i <= |src| && Table(ps) && JoinsPlan(cs, src, i, s, ps).Some?
    ensures var (js, qs) := JoinsPlan(cs, src, i, s, ps).value; InStep(ps, qs, JoinMarks(js), JoinSites(cs, src, i))
    decreases |src| - i
  {
    if i == |src| {
      Nothing(ps);
    } else {
      var x := JoinNode(cs, src[i].alias).value.kids[4];
      var (on, p1) := Number(x, src, s, ps).value;
      var (rest, p2) := JoinsPlan(cs, src, i + 1, s, p1).value;
      NumberInStep(x, src, s, ps);
      JoinsInStep(cs, src, i + 1, s, p1);
      var all := JoinsPlan(cs, src, i, s, ps).value.0;
      assert all[1..] == rest;
      Steps(ps, p1, p2, Marks(E.Pieces(on)), JoinMarks(rest), Sites(x), JoinSites(cs, src, i + 1));
    }
  }

  lemma {:induction false} TenantsInStep(src: seq<Source>, s: Schema, p: Policy, ps: seq<Param>)
    requires Table(ps) && TenantsPlan(src, s, p, ps).Ok?
    ensures var (ts, qs) := TenantsPlan(src, s, p, ps).value; InStep(ps, qs, TenantMarks(ts), TenantSites(src, p))
  {
    if src == [] {
      Nothing(ps);
    } else if PolicyTenant(p, src[0].schema, src[0].table).None? {
      TenantsInStep(src[1..], s, p, ps);
    } else {
      var (i, p1) := Index(ps, TenantParam(p)).value;
      var (rest, p2) := TenantsPlan(src[1..], s, p, p1).value;
      IndexInStep(ps, TenantParam(p));
      TenantsInStep(src[1..], s, p, p1);
      var all := TenantsPlan(src, s, p, ps).value.0;
      assert all[1..] == rest;
      Steps(ps, p1, p2, [i], TenantMarks(rest), [TenantParam(p)], TenantSites(src[1..], p));
    }
  }

  lemma {:induction false} CondInStep(x: Option<Tree>, src: seq<Source>, s: Schema, ps: seq<Param>)
    requires Table(ps) && CondPlan(x, src, s, ps).Some?
    ensures var (c, qs) := CondPlan(x, src, s, ps).value; InStep(ps, qs, CondMarks(c), ClauseSites(x))
  {
    if x.Some? { NumberInStep(x.value.kids[1], src, s, ps); } else { Nothing(ps); }
  }

  lemma {:induction false} GroupInStep(x: Option<Tree>, src: seq<Source>, s: Schema, ps: seq<Param>)
    requires Table(ps) && GroupPlan(x, src, s, ps).Some?
    ensures var (g, qs) := GroupPlan(x, src, s, ps).value; InStep(ps, qs, GroupMarks(g), GroupSites(x))
  {
    if x.Some? { NumberAllInStep(x.value.kids[1..], src, s, ps); } else { Nothing(ps); }
  }

  lemma {:induction false} OrderInStep(x: Option<Tree>, src: seq<Source>, s: Schema, ps: seq<Param>)
    requires Table(ps) && OrderPlan(x, src, s, ps).Some?
    ensures var (o, qs) := OrderPlan(x, src, s, ps).value; InStep(ps, qs, OrderMarks(o), ClauseSites(x))
  {
    if x.Some? { NumberInStep(x.value.kids[1], src, s, ps); } else { Nothing(ps); }
  }

  /** What each placeholder of a query asks for, by its clauses and sources: the user's sites and the policy's. */
  function QuerySites(cs: seq<Tree>, src: seq<Source>, p: Policy): seq<Param>
    requires src != []
  {
    FieldSites(match FindClause(cs, "select") case Some(x) => x.kids[1..] case None => [])
    + JoinSites(cs, src, 1) + ClauseSites(FindClause(cs, "where")) + TenantSites(src, p)
    + GroupSites(FindClause(cs, "group-by")) + ClauseSites(FindClause(cs, "order-by"))
  }

  function AllSites(r: Run, p: Policy): seq<Param>
    requires r.src != []
  {
    QuerySites(r.cs, r.src, p)
  }

  /** What each clause adds to the table, from first to last. */
  lemma {:induction false} ClausesInStep(root: Tree, s: Schema, p: Policy, lim: Limits, d: Sql.Dialect, c: Compiled, r: Run)
    requires Accepted(root, s, p, lim, d, c, r)
    ensures InStep([], r.p1, FieldMarks(c.stmt.fields), FieldSites(FindClause(r.cs, "select").value.kids[1..]))
    ensures InStep(r.p1, r.p2, JoinMarks(c.stmt.joins), JoinSites(r.cs, r.src, 1))
    ensures InStep(r.p2, r.p3, CondMarks(c.stmt.cond), ClauseSites(FindClause(r.cs, "where")))
    ensures InStep(r.p3, r.p4, TenantMarks(c.stmt.tenants), TenantSites(r.src, p))
    ensures InStep(r.p4, r.p5, GroupMarks(c.stmt.group), GroupSites(FindClause(r.cs, "group-by")))
    ensures InStep(r.p5, c.params, OrderMarks(c.stmt.order), ClauseSites(FindClause(r.cs, "order-by")))
  {
    FieldsInStep(FindClause(r.cs, "select").value.kids[1..], r.src, s, []);
    JoinsInStep(r.cs, r.src, 1, s, r.p1);
    CondInStep(FindClause(r.cs, "where"), r.src, s, r.p2);
    TenantsInStep(r.src, s, p, r.p3);
    GroupInStep(FindClause(r.cs, "group-by"), r.src, s, r.p4);
    OrderInStep(FindClause(r.cs, "order-by"), r.src, s, r.p5);
  }

  lemma {:induction false} AcceptedInStep(root: Tree, s: Schema, p: Policy, lim: Limits, d: Sql.Dialect, c: Compiled, r: Run)
    requires Accepted(root, s, p, lim, d, c, r)
    ensures InStep([], c.params, Marks(St.StmtPieces(c.stmt)), AllSites(r, p))
  {
    var q := c.stmt;
    StmtMarks(q);
    ClausesInStep(root, s, p, lim, d, c, r);
    var w, g, o := FindClause(r.cs, "where"), FindClause(r.cs, "group-by"), FindClause(r.cs, "order-by");
    var k, z := FieldMarks(q.fields), FieldSites(FindClause(r.cs, "select").value.kids[1..]);
    Steps([], r.p1, r.p2, k, JoinMarks(q.joins), z, JoinSites(r.cs, r.src, 1));
    k, z := k + JoinMarks(q.joins), z + JoinSites(r.cs, r.src, 1);
    Steps([], r.p2, r.p3, k, CondMarks(q.cond), z, ClauseSites(w));
    k, z := k + CondMarks(q.cond), z + ClauseSites(w);
    Steps([], r.p3, r.p4, k, TenantMarks(q.tenants), z, TenantSites(r.src, p));
    k, z := k + TenantMarks(q.tenants), z + TenantSites(r.src, p);
    Steps([], r.p4, r.p5, k, GroupMarks(q.group), z, GroupSites(g));
    k, z := k + GroupMarks(q.group), z + GroupSites(g);
    Steps([], r.p5, c.params, k, OrderMarks(q.order), z, ClauseSites(o));
  }
}
