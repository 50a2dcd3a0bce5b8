/**
  Accepted queries over one table, small enough to follow by hand: the inputs behind the results
  that say where a promise fails.
 */
module Samples {
  import opened Wrappers
  import opened Sexpr
  import opened Decimal
  import opened Catalog
  import opened Emit
  import opened Compile
  import Sql
  import E = SqlExpr
  import St = Statement

  function List(h: string, kids: seq<Tree>): Tree { Node([Atom(h)] + kids) }

  function ParamNode(name: string, ty: string): Tree { Node([Atom("param"), Atom(name), Atom(ty)]) }
  function RefNode(name: string): Tree { Node([Atom("ref"), Atom(name)]) }
  function FieldNode(x: Tree, name: string): Tree { Node([Atom("field"), x, Atom(name)]) }
  function Of(h: string, a: Tree, b: Tree): Tree { Node([Atom(h), a, b]) }

  const FROM: Tree := Node([Atom("from"), Atom("t")])
  const SOURCES: seq<Source> := [Source("public", "t", "t")]

  function Clauses(fs: seq<Tree>, more: seq<Tree>): seq<Tree> { [FROM, List("select", fs)] + more }

  /** (nlsql 1 (query (from t) (select fields) more)) */
  function Query(fs: seq<Tree>, more: seq<Tree>): Tree {
    Node([Atom("nlsql"), Atom("1"), List("query", Clauses(fs, more))])
  }

  /** One allowed table without foreign keys or tenant rules, and room for some fields. */
  predicate Plain(s: Schema, p: Policy, lim: Limits) {
    ("public", "t") in s.tables && ("public", "t") in p.allow && p.tenants == [] && lim.maxSelected >= 2
  }

  /** Nothing, or one clause that is neither from, join nor select. */
  predicate OneMore(more: seq<Tree>) {
    more == [] || (|more| == 1 && (IsList(more[0], "where") || IsList(more[0], "group-by")))
  }

  lemma {:induction false} HeadOf(h: string, kids: seq<Tree>)
    ensures IsList(List(h, kids), h) && List(h, kids).kids[1..] == kids
    ensures forall g :: IsList(List(h, kids), g) ==> g == h
  {
  }

  lemma {:induction false} FindFirst(c: Tree, rest: seq<Tree>, h: string)
    ensures FindClause([c] + rest, h) == if IsList(c, h) then Some(c) else FindClause(rest, h)
    ensures FindClause([], h) == None
  {
    assert ([c] + rest)[1..] == rest;
  }

  lemma {:induction false} Find(fs: seq<Tree>, more: seq<Tree>, h: string)
    requires OneMore(more)
    ensures FindClause(Clauses(fs, more), h) ==
            if h == "from" then Some(FROM) else if h == "select" then Some(List("select", fs))
            else if more != [] && IsList(more[0], h) then Some(more[0]) else None
  {
    var sel := List("select", fs);
    HeadOf("select", fs);
    assert Clauses(fs, more) == [FROM] + ([sel] + more);
    FindFirst(FROM, [sel] + more, h);
    FindFirst(sel, more, h);
    if more != [] {
      assert more == [more[0]] + [];
      FindFirst(more[0], [], h);
    } else {
      FindFirst(sel, [], h);
    }
  }

  lemma {:induction false} FoundIn(fs: seq<Tree>, more: seq<Tree>)
    requires OneMore(more)
    ensures var cs := Clauses(fs, more);
            && FindClause(cs, "from") == Some(FROM) && FindClause(cs, "select") == Some(List("select", fs))
            && FindClause(cs, "order-by") == None && FindClause(cs, "limit") == None
            && FindClause(cs, "where") == (if more != [] && IsList(more[0], "where") then Some(more[0]) else None)
            && FindClause(cs, "group-by") == (if more != [] && IsList(more[0], "group-by") then Some(more[0]) else None)
  {
    Find(fs, more, "from");
    Find(fs, more, "select");
    Find(fs, more, "where");
    Find(fs, more, "group-by");
    Find(fs, more, "order-by");
    Find(fs, more, "limit");
  }

  lemma {:induction false} ClausesAreValid(fs: seq<Tree>, more: seq<Tree>)
    requires OneMore(more)
    ensures ClausesValid(Clauses(fs, more))
  {
    var cs := Clauses(fs, more);
    HeadOf("select", fs);
    assert cs[0] == FROM && cs[1] == List("select", fs);
    assert ClauseName(cs[0]) == Some("from") && ClauseName(cs[1]) == Some("select");
    if more != [] {
      assert cs[2] == more[0];
      assert ClauseName(cs[2]) == Some(more[0].kids[0].text);
    }
  }

  lemma {:induction false} NoJoins(fs: seq<Tree>, more: seq<Tree>, s: Schema, p: Policy)
    requires OneMore(more)
    ensures JoinSources(Clauses(fs, more), SOURCES, s, p) == Ok(SOURCES)
  {
    var sel := List("select", fs);
    HeadOf("select", fs);
    assert Clauses(fs, more) == [FROM] + ([sel] + more);
    NoJoin(FROM, [sel] + more, s, p);
    NoJoin(sel, more, s, p);
    if more != [] {
      assert more == [more[0]] + [];
      NoJoin(more[0], [], s, p);
    }
  }

  lemma {:induction false} NoJoin(c: Tree, rest: seq<Tree>, s: Schema, p: Policy)
    requires !IsList(c, "join")
    ensures JoinSources([c] + rest, SOURCES, s, p) == JoinSources(rest, SOURCES, s, p)
  {
    assert ([c] + rest)[1..] == rest;
  }

  predicate ValidAll(xs: seq<Tree>, s: Schema, p: Policy) { forall x :: x in xs ==> ValidColumns(x, SOURCES, s, p) }
  predicate TypedAll(xs: seq<Tree>, s: Schema) { forall x :: x in xs ==> WellTyped(x, SOURCES, s) }

  /** Lists whose heads no check looks for are checked member by member. */
  lemma {:induction false} ListChecked(h: string, xs: seq<Tree>, s: Schema, p: Policy)
    requires h !in ["column", "where", "join", "field", "window"]
    ensures ValidAll(xs, s, p) ==> ValidColumns(List(h, xs), SOURCES, s, p)
    ensures TypedAll(xs, s) ==> WellTyped(List(h, xs), SOURCES, s)
  {
    var x := List(h, xs);
    HeadOf(h, xs);
    assert forall k :: k in x.kids ==> k == Atom(h) || k in xs;
  }

  lemma {:induction false} QueryChecked(fs: seq<Tree>, more: seq<Tree>, s: Schema, p: Policy)
    requires ValidAll(fs, s, p) && ValidAll(more, s, p) && TypedAll(fs, s) && TypedAll(more, s)
    ensures ValidColumns(List("query", Clauses(fs, more)), SOURCES, s, p)
    ensures WellTyped(List("query", Clauses(fs, more)), SOURCES, s)
  {
    ListChecked("select", fs, s, p);
    ListChecked("from", [Atom("t")], s, p);
    assert FROM == List("from", [Atom("t")]);
    assert forall x :: x in Clauses(fs, more) ==> x == FROM || x == List("select", fs) || x in more;
    ListChecked("query", Clauses(fs, more), s, p);
  }

  lemma {:induction false} FrontAccepts(fs: seq<Tree>, more: seq<Tree>, s: Schema, p: Policy, lim: Limits)
    requires Plain(s, p, lim) && OneMore(more) && 1 <= |fs| <= 2
    requires ValidAll(fs, s, p) && ValidAll(more, s, p) && TypedAll(fs, s) && TypedAll(more, s)
    ensures Front(Query(fs, more), s, p, lim) == Ok((Clauses(fs, more), SOURCES))
  {
    RootIsQuery(fs, more);
    Find(fs, more, "from");
    Find(fs, more, "select");
    FromIsTable();
    NoJoins(fs, more, s, p);
    QueryChecked(fs, more, s, p);
  }

  lemma {:induction false} RootIsQuery(fs: seq<Tree>, more: seq<Tree>)
    requires OneMore(more)
    ensures QueryClauses(Query(fs, more)) == Ok(Clauses(fs, more))
  {
    HeadOf("query", Clauses(fs, more));
    ClausesAreValid(fs, more);
  }

  lemma {:induction false} FromIsTable()
    ensures FromSource(FROM) == Some(Source("public", "t", "t"))
  {
  }

  /** An accepted query: what its clauses plan is what is compiled. */
  lemma {:induction false} QueryCompiles(fs: seq<Tree>, more: seq<Tree>, s: Schema, p: Policy, lim: Limits, d: Sql.Dialect,
                                         fields: seq<(E.Expr, string)>, p1: seq<Param>, cond: Option<E.Expr>, p2: seq<Param>,
                                         group: Option<seq<E.Expr>>, p3: seq<Param>)
    requires Plain(s, p, lim) && OneMore(more) && 1 <= |fs| <= 2
    requires ValidAll(fs, s, p) && ValidAll(more, s, p) && TypedAll(fs, s) && TypedAll(more, s)
    requires FieldsPlan(fs, SOURCES, s, []) == Some((fields, p1))
    requires CondPlan(FindClause(Clauses(fs, more), "where"), SOURCES, s, p1) == Some((cond, p2))
    requires GroupPlan(FindClause(Clauses(fs, more), "group-by"), SOURCES, s, p2) == Some((group, p3))
    ensures var n := Some(lim.defaultLimit);
            CompileTree(Query(fs, more), s, p, lim, d) ==
            Ok(Compiled(St.Stmt(if d.SqlServer? then n else None, fields, SOURCES[0], [], cond, [], group, None,
                                if d.SqlServer? then None else n), p3))
  {
    FrontAccepts(fs, more, s, p, lim);
    FoundIn(fs, more);
    UpperIs(fs, more, s, fields, p1, cond, p2);
    BackIs(fs, more, s, p, lim, d, fields, cond, p2, group, p3);
  }

  lemma {:induction false} UpperIs(fs: seq<Tree>, more: seq<Tree>, s: Schema, fields: seq<(E.Expr, string)>, p1: seq<Param>,
                                   cond: Option<E.Expr>, p2: seq<Param>)
    requires OneMore(more) && FieldsPlan(fs, SOURCES, s, []) == Some((fields, p1))
    requires CondPlan(FindClause(Clauses(fs, more), "where"), SOURCES, s, p1) == Some((cond, p2))
    ensures Upper(Clauses(fs, more), SOURCES, s) == Some((fields, [], cond, p2))
  {
    Find(fs, more, "select");
    HeadOf("select", fs);
    assert JoinsPlan(Clauses(fs, more), SOURCES, 1, s, p1) == Some(([], p1));
  }

  lemma {:induction false} BackIs(fs: seq<Tree>, more: seq<Tree>, s: Schema, p: Policy, lim: Limits, d: Sql.Dialect,
                                  fields: seq<(E.Expr, string)>, cond: Option<E.Expr>, p2: seq<Param>,
                                  group: Option<seq<E.Expr>>, p3: seq<Param>)
    requires OneMore(more) && p.tenants == [] && Upper(Clauses(fs, more), SOURCES, s) == Some((fields, [], cond, p2))
    requires GroupPlan(FindClause(Clauses(fs, more), "group-by"), SOURCES, s, p2) == Some((group, p3))
    ensures var n := Some(lim.defaultLimit);
            Back(Clauses(fs, more), SOURCES, s, p, lim, d) ==
            Ok(Compiled(St.Stmt(if d.SqlServer? then n else None, fields, SOURCES[0], [], cond, [], group, None,
                                if d.SqlServer? then None else n), p3))
  {
    Find(fs, more, "order-by");
    Find(fs, more, "limit");
    NoTenants(s, p, p2);
  }

  lemma {:induction false} NoTenants(s: Schema, p: Policy, ps: seq<Param>)
    requires p.tenants == []
    ensures TenantsPlan(SOURCES, s, p, ps) == Ok(([], ps))
  {
    assert PolicyTenant(p, "public", "t") == None;
    assert SOURCES[1..] == [];
  }

  // ---- single parts ----

  lemma {:induction false} FieldChecked(x: Tree, name: string, s: Schema, p: Policy)
    requires ValidColumns(x, SOURCES, s, p) && WellTyped(x, SOURCES, s)
    requires ExprType(x, SOURCES, s) != UnknownT || IsList(x, "ref")
    ensures ValidColumns(FieldNode(x, name), SOURCES, s, p) && WellTyped(FieldNode(x, name), SOURCES, s)
  {
    var f := FieldNode(x, name);
    assert Form(f, "field", 3) && forall k :: k in f.kids ==> k == Atom("field") || k == Atom(name) || k == x;
  }

  lemma {:induction false} FieldPlanned(x: Tree, name: string, rest: seq<Tree>, s: Schema, ps: seq<Param>)
    requires Sql.Ident(name) && Number(x, SOURCES, s, ps).Some?
    ensures FieldsPlan([], SOURCES, s, ps) == Some(([], ps))
    ensures var (e, p1) := Number(x, SOURCES, s, ps).value;
            FieldsPlan([FieldNode(x, name)] + rest, SOURCES, s, ps) ==
            match FieldsPlan(rest, SOURCES, s, p1) case None => None case Some((fs, p2)) => Some(([(e, name)] + fs, p2))
  {
    var fs := [FieldNode(x, name)] + rest;
    assert fs[1..] == rest && fs[0] == FieldNode(x, name);
    assert Form(fs[0], "field", 3) && Name(fs[0].kids[2]);
  }

  lemma {:induction false} ShortNames()
    ensures Sql.Ident("x") && Sql.Ident("y") && Sql.Ident("a") && Sql.Ident("b") && Sql.Ident("t") && Sql.Ident("ssn")
  {
  }

  /** Parameters, references and atoms hold nothing that a check could reject. */
  lemma {:induction false} LeavesChecked(name: string, ty: string, s: Schema, p: Policy)
    ensures ValidColumns(ParamNode(name, ty), SOURCES, s, p) && WellTyped(ParamNode(name, ty), SOURCES, s)
    ensures ValidColumns(RefNode(name), SOURCES, s, p) && WellTyped(RefNode(name), SOURCES, s)
    ensures ExprType(ParamNode(name, ty), SOURCES, s) == TypeName(ty) && IsList(RefNode(name), "ref")
  {
    assert forall k :: k in ParamNode(name, ty).kids ==> k.Atom?;
    assert forall k :: k in RefNode(name).kids ==> k.Atom?;
  }

  lemma {:induction false} RefNumbered(name: string, s: Schema, ps: seq<Param>)
    requires Sql.Ident(name)
    ensures Number(RefNode(name), SOURCES, s, ps) == Some((E.Ref(name), ps))
  {
    assert ShapeOf(RefNode(name)) == RefS(name);
  }

  lemma {:induction false} ParamNumbered(name: string, ty: string, s: Schema, ps: seq<Param>)
    requires Sql.Ident(name) && TypeName(ty) != UnknownT
    ensures Number(ParamNode(name, ty), SOURCES, s, ps) ==
            match Index(ps, Param(name, TypeName(ty), User)) case None => None case Some((i, qs)) => Some((E.Par(i), qs))
  {
    assert ShapeOf(ParamNode(name, ty)) == ParamS(name, TypeName(ty));
  }

  lemma {:induction false} FirstEntry(p: Param)
    ensures Index([], p) == Some((1, [p])) && Index([p], p) == Some((1, [p]))
  {
    var ps := [p];
    assert ps[0] == p && [] + [p] == ps;
    assert Position([], p.name) == 0 && Position(ps, p.name) == 0;
  }

  // ---- whole queries ----

  /** Selecting one bare name. */
  lemma {:induction false} RefQuery(name: string, s: Schema, p: Policy, lim: Limits, d: Sql.Dialect)
    requires Plain(s, p, lim) && Sql.Ident(name)
    ensures var c := CompileTree(Query([FieldNode(RefNode(name), "x")], []), s, p, lim, d);
            c.Ok? && c.value.stmt.fields == [(E.Ref(name), "x")] && c.value.params == []
  {
    var fs := [FieldNode(RefNode(name), "x")];
    RefFields(name, s, p);
    FoundIn(fs, []);
    QueryCompiles(fs, [], s, p, lim, d, [(E.Ref(name), "x")], [], None, [], None, []);
  }

  lemma {:induction false} RefFields(name: string, s: Schema, p: Policy)
    requires Sql.Ident(name)
    ensures var fs := [FieldNode(RefNode(name), "x")];
            FieldsPlan(fs, SOURCES, s, []) == Some(([(E.Ref(name), "x")], [])) && ValidAll(fs, s, p) && TypedAll(fs, s)
  {
    ShortNames();
    LeavesChecked(name, "", s, p);
    FieldChecked(RefNode(name), "x", s, p);
    RefNumbered(name, s, []);
    FieldPlanned(RefNode(name), "x", [], s, []);
    assert [FieldNode(RefNode(name), "x")] + [] == [FieldNode(RefNode(name), "x")];
    assert [(E.Ref(name), "x")] + [] == [(E.Ref(name), "x")];
  }

  function ParamField(name: string, out: string): Tree { FieldNode(ParamNode(name, "int64"), out) }
  function Entry(name: string): Param { Param(name, Int64T, User) }

  lemma {:induction false} ParamFields(name: string, s: Schema, p: Policy)
    requires Sql.Ident(name)
    ensures var fs := [ParamField(name, "x")];
            && FieldsPlan(fs, SOURCES, s, []) == Some(([(E.Par(1), "x")], [Entry(name)])) && ValidAll(fs, s, p) && TypedAll(fs, s)
  {
    var x := ParamNode(name, "int64");
    ShortNames();
    LeavesChecked(name, "int64", s, p);
    FieldChecked(x, "x", s, p);
    ParamNumbered(name, "int64", s, []);
    FirstEntry(Entry(name));
    FieldPlanned(x, "x", [], s, []);
    FieldPlanned(x, "x", [], s, [Entry(name)]);
    assert [ParamField(name, "x")] + [] == [ParamField(name, "x")];
    assert [(E.Par(1), "x")] + [] == [(E.Par(1), "x")];
  }

  /** Selecting one parameter, perhaps with an empty group-by clause. */
  lemma {:induction false} ParamQuery(name: string, grouped: bool, s: Schema, p: Policy, lim: Limits, d: Sql.Dialect)
    requires Plain(s, p, lim) && Sql.Ident(name)
    ensures var c := CompileTree(Query([ParamField(name, "x")], if grouped then [EMPTY_GROUP] else []), s, p, lim, d);
            && c.Ok? && c.value.stmt.fields == [(E.Par(1), "x")] && c.value.params == [Entry(name)]
            && c.value.stmt.group == if grouped then Some([]) else None
  {
    var fs, more := [ParamField(name, "x")], if grouped then [EMPTY_GROUP] else [];
    var group: Option<seq<E.Expr>> := if grouped then Some([]) else None;
    ParamFields(name, s, p);
    EmptyGroupChecked(s, p);
    FoundIn(fs, more);
    QueryCompiles(fs, more, s, p, lim, d, [(E.Par(1), "x")], [Entry(name)], None, [Entry(name)], group, [Entry(name)]);
  }

  const EMPTY_GROUP: Tree := Node([Atom("group-by")])

  lemma {:induction false} EmptyGroupChecked(s: Schema, p: Policy)
    ensures ValidColumns(EMPTY_GROUP, SOURCES, s, p) && WellTyped(EMPTY_GROUP, SOURCES, s) && EMPTY_GROUP.kids[1..] == []
  {
    assert forall k :: k in EMPTY_GROUP.kids ==> k.Atom?;
  }

  lemma {:induction false} TwiceFields(name: string, s: Schema, p: Policy)
    requires Sql.Ident(name)
    ensures var fs := [ParamField(name, "x"), ParamField(name, "y")];
            FieldsPlan(fs, SOURCES, s, []) == Some(([(E.Par(1), "x"), (E.Par(1), "y")], [Entry(name)]))
            && ValidAll(fs, s, p) && TypedAll(fs, s)
  {
    var x := ParamNode(name, "int64");
    ShortNames();
    LeavesChecked(name, "int64", s, p);
    FieldChecked(x, "x", s, p);
    FieldChecked(x, "y", s, p);
    ParamNumbered(name, "int64", s, []);
    ParamNumbered(name, "int64", s, [Entry(name)]);
    FirstEntry(Entry(name));
    FieldPlanned(x, "x", [ParamField(name, "y")], s, []);
    FieldPlanned(x, "y", [], s, [Entry(name)]);
    assert [ParamField(name, "x")] + [ParamField(name, "y")] == [ParamField(name, "x"), ParamField(name, "y")];
    assert [ParamField(name, "y")] + [] == [ParamField(name, "y")];
    assert [(E.Par(1), "x")] + ([(E.Par(1), "y")] + []) == [(E.Par(1), "x"), (E.Par(1), "y")];
  }

  /** Selecting one parameter twice: two places, one entry. */
  lemma {:induction false} TwiceQuery(name: string, s: Schema, p: Policy, lim: Limits, d: Sql.Dialect)
    requires Plain(s, p, lim) && Sql.Ident(name)
    ensures var c := CompileTree(Query([ParamField(name, "x"), ParamField(name, "y")], []), s, p, lim, d);
            c.Ok? && c.value.stmt.fields == [(E.Par(1), "x"), (E.Par(1), "y")] && c.value.params == [Entry(name)]
  {
    var fs, fields, ps := [ParamField(name, "x"), ParamField(name, "y")], [(E.Par(1), "x"), (E.Par(1), "y")], [Entry(name)];
    TwiceFields(name, s, p);
    FoundIn(fs, []);
    QueryCompiles(fs, [], s, p, lim, d, fields, ps, None, ps, None, ps);
  }

  /** Selecting a bare name under a condition. */
  lemma {:induction false} WhereQuery(w: Tree, e: E.Expr, ps: seq<Param>, s: Schema, p: Policy, lim: Limits, d: Sql.Dialect)
    requires Plain(s, p, lim) && IsList(w, "where") && ValidColumns(w, SOURCES, s, p) && WellTyped(w, SOURCES, s)
    requires CondPlan(Some(w), SOURCES, s, []) == Some((Some(e), ps))
    ensures var c := CompileTree(Query([FieldNode(RefNode("t"), "x")], [w]), s, p, lim, d);
            c.Ok? && c.value.stmt.cond == Some(e) && c.value.params == ps
  {
    var fs := [FieldNode(RefNode("t"), "x")];
    ShortNames();
    RefFields("t", s, p);
    FoundIn(fs, [w]);
    QueryCompiles(fs, [w], s, p, lim, d, [(E.Ref("t"), "x")], [], Some(e), ps, None, ps);
  }

  lemma {:induction false} TwiceFront(name: string, s: Schema, p: Policy, lim: Limits)
    requires Plain(s, p, lim) && Sql.Ident(name)
    ensures var fs := [ParamField(name, "x"), ParamField(name, "y")];
            Front(Query(fs, []), s, p, lim) == Ok((Clauses(fs, []), SOURCES))
  {
    TwiceFields(name, s, p);
    FrontAccepts([ParamField(name, "x"), ParamField(name, "y")], [], s, p, lim);
  }

  // ---- an empty list behind the query ----

  function Trailing(t: Tree): Tree
    requires t.Node?
  {
    Node(t.kids + [Node([])])
  }

  /** Nothing looks at what follows the query. */
  lemma {:induction false} TrailingCompiles(t: Tree, s: Schema, p: Policy, lim: Limits, d: Sql.Dialect)
    requires t.Node? && |t.kids| >= 3
    ensures CompileTree(Trailing(t), s, p, lim, d) == CompileTree(t, s, p, lim, d)
  {
    TrailingFront(t, s, p, lim);
  }

  lemma {:induction false} TrailingFront(t: Tree, s: Schema, p: Policy, lim: Limits)
    requires t.Node? && |t.kids| >= 3
    ensures Front(Trailing(t), s, p, lim) == Front(t, s, p, lim)
  {
    assert forall i :: 0 <= i < 3 ==> Trailing(t).kids[i] == t.kids[i];
  }

  // ---- many parameters ----

  /** The name of n letters c. */
  function Letters(c: char, n: nat): string { seq(n, i => c) }

  /** Parameters with the names of n, n - 1, ..., 1 letters. */
  function Row(c: char, n: nat): (r: seq<Tree>)
    ensures |r| == n
  {
    if n == 0 then [] else [ParamNode(Letters(c, n), "int64")] + Row(c, n - 1)
  }

  function Entries(c: char, n: nat): (r: seq<Param>)
    ensures |r| == n
  {
    if n == 0 then [] else [Entry(Letters(c, n))] + Entries(c, n - 1)
  }

  lemma {:induction false} NewEntry(ps: seq<Param>, name: string)
    requires |ps| < MAX_PARAMS && forall q :: q in ps ==> q.name != name
    ensures Index(ps, Entry(name)) == Some((|ps| + 1, ps + [Entry(name)]))
  {
    assert forall j :: 0 <= j < |ps| ==> ps[j] in ps && ps[j].name != name;
  }

  lemma {:induction false} RowNumbered(c: char, n: nat, s: Schema, ps: seq<Param>)
    requires |ps| + n <= MAX_PARAMS && forall q, k :: q in ps && 0 < k <= n ==> q.name != Letters(c, k)
    requires forall k :: 0 < k <= n ==> Sql.Ident(Letters(c, k))
    ensures var r := NumberAll(Row(c, n), SOURCES, s, ps); r.Some? && r.value.1 == ps + Entries(c, n)
  {
    if n == 0 {
      assert ps + [] == ps;
    } else {
      var name := Letters(c, n);
      var qs := ps + [Entry(name)];
      ParamNumbered(name, "int64", s, ps);
      NewEntry(ps, name);
      assert forall k :: 0 < k < n ==> |Letters(c, k)| == k;
      RowNumbered(c, n - 1, s, qs);
      assert Row(c, n)[1..] == Row(c, n - 1);
      Cat(ps, [Entry(name)], Entries(c, n - 1));
    }
  }

  function ConcatField(c: char, n: nat, out: string): Tree { FieldNode(List("concat", Row(c, n)), out) }

  lemma {:induction false} RowChecked(c: char, n: nat, s: Schema, p: Policy)
    ensures ValidAll(Row(c, n), s, p) && TypedAll(Row(c, n), s)
  {
    if n > 0 {
      RowChecked(c, n - 1, s, p);
      LeavesChecked(Letters(c, n), "int64", s, p);
    }
  }

  lemma {:induction false} ConcatChecked(c: char, n: nat, out: string, s: Schema, p: Policy)
    requires n >= 1
    ensures ValidColumns(ConcatField(c, n, out), SOURCES, s, p) && WellTyped(ConcatField(c, n, out), SOURCES, s)
  {
    var x := List("concat", Row(c, n));
    RowChecked(c, n, s, p);
    ListChecked("concat", Row(c, n), s, p);
    assert ExprType(x, SOURCES, s) == TextT;
    FieldChecked(x, out, s, p);
  }

  lemma {:induction false} ConcatNumbered(c: char, n: nat, s: Schema, ps: seq<Param>)
    requires n >= 1 && |ps| + n <= MAX_PARAMS && forall q, k :: q in ps && 0 < k <= n ==> q.name != Letters(c, k)
    requires forall k :: 0 < k <= n ==> Sql.Ident(Letters(c, k))
    ensures var r := Number(List("concat", Row(c, n)), SOURCES, s, ps); r.Some? && r.value.1 == ps + Entries(c, n)
  {
    var x := List("concat", Row(c, n));
    RowNumbered(c, n, s, ps);
    assert x.kids[1..] == Row(c, n);
    assert ShapeOf(x) == ListS("CONCAT", Row(c, n));
  }

  lemma {:induction false} LettersAreIdent(c: char, n: nat)
    requires 'a' <= c <= 'z' && 0 < n < 64
    ensures Sql.Ident(Letters(c, n))
  {
  }

  lemma {:induction false} EntriesNamed(c: char, n: nat, q: Param)
    requires q in Entries(c, n)
    ensures exists k :: 0 < k <= n && q == Entry(Letters(c, k))
  {
    if q != Entries(c, n)[0] {
      assert q in Entries(c, n - 1);
      EntriesNamed(c, n - 1, q);
    }
  }

  lemma {:induction false} OtherLetters(n: nat, q: Param, k: nat)
    requires q in Entries('a', n) && k > 0
    ensures q.name != Letters('b', k)
  {
    EntriesNamed('a', n, q);
    var j :| 0 < j <= n && q == Entry(Letters('a', j));
    assert Letters('a', j)[0] != Letters('b', k)[0];
  }

  /** Selecting two concatenations of 40 parameters each. */
  const WIDE: seq<Tree> := [ConcatField('a', 40, "x"), ConcatField('b', 40, "y")]

  lemma {:induction false} TwoFields(x: Tree, y: Tree, s: Schema, p1: seq<Param>, p2: seq<Param>) returns (fields: seq<(E.Expr, string)>)
    requires Number(x, SOURCES, s, []).Some? && Number(x, SOURCES, s, []).value.1 == p1
    requires Number(y, SOURCES, s, p1).Some? && Number(y, SOURCES, s, p1).value.1 == p2
    ensures FieldsPlan([FieldNode(x, "x"), FieldNode(y, "y")], SOURCES, s, []) == Some((fields, p2))
  {
    ShortNames();
    FieldPlanned(y, "y", [], s, p1);
    assert FieldsPlan([], SOURCES, s, p2) == Some(([], p2));
    FieldPlanned(x, "x", [FieldNode(y, "y")], s, []);
    assert [FieldNode(x, "x")] + [FieldNode(y, "y")] == [FieldNode(x, "x"), FieldNode(y, "y")];
    assert [FieldNode(y, "y")] + [] == [FieldNode(y, "y")];
    fields := FieldsPlan([FieldNode(x, "x"), FieldNode(y, "y")], SOURCES, s, []).value.0;
  }

  lemma {:induction false} WideNumbered(s: Schema)
    ensures var r := Number(List("concat", Row('a', 40)), SOURCES, s, []); r.Some? && r.value.1 == Entries('a', 40)
    ensures var r := Number(List("concat", Row('b', 40)), SOURCES, s, Entries('a', 40)); r.Some? && r.value.1 == Entries('a', 40) + Entries('b', 40)
  {
    var ps := Entries('a', 40);
    forall k | 0 < k <= 40
      ensures Sql.Ident(Letters('a', k)) && Sql.Ident(Letters('b', k))
    {
      LettersAreIdent('a', k);
      LettersAreIdent('b', k);
    }
    forall q, k | q in ps && 0 < k <= 40
      ensures q.name != Letters('b', k)
    {
      OtherLetters(40, q, k);
    }
    ConcatNumbered('a', 40, s, []);
    ConcatNumbered('b', 40, s, ps);
    assert [] + ps == ps;
  }

  lemma {:induction false} WideQuery(s: Schema, p: Policy, lim: Limits, d: Sql.Dialect)
    requires Plain(s, p, lim)
    ensures var c := CompileTree(Query(WIDE, []), s, p, lim, d); c.Ok? && |c.value.params| == 80
  {
    var ps := Entries('a', 40) + Entries('b', 40);
    WideNumbered(s);
    var fields := TwoFields(List("concat", Row('a', 40)), List("concat", Row('b', 40)), s, Entries('a', 40), ps);
    ConcatChecked('a', 40, "x", s, p);
    ConcatChecked('b', 40, "y", s, p);
    FoundIn(WIDE, []);
    QueryCompiles(WIDE, [], s, p, lim, d, fields, ps, None, ps, None, ps);
  }
}
