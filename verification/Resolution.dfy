/**
  Every column the statement names as alias.col is one the policy lets the caller see. A bare name
  written through (ref n) is not checked by the compiler; RefsDecideExposure says exactly when an
  accepted statement exposes a denied column.
 */
module Resolution {
  import opened Wrappers
  import opened Sexpr
  import opened Catalog
  import opened Emit
  import opened Compile
  import opened CompileProps
  import Sql
  import E = SqlExpr
  import St = Statement
  import Samples

  /** The i-th source is the first of this alias. */
  predicate FirstNamed(src: seq<Source>, i: nat, alias: string) {
    i < |src| && src[i].alias == alias && forall j :: 0 <= j < i ==> src[j].alias != alias
  }

  /** A column of the schema that is not denied, in a table that exists and is allowed. */
  ghost predicate Granted(o: Source, col: string, s: Schema, p: Policy) {
    && (o.schema, o.table) in s.tables && (o.schema, o.table) in p.allow
    && (exists c :: c in s.cols && c.schema == o.schema && c.table == o.table && c.name == col)
    && (o.schema, o.table, col) !in p.deny
  }

  /** alias.col is a granted column of the first source of that alias. */
  ghost predicate Visible(alias: string, col: string, src: seq<Source>, s: Schema, p: Policy) {
    exists i: nat :: FirstNamed(src, i, alias) && Granted(src[i], col, s, p)
  }

  lemma {:induction false} ResolvedIsVisible(alias: string, col: string, src: seq<Source>, s: Schema, p: Policy)
    ensures var i := SourceIndex(src, alias);
            (i < |src| && Usable(s, p, src[i]) && ColFind(s, src[i].schema, src[i].table, col).Some? && !Denied(p, src[i].schema, src[i].table, col))
            <==> Visible(alias, col, src, s, p)
  {
    var i := SourceIndex(src, alias);
    if i < |src| {
      assert FirstNamed(src, i, alias);
    }
  }

  /** All columns written with an alias in an expression, however deep. */
  ghost predicate Sees(e: E.Expr, src: seq<Source>, s: Schema, p: Policy) {
    match e
    case Col(a, c) => Visible(a, c, src, s, p)
    case Par(_) => true
    case Ref(_) => true
    case Call(_, _, args) => forall x :: x in args ==> Sees(x, src, s, p)
    case Over(a, part, o, _) => Sees(a, src, s, p) && Sees(o, src, s, p) && forall x :: x in part ==> Sees(x, src, s, p)
    case Bin(_, l, r) => Sees(l, src, s, p) && Sees(r, src, s, p)
    case And(es) => forall x :: x in es ==> Sees(x, src, s, p)
    case Or(es) => forall x :: x in es ==> Sees(x, src, s, p)
    case Not(x) => Sees(x, src, s, p)
    case IsNull(x, _) => Sees(x, src, s, p)
  }

  ghost predicate AllUsable(src: seq<Source>, s: Schema, p: Policy) {
    forall o :: o in src ==> Usable(s, p, o)
  }

  ghost predicate ValidAll(xs: seq<Tree>, src: seq<Source>, s: Schema, p: Policy) {
    forall x :: x in xs ==> ValidColumns(x, src, s, p)
  }

  /** What a shape holds has been checked with the node itself. */
  lemma {:induction false} ShapeValid(x: Tree, src: seq<Source>, s: Schema, p: Policy)
    requires ValidColumns(x, src, s, p)
    ensures match ShapeOf(x)
            case ColumnS(a, c) =>
              SourceIndex(src, a) < |src| && var o := src[SourceIndex(src, a)];
              ColFind(s, o.schema, o.table, c).Some? && !Denied(p, o.schema, o.table, c)
            case WindowS(a, part, o, _) => ValidColumns(a, src, s, p) && ValidAll(part, src, s, p) && ValidColumns(o, src, s, p)
            case UnaryS(_, _, a) => ValidColumns(a, src, s, p)
            case BinaryS(_, l, r) => ValidColumns(l, src, s, p) && ValidColumns(r, src, s, p)
            case JunctionS(_, args) => ValidAll(args, src, s, p)
            case NotS(a) => ValidColumns(a, src, s, p)
            case NullS(_, a) => ValidColumns(a, src, s, p)
            case ListS(_, args) => ValidAll(args, src, s, p)
            case _ => true
  {
    if !ShapeOf(x).NoShape? {
      var k := x.kids;
      assert forall y :: y in k[1..] ==> y in k;
      assert |k| >= 3 ==> k[1] in k && k[2] in k;
      assert |k| == 2 ==> k[1] in k;
      if ShapeOf(x).WindowS? {
        assert k[3] in k;
        assert k[3].kids[1] in k[3].kids;
        assert forall y :: y in k[2].kids[1..] ==> y in k[2].kids;
      }
    }
  }

  lemma {:induction false} NumberSees(x: Tree, src: seq<Source>, s: Schema, p: Policy, ps: seq<Param>)
    requires ValidColumns(x, src, s, p) && AllUsable(src, s, p) && Number(x, src, s, ps).Some?
    ensures Sees(Number(x, src, s, ps).value.0, src, s, p)
    decreases Weight(x), 0
  {
    ShapeSmaller(x);
    ShapeValid(x, src, s, p);
    match ShapeOf(x)
    case NoShape =>
    case ColumnS(a, c) => assert src[SourceIndex(src, a)] in src;
    case ParamS(_, _) =>
    case RefS(_) =>
    case WindowS(a, part, o, _) =>
      NumberSees(a, src, s, p, ps);
      var p1 := Number(a, src, s, ps).value.1;
      NumberAllSees(part, src, s, p, p1);
      NumberSees(o, src, s, p, NumberAll(part, src, s, p1).value.1);
    case UnaryS(f, _, a) => NumberSees(a, src, s, p, ps);
    case BinaryS(_, l, r) =>
      NumberSees(l, src, s, p, ps);
      NumberSees(r, src, s, p, Number(l, src, s, ps).value.1);
    case JunctionS(_, args) => NumberAllSees(args, src, s, p, ps);
    case NotS(a) => NumberSees(a, src, s, p, ps);
    case NullS(_, a) => NumberSees(a, src, s, p, ps);
    case ListS(_, args) => NumberAllSees(args, src, s, p, ps);
  }

  lemma {:induction false} NumberAllSees(xs: seq<Tree>, src: seq<Source>, s: Schema, p: Policy, ps: seq<Param>)
    requires ValidAll(xs, src, s, p) && AllUsable(src, s, p) && NumberAll(xs, src, s, ps).Some?
    ensures forall e :: e in NumberAll(xs, src, s, ps).value.0 ==> Sees(e, src, s, p)
    decreases WeightAll(xs), 1
  {
    if xs != [] {
      NumberSees(xs[0], src, s, p, ps);
      NumberAllSees(xs[1..], src, s, p, Number(xs[0], src, s, ps).value.1);
    }
  }

  // ---- the clauses ----

  lemma {:induction false} FieldsSee(fs: seq<Tree>, src: seq<Source>, s: Schema, p: Policy, ps: seq<Param>)
    requires ValidAll(fs, src, s, p) && AllUsable(src, s, p) && FieldsPlan(fs, src, s, ps).Some?
    ensures forall f :: f in FieldsPlan(fs, src, s, ps).value.0 ==> Sees(f.0, src, s, p)
  {
    if fs != [] {
      assert fs[0] in fs && fs[0].kids[1] in fs[0].kids;
      NumberSees(fs[0].kids[1], src, s, p, ps);
      FieldsSee(fs[1..], src, s, p, Number(fs[0].kids[1], src, s, ps).value.1);
    }
  }

  lemma {:induction false} JoinsSee(cs: seq<Tree>, src: seq<Source>, i: nat, s: Schema, p: Policy, ps: seq<Param>)
    requires ValidAll(cs, src, s, p) && AllUsable(src, s, p) && i <= |src| && JoinsPlan(cs, src, i, s, ps).Some?
    ensures forall j :: j in JoinsPlan(cs, src, i, s, ps).value.0 ==> Sees(j.on, src, s, p)
    decreases |src| - i
  {
    if i < |src| {
      var x := JoinNode(cs, src[i].alias).value;
      assert x.kids[4] in x.kids;
      NumberSees(x.kids[4], src, s, p, ps);
      JoinsSee(cs, src, i + 1, s, p, Number(x.kids[4], src, s, ps).value.1);
    }
  }

  lemma {:induction false} CondSees(x: Option<Tree>, src: seq<Source>, s: Schema, p: Policy, ps: seq<Param>)
    requires (x.Some? ==> ValidColumns(x.value, src, s, p)) && AllUsable(src, s, p) && CondPlan(x, src, s, ps).Some?
    ensures var c := CondPlan(x, src, s, ps).value.0; c.Some? ==> Sees(c.value, src, s, p)
  {
    if x.Some? {
      assert x.value.kids[1] in x.value.kids;
      NumberSees(x.value.kids[1], src, s, p, ps);
    }
  }

  lemma {:induction false} GroupSees(x: Option<Tree>, src: seq<Source>, s: Schema, p: Policy, ps: seq<Param>)
    requires (x.Some? ==> ValidColumns(x.value, src, s, p)) && AllUsable(src, s, p) && GroupPlan(x, src, s, ps).Some?
    ensures var g := GroupPlan(x, src, s, ps).value.0; g.Some? ==> forall e :: e in g.value ==> Sees(e, src, s, p)
  {
    if x.Some? {
      NumberAllSees(x.value.kids[1..], src, s, p, ps);
    }
  }

  lemma {:induction false} OrderSees(x: Option<Tree>, src: seq<Source>, s: Schema, p: Policy, ps: seq<Param>)
    requires (x.Some? ==> ValidColumns(x.value, src, s, p)) && AllUsable(src, s, p) && OrderPlan(x, src, s, ps).Some?
    ensures var o := OrderPlan(x, src, s, ps).value.0; o.Some? ==> Sees(o.value.0, src, s, p)
  {
    if x.Some? {
      assert x.value.kids[1] in x.value.kids;
      NumberSees(x.value.kids[1], src, s, p, ps);
    }
  }

  lemma {:induction false} JoinedUsable(cs: seq<Tree>, srcs: seq<Source>, s: Schema, p: Policy)
    requires AllUsable(srcs, s, p) && JoinSources(cs, srcs, s, p).Ok?
    ensures AllUsable(JoinSources(cs, srcs, s, p).value, s, p)
  {
    if cs != [] {
      JoinedUsable(cs[1..], if IsList(cs[0], "join") then srcs + [ParseSource(cs[0], 2, 3).value] else srcs, s, p);
    }
  }

  /** Every expression of a statement, injected predicates apart. */
  ghost predicate StmtSees(q: St.Stmt, src: seq<Source>, s: Schema, p: Policy) {
    && (forall f :: f in q.fields ==> Sees(f.0, src, s, p))
    && (forall j :: j in q.joins ==> Sees(j.on, src, s, p))
    && (q.cond.Some? ==> Sees(q.cond.value, src, s, p))
    && (q.group.Some? ==> forall e :: e in q.group.value ==> Sees(e, src, s, p))
    && (q.order.Some? ==> Sees(q.order.value.0, src, s, p))
  }

  lemma {:induction false} RunValid(root: Tree, s: Schema, p: Policy, lim: Limits, d: Sql.Dialect, c: Compiled, r: Run)
    requires Accepted(root, s, p, lim, d, c, r)
    ensures AllUsable(r.src, s, p) && ValidAll(r.cs, r.src, s, p)
  {
    FrontFacts(root, s, p, lim);
    JoinedUsable(r.cs, [FromSource(FindClause(r.cs, "from").value).value], s, p);
    var q := root.kids[2];
    assert forall x :: x in r.cs ==> x in q.kids;
  }

  lemma {:induction false} UpperSees(root: Tree, s: Schema, p: Policy, lim: Limits, d: Sql.Dialect, c: Compiled, r: Run)
    requires Accepted(root, s, p, lim, d, c, r)
    ensures (forall f :: f in c.stmt.fields ==> Sees(f.0, r.src, s, p)) && (forall j :: j in c.stmt.joins ==> Sees(j.on, r.src, s, p))
  {
    RunValid(root, s, p, lim, d, c, r);
    var sel := FindClause(r.cs, "select").value;
    assert ValidColumns(sel, r.src, s, p);
    FieldsSee(sel.kids[1..], r.src, s, p, []);
    JoinsSee(r.cs, r.src, 1, s, p, r.p1);
  }

  lemma {:induction false} LowerSees(root: Tree, s: Schema, p: Policy, lim: Limits, d: Sql.Dialect, c: Compiled, r: Run)
    requires Accepted(root, s, p, lim, d, c, r)
    ensures c.stmt.cond.Some? ==> Sees(c.stmt.cond.value, r.src, s, p)
    ensures c.stmt.group.Some? ==> forall e :: e in c.stmt.group.value ==> Sees(e, r.src, s, p)
    ensures c.stmt.order.Some? ==> Sees(c.stmt.order.value.0, r.src, s, p)
  {
    RunValid(root, s, p, lim, d, c, r);
    CondSees(FindClause(r.cs, "where"), r.src, s, p, r.p2);
    GroupSees(FindClause(r.cs, "group-by"), r.src, s, p, r.p4);
    OrderSees(FindClause(r.cs, "order-by"), r.src, s, p, r.p5);
  }

  /**
    In an accepted query every alias.col written anywhere, at any depth, is a column of the schema
    that the policy does not deny, on a source whose table the policy allows.
   */
  lemma {:induction false} OnlyVisibleColumns(root: Tree, s: Schema, p: Policy, lim: Limits, d: Sql.Dialect) returns (r: Run)
    requires CompileTree(root, s, p, lim, d).Ok?
    ensures var c := CompileTree(root, s, p, lim, d).value;
            Accepted(root, s, p, lim, d, c, r) && AllUsable(r.src, s, p) && StmtSees(c.stmt, r.src, s, p)
  {
    var c := CompileTree(root, s, p, lim, d).value;
    r := TakeApart(root, s, p, lim, d);
    RunValid(root, s, p, lim, d, c, r);
    UpperSees(root, s, p, lim, d, c, r);
    LowerSees(root, s, p, lim, d, c, r);
  }

  // ---- bare names ----

  /** A bare name reaches every source whose table has such a column; this one reaches a denied column. */
  predicate NamesDenied(n: string, src: seq<Source>, p: Policy) {
    exists o :: o in src && (o.schema, o.table, n) in p.deny
  }

  /** A denied column can be read through e, by alias or by its bare name. */
  ghost predicate Exposes(e: E.Expr, src: seq<Source>, p: Policy) {
    match e
    case Col(a, c) => exists i: nat :: FirstNamed(src, i, a) && (src[i].schema, src[i].table, c) in p.deny
    case Par(_) => false
    case Ref(n) => NamesDenied(n, src, p)
    case Call(_, _, args) => exists x :: x in args && Exposes(x, src, p)
    case Over(a, part, o, _) => Exposes(a, src, p) || Exposes(o, src, p) || exists x :: x in part && Exposes(x, src, p)
    case Bin(_, l, r) => Exposes(l, src, p) || Exposes(r, src, p)
    case And(es) => exists x :: x in es && Exposes(x, src, p)
    case Or(es) => exists x :: x in es && Exposes(x, src, p)
    case Not(x) => Exposes(x, src, p)
    case IsNull(x, _) => Exposes(x, src, p)
  }

  ghost predicate AnyExposes(es: seq<E.Expr>, src: seq<Source>, p: Policy) { exists e :: e in es && Exposes(e, src, p) }

  /** The bare names a node writes. */
  function Refs(x: Tree): set<string>
    decreases Weight(x), 0
  {
    ShapeSmaller(x);
    match ShapeOf(x)
    case RefS(n) => {n}
    case WindowS(a, part, o, _) => Refs(a) + RefsAll(part) + Refs(o)
    case UnaryS(_, _, a) => Refs(a)
    case BinaryS(_, l, r) => Refs(l) + Refs(r)
    case JunctionS(_, args) => RefsAll(args)
    case NotS(a) => Refs(a)
    case NullS(_, a) => Refs(a)
    case ListS(_, args) => RefsAll(args)
    case _ => {}
  }

  function RefsAll(xs: seq<Tree>): set<string>
    decreases WeightAll(xs), 1
  {
    if xs == [] then {} else Refs(xs[0]) + RefsAll(xs[1..])
  }

  predicate AnyDenied(ns: set<string>, src: seq<Source>, p: Policy) { exists n :: n in ns && NamesDenied(n, src, p) }

  lemma {:induction false} AnyDeniedUnion(a: set<string>, b: set<string>, src: seq<Source>, p: Policy)
    ensures AnyDenied(a + b, src, p) <==> AnyDenied(a, src, p) || AnyDenied(b, src, p)
  {
  }

  /** Checked columns expose nothing, so an expression exposes what its bare names do. */
  lemma {:induction false} NumberExposes(x: Tree, src: seq<Source>, s: Schema, p: Policy, ps: seq<Param>)
    requires ValidColumns(x, src, s, p) && Number(x, src, s, ps).Some?
    ensures Exposes(Number(x, src, s, ps).value.0, src, p) <==> AnyDenied(Refs(x), src, p)
    decreases Weight(x), 1
  {
    ShapeSmaller(x);
    ShapeValid(x, src, s, p);
    match ShapeOf(x)
    case NoShape =>
    case ColumnS(_, _) =>
    case ParamS(_, _) =>
    case RefS(n) => assert Refs(x) == {n};
    case WindowS(_, _, _, _) => WindowExposes(x, src, s, p, ps);
    case UnaryS(_, _, a) => NumberExposes(a, src, s, p, ps);
    case BinaryS(_, l, r) =>
      NumberExposes(l, src, s, p, ps);
      NumberExposes(r, src, s, p, Number(l, src, s, ps).value.1);
      AnyDeniedUnion(Refs(l), Refs(r), src, p);
    case JunctionS(_, args) => NumberAllExpose(args, src, s, p, ps);
    case NotS(a) => NumberExposes(a, src, s, p, ps);
    case NullS(_, a) => NumberExposes(a, src, s, p, ps);
    case ListS(_, args) => NumberAllExpose(args, src, s, p, ps);
  }

  lemma {:induction false} WindowExposes(x: Tree, src: seq<Source>, s: Schema, p: Policy, ps: seq<Param>)
    requires ShapeOf(x).WindowS? && ValidColumns(x, src, s, p) && Number(x, src, s, ps).Some?
    ensures Exposes(Number(x, src, s, ps).value.0, src, p) <==> AnyDenied(Refs(x), src, p)
    decreases Weight(x), 0
  {
    ShapeSmaller(x);
    ShapeValid(x, src, s, p);
    var a, part, o := ShapeOf(x).arg, ShapeOf(x).part, ShapeOf(x).order;
    var p1 := Number(a, src, s, ps).value.1;
    NumberExposes(a, src, s, p, ps);
    NumberAllExpose(part, src, s, p, p1);
    NumberExposes(o, src, s, p, NumberAll(part, src, s, p1).value.1);
    AnyDeniedUnion(Refs(a), RefsAll(part), src, p);
    AnyDeniedUnion(Refs(a) + RefsAll(part), Refs(o), src, p);
  }

  lemma {:induction false} AnyCons(e: E.Expr, es: seq<E.Expr>, src: seq<Source>, p: Policy)
    ensures AnyExposes([e] + es, src, p) <==> Exposes(e, src, p) || AnyExposes(es, src, p)
  {
    var all := [e] + es;
    assert forall x :: x in all <==> x == e || x in es;
  }

  lemma {:induction false} NumberAllExpose(xs: seq<Tree>, src: seq<Source>, s: Schema, p: Policy, ps: seq<Param>)
    requires ValidAll(xs, src, s, p) && NumberAll(xs, src, s, ps).Some?
    ensures AnyExposes(NumberAll(xs, src, s, ps).value.0, src, p) <==> AnyDenied(RefsAll(xs), src, p)
    decreases WeightAll(xs), 2
  {
    if xs != [] {
      var (e, p1) := Number(xs[0], src, s, ps).value;
      NumberExposes(xs[0], src, s, p, ps);
      NumberAllExpose(xs[1..], src, s, p, p1);
      AnyCons(e, NumberAll(xs[1..], src, s, p1).value.0, src, p);
      AnyDeniedUnion(Refs(xs[0]), RefsAll(xs[1..]), src, p);
    }
  }

  // ---- bare names of a query ----

  function FieldExprs(fs: seq<(E.Expr, string)>): (r: seq<E.Expr>)
    ensures |r| == |fs| && forall i :: 0 <= i < |fs| ==> r[i] == fs[i].0
  {
    if fs == [] then [] else [fs[0].0] + FieldExprs(fs[1..])
  }

  function JoinExprs(js: seq<St.Join>): (r: seq<E.Expr>)
    ensures |r| == |js| && forall i :: 0 <= i < |js| ==> r[i] == js[i].on
  {
    if js == [] then [] else [js[0].on] + JoinExprs(js[1..])
  }

  function FieldRefs(fs: seq<Tree>): set<string> {
    if fs == [] then {} else (if Form(fs[0], "field", 3) then Refs(fs[0].kids[1]) else {}) + FieldRefs(fs[1..])
  }

  function JoinRefs(cs: seq<Tree>, src: seq<Source>, i: nat): set<string>
    requires i <= |src|
    decreases |src| - i
  {
    if i == |src| then {}
    else (match JoinNode(cs, src[i].alias)
          case Some(j) => if |j.kids| < 5 then {} else Refs(j.kids[4])
          case None => {})
         + JoinRefs(cs, src, i + 1)
  }

  function ClauseRefs(x: Option<Tree>): set<string> {
    if x.Some? && x.value.Node? && |x.value.kids| >= 2 then Refs(x.value.kids[1]) else {}
  }

  function GroupRefs(x: Option<Tree>): set<string> {
    if x.Some? && x.value.Node? && x.value.kids != [] then RefsAll(x.value.kids[1..]) else {}
  }

  function SelectRefs(x: Option<Tree>): set<string> {
    if x.Some? && x.value.Node? && x.value.kids != [] then FieldRefs(x.value.kids[1..]) else {}
  }

  /** The bare names that the clauses of a query write, in the parts of them that are written. */
  function QueryRefs(cs: seq<Tree>, src: seq<Source>): set<string>
    requires src != []
  {
    SelectRefs(FindClause(cs, "select")) + JoinRefs(cs, src, 1) + ClauseRefs(FindClause(cs, "where"))
    + GroupRefs(FindClause(cs, "group-by")) + ClauseRefs(FindClause(cs, "order-by"))
  }

  lemma {:induction false} FieldsExpose(fs: seq<Tree>, src: seq<Source>, s: Schema, p: Policy, ps: seq<Param>)
    requires ValidAll(fs, src, s, p) && FieldsPlan(fs, src, s, ps).Some?
    ensures AnyExposes(FieldExprs(FieldsPlan(fs, src, s, ps).value.0), src, p) <==> AnyDenied(FieldRefs(fs), src, p)
  {
    if fs != [] {
      var x := fs[0].kids[1];
      assert fs[0] in fs && x in fs[0].kids;
      var (e, p1) := Number(x, src, s, ps).value;
      NumberExposes(x, src, s, p, ps);
      FieldsExpose(fs[1..], src, s, p, p1);
      var all, rest := FieldsPlan(fs, src, s, ps).value.0, FieldsPlan(fs[1..], src, s, p1).value.0;
      assert all[1..] == rest && all[0].0 == e;
      AnyCons(e, FieldExprs(rest), src, p);
      AnyDeniedUnion(Refs(x), FieldRefs(fs[1..]), src, p);
    }
  }

  lemma {:induction false} JoinsExpose(cs: seq<Tree>, src: seq<Source>, i: nat, s: Schema, p: Policy, ps: seq<Param>)
    requires ValidAll(cs, src, s, p) && i <= |src| && JoinsPlan(cs, src, i, s, ps).Some?
    ensures AnyExposes(JoinExprs(JoinsPlan(cs, src, i, s, ps).value.0), src, p) <==> AnyDenied(JoinRefs(cs, src, i), src, p)
    decreases |src| - i
  {
    if i < |src| {
      var j := JoinNode(cs, src[i].alias).value;
      assert j.kids[4] in j.kids;
      var (e, p1) := Number(j.kids[4], src, s, ps).value;
      NumberExposes(j.kids[4], src, s, p, ps);
      JoinsExpose(cs, src, i + 1, s, p, p1);
      var all, rest := JoinsPlan(cs, src, i, s, ps).value.0, JoinsPlan(cs, src, i + 1, s, p1).value.0;
      assert all[1..] == rest && all[0].on == e;
      AnyCons(e, JoinExprs(rest), src, p);
      AnyDeniedUnion(Refs(j.kids[4]), JoinRefs(cs, src, i + 1), src, p);
    }
  }

  lemma {:induction false} CondExposes(x: Option<Tree>, src: seq<Source>, s: Schema, p: Policy, ps: seq<Param>)
    requires (x.Some? ==> ValidColumns(x.value, src, s, p)) && CondPlan(x, src, s, ps).Some?
    ensures var c := CondPlan(x, src, s, ps).value.0;
            (c.Some? && Exposes(c.value, src, p)) <==> AnyDenied(ClauseRefs(x), src, p)
  {
    if x.Some? {
      assert x.value.kids[1] in x.value.kids;
      NumberExposes(x.value.kids[1], src, s, p, ps);
    }
  }

  lemma {:induction false} GroupExposes(x: Option<Tree>, src: seq<Source>, s: Schema, p: Policy, ps: seq<Param>)
    requires (x.Some? ==> ValidColumns(x.value, src, s, p)) && GroupPlan(x, src, s, ps).Some?
    ensures var g := GroupPlan(x, src, s, ps).value.0;
            (g.Some? && AnyExposes(g.value, src, p)) <==> AnyDenied(GroupRefs(x), src, p)
  {
    if x.Some? {
      NumberAllExpose(x.value.kids[1..], src, s, p, ps);
    }
  }

  lemma {:induction false} OrderExposes(x: Option<Tree>, src: seq<Source>, s: Schema, p: Policy, ps: seq<Param>)
    requires (x.Some? ==> ValidColumns(x.value, src, s, p)) && OrderPlan(x, src, s, ps).Some?
    ensures var o := OrderPlan(x, src, s, ps).value.0;
            (o.Some? && Exposes(o.value.0, src, p)) <==> AnyDenied(ClauseRefs(x), src, p)
  {
    if x.Some? {
      assert x.value.kids[1] in x.value.kids;
      NumberExposes(x.value.kids[1], src, s, p, ps);
    }
  }

  /** A denied column can be read through some clause of the statement. */
  ghost predicate StmtExposes(q: St.Stmt, src: seq<Source>, p: Policy) {
    || AnyExposes(FieldExprs(q.fields), src, p)
    || AnyExposes(JoinExprs(q.joins), src, p)
    || (q.cond.Some? && Exposes(q.cond.value, src, p))
    || (q.group.Some? && AnyExposes(q.group.value, src, p))
    || (q.order.Some? && Exposes(q.order.value.0, src, p))
  }

  lemma {:induction false} QueryRefsDenied(cs: seq<Tree>, src: seq<Source>, p: Policy)
    requires src != []
    ensures AnyDenied(QueryRefs(cs, src), src, p) <==>
            || AnyDenied(SelectRefs(FindClause(cs, "select")), src, p) || AnyDenied(JoinRefs(cs, src, 1), src, p)
            || AnyDenied(ClauseRefs(FindClause(cs, "where")), src, p) || AnyDenied(GroupRefs(FindClause(cs, "group-by")), src, p)
            || AnyDenied(ClauseRefs(FindClause(cs, "order-by")), src, p)
  {
    var a, b, c := SelectRefs(FindClause(cs, "select")), JoinRefs(cs, src, 1), ClauseRefs(FindClause(cs, "where"));
    var g, o := GroupRefs(FindClause(cs, "group-by")), ClauseRefs(FindClause(cs, "order-by"));
    AnyDeniedUnion(a, b, src, p);
    AnyDeniedUnion(a + b, c, src, p);
    AnyDeniedUnion(a + b + c, g, src, p);
    AnyDeniedUnion(a + b + c + g, o, src, p);
  }

  lemma {:induction false} UpperExposes(root: Tree, s: Schema, p: Policy, lim: Limits, d: Sql.Dialect, c: Compiled, r: Run)
    requires Accepted(root, s, p, lim, d, c, r)
    ensures AnyExposes(FieldExprs(c.stmt.fields), r.src, p) <==> AnyDenied(SelectRefs(FindClause(r.cs, "select")), r.src, p)
    ensures AnyExposes(JoinExprs(c.stmt.joins), r.src, p) <==> AnyDenied(JoinRefs(r.cs, r.src, 1), r.src, p)
  {
    RunValid(root, s, p, lim, d, c, r);
    var sel := FindClause(r.cs, "select").value;
    assert ValidColumns(sel, r.src, s, p);
    FieldsExpose(sel.kids[1..], r.src, s, p, []);
    JoinsExpose(r.cs, r.src, 1, s, p, r.p1);
  }

  lemma {:induction false} LowerExposes(root: Tree, s: Schema, p: Policy, lim: Limits, d: Sql.Dialect, c: Compiled, r: Run)
    requires Accepted(root, s, p, lim, d, c, r)
    ensures (c.stmt.cond.Some? && Exposes(c.stmt.cond.value, r.src, p)) <==> AnyDenied(ClauseRefs(FindClause(r.cs, "where")), r.src, p)
    ensures (c.stmt.group.Some? && AnyExposes(c.stmt.group.value, r.src, p)) <==> AnyDenied(GroupRefs(FindClause(r.cs, "group-by")), r.src, p)
    ensures (c.stmt.order.Some? && Exposes(c.stmt.order.value.0, r.src, p)) <==> AnyDenied(ClauseRefs(FindClause(r.cs, "order-by")), r.src, p)
  {
    RunValid(root, s, p, lim, d, c, r);
    CondExposes(FindClause(r.cs, "where"), r.src, s, p, r.p2);
    GroupExposes(FindClause(r.cs, "group-by"), r.src, s, p, r.p4);
    OrderExposes(FindClause(r.cs, "order-by"), r.src, s, p, r.p5);
  }

  /**
    An accepted statement exposes a denied column exactly when the request writes a bare name
    (ref n) that is denied on one of its own sources.
   */
  lemma {:induction false} RefsDecideExposure(root: Tree, s: Schema, p: Policy, lim: Limits, d: Sql.Dialect)
    requires CompileTree(root, s, p, lim, d).Ok?
    ensures Front(root, s, p, lim).Ok? && Front(root, s, p, lim).value.1 != []
    ensures var (cs, src) := Front(root, s, p, lim).value;
            StmtExposes(CompileTree(root, s, p, lim, d).value.stmt, src, p) <==> AnyDenied(QueryRefs(cs, src), src, p)
  {
    var c := CompileTree(root, s, p, lim, d).value;
    var r := TakeApart(root, s, p, lim, d);
    QueryRefsDenied(r.cs, r.src, p);
    UpperExposes(root, s, p, lim, d, c, r);
    LowerExposes(root, s, p, lim, d, c, r);
  }

  /** A request that is accepted and selects a denied column by its bare name. */
  lemma {:induction false} RefSlips(s: Schema, p: Policy, lim: Limits, d: Sql.Dialect)
    requires Samples.Plain(s, p, lim) && ("public", "t", "ssn") in p.deny
    ensures var c := CompileTree(Samples.Query([Samples.FieldNode(Samples.RefNode("ssn"), "x")], []), s, p, lim, d);
            c.Ok? && c.value.stmt.fields == [(E.Ref("ssn"), "x")] && StmtExposes(c.value.stmt, Samples.SOURCES, p)
  {
    Samples.ShortNames();
    Samples.RefQuery("ssn", s, p, lim, d);
    assert Samples.SOURCES[0] in Samples.SOURCES && NamesDenied("ssn", Samples.SOURCES, p);
    assert FieldExprs([(E.Ref("ssn"), "x")])[0] == E.Ref("ssn");
    assert E.Ref("ssn") in FieldExprs([(E.Ref("ssn"), "x")]);
  }
}
