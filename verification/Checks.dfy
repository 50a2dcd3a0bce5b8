/**
  What each check of the compiler asks, in closed form: exactly which columns, types, limits,
  sources, parameters and tenant rules pass.
 */
module Checks {
  import opened Wrappers
  import opened Sexpr
  import opened Decimal
  import opened Catalog
  import opened Emit
  import opened Compile
  import opened Language
  import Recovery
  import Resolution
  import Typing
  import Sql

  // ---- the frame of a request ----

  predicate ClauseWord(h: string) {
    match h
    case "from" => true
    case "join" => true
    case "select" => true
    case "where" => true
    case "group-by" => true
    case "order-by" => true
    case "limit" => true
    case _ => false
  }

  /** The head of a list, if it is a word. */
  function Head(x: Tree): Option<string> {
    if x.Node? && x.kids != [] && x.kids[0].Atom? then Some(x.kids[0].text) else None
  }

  lemma {:induction false} ClauseNamed(x: Tree)
    ensures ClauseName(x) == if Head(x).Some? && ClauseWord(Head(x).value) then Head(x) else None
  {
  }

  /** The clauses pass exactly when each has one of the seven words, none but join comes twice, and from and select are there. */
  lemma {:induction false} ClausesExactly(cs: seq<Tree>)
    ensures ClausesValid(cs) <==>
            && (forall i :: 0 <= i < |cs| ==> Head(cs[i]).Some? && ClauseWord(Head(cs[i]).value))
            && (forall i, j :: 0 <= i < j < |cs| && Head(cs[i]) == Head(cs[j]) ==> Head(cs[i]) == Some("join"))
            && (exists i :: 0 <= i < |cs| && Head(cs[i]) == Some("from")) && (exists i :: 0 <= i < |cs| && Head(cs[i]) == Some("select"))
  {
    forall i | 0 <= i < |cs|
      ensures ClauseName(cs[i]) == if Head(cs[i]).Some? && ClauseWord(Head(cs[i]).value) then Head(cs[i]) else None
    {
      ClauseNamed(cs[i]);
    }
  }

  /** The root passes exactly when it is (nlsql 1 (query clauses) ...) or says version 2. */
  lemma {:induction false} RootExactly(root: Tree)
    ensures QueryClauses(root).Ok? <==>
            && Head(root) == Some("nlsql") && |root.kids| >= 3 && root.kids[1] in [Atom("1"), Atom("2")]
            && Head(root.kids[2]) == Some("query") && ClausesValid(Recovery.ClausesOf(root))
    ensures QueryClauses(root).Ok? ==> QueryClauses(root).value == Recovery.ClausesOf(root)
  {
  }

  // ---- every node of a request ----

  /** y is x or somewhere inside it. */
  predicate Inside(y: Tree, x: Tree) {
    y == x || (x.Node? && exists k :: k in x.kids && Inside(y, k))
  }

  /** Both of these are atoms, and the column they name is in the schema and not denied. */
  ghost predicate ColumnPasses(y: Tree, src: seq<Source>, s: Schema, p: Policy)
    requires y.Node? && |y.kids| == 3
  {
    && y.kids[1].Atom? && y.kids[2].Atom?
    && exists i: nat :: Resolution.FirstNamed(src, i, y.kids[1].text)
         && (exists c :: c in s.cols && c.schema == src[i].schema && c.table == src[i].table && c.name == y.kids[2].text)
         && (src[i].schema, src[i].table, y.kids[2].text) !in p.deny
  }

  lemma {:induction false} ColumnNode(y: Tree, src: seq<Source>, s: Schema, p: Policy)
    requires Form(y, "column", 3)
    ensures ColumnPasses(y, src, s, p) <==>
            && y.kids[1].Atom? && y.kids[2].Atom? && Resolve(src, s, y.kids[1].text, y.kids[2].text).Some?
            && var o := src[SourceIndex(src, y.kids[1].text)]; !Denied(p, o.schema, o.table, y.kids[2].text)
  {
    if y.kids[1].Atom? && y.kids[2].Atom? {
      var i := SourceIndex(src, y.kids[1].text);
      if i < |src| {
        assert Resolution.FirstNamed(src, i, y.kids[1].text);
        FoundExactly(s.cols, src[i].schema, src[i].table, y.kids[2].text);
      }
    }
  }

  lemma {:induction false} FoundExactly(cols: seq<Column>, sc: string, tn: string, cn: string)
    ensures FindIn(cols, sc, tn, cn).Some? <==> exists c :: c in cols && c.schema == sc && c.table == tn && c.name == cn
  {
    assert forall c :: c in cols ==> (IsColumn(c, sc, tn, cn) <==> c.schema == sc && c.table == tn && c.name == cn);
  }

  /** The column check passes exactly when every column written anywhere in the request does. */
  lemma {:induction false} ColumnsExactly(x: Tree, src: seq<Source>, s: Schema, p: Policy)
    ensures ValidColumns(x, src, s, p) <==> forall y :: Inside(y, x) && Form(y, "column", 3) ==> ColumnPasses(y, src, s, p)
    decreases x
  {
    if Form(x, "column", 3) { ColumnNode(x, src, s, p); }
    if x.Node? {
      forall k | k in x.kids
        ensures ValidColumns(k, src, s, p) <==> forall y :: Inside(y, k) && Form(y, "column", 3) ==> ColumnPasses(y, src, s, p)
      {
        ColumnsExactly(k, src, s, p);
      }
    }
  }

  /** What the type check asks of a node. */
  predicate TypePasses(y: Tree, src: seq<Source>, s: Schema) {
    y.Node? && y.kids != [] ==>
      var h, n := y.kids[0], |y.kids|;
      && (h == Atom("where") && n == 2 ==> ExprType(y.kids[1], src, s) == BooleanT)
      && (h == Atom("join") && n == 5 ==> ExprType(y.kids[4], src, s) == BooleanT)
      && (h == Atom("field") && n == 3 ==> ExprType(y.kids[1], src, s) != UnknownT || IsList(y.kids[1], "ref"))
      && (h == Atom("window") ==> ExprType(y, src, s) != UnknownT)
  }

  /** The type check passes exactly when every node anywhere in the request does. */
  lemma {:induction false} TypesExactly(x: Tree, src: seq<Source>, s: Schema)
    ensures WellTyped(x, src, s) <==> forall y :: Inside(y, x) ==> TypePasses(y, src, s)
    decreases x
  {
    HereTyped(x, src, s);
    assert Inside(x, x);
    if x.Node? {
      forall k | k in x.kids
        ensures WellTyped(k, src, s) <==> forall y :: Inside(y, k) ==> TypePasses(y, src, s)
      {
        TypesExactly(k, src, s);
      }
    }
  }

  lemma {:induction false} HereTyped(x: Tree, src: seq<Source>, s: Schema)
    ensures WellTyped(x, src, s) <==> TypePasses(x, src, s) && (x.Node? ==> forall k :: k in x.kids ==> WellTyped(k, src, s))
  {
  }

  /** The type of every function, by its word and the type t of its operand. */
  lemma {:induction false} FunctionTypes(a: Tree, src: seq<Source>, s: Schema)
    ensures var t := ExprType(a, src, s);
            && ExprType(Form1("count", a), src, s) == ExprType(Form1("count-distinct", a), src, s) == Int64T
            && ExprType(Form1("sum", a), src, s) == ExprType(Form1("sum-distinct", a), src, s)
               == (if t in [Int64T, Uint64T, DecimalT, Float64T] then t else UnknownT)
            && ExprType(Form1("avg", a), src, s) == (if t in [Int64T, Uint64T, DecimalT, Float64T] then DecimalT else UnknownT)
            && ExprType(Form1("min", a), src, s) == ExprType(Form1("max", a), src, s) == ExprType(Form1("abs", a), src, s) == t
            && ExprType(Form1("lower", a), src, s) == ExprType(Form1("upper", a), src, s) == ExprType(Form1("trim", a), src, s) == TextT
  {
    Typing.NumbersAre(ExprType(a, src, s));
    CountTypes(a, src, s);
    SumTypes(a, src, s);
    SameTypes(a, src, s);
  }

  lemma {:induction false} SameTypes(a: Tree, src: seq<Source>, s: Schema)
    ensures ExprType(Form1("min", a), src, s) == ExprType(Form1("max", a), src, s) == ExprType(Form1("abs", a), src, s) == ExprType(a, src, s)
  {
  }

  lemma {:induction false} CountTypes(a: Tree, src: seq<Source>, s: Schema)
    ensures ExprType(Form1("count", a), src, s) == ExprType(Form1("count-distinct", a), src, s) == Int64T
    ensures ExprType(Form1("lower", a), src, s) == ExprType(Form1("upper", a), src, s) == ExprType(Form1("trim", a), src, s) == TextT
  {
  }

  lemma {:induction false} SumTypes(a: Tree, src: seq<Source>, s: Schema)
    ensures var t := ExprType(a, src, s);
            && ExprType(Form1("sum", a), src, s) == ExprType(Form1("sum-distinct", a), src, s) == (if NumericType(t) then t else UnknownT)
            && ExprType(Form1("avg", a), src, s) == (if NumericType(t) then DecimalT else UnknownT)
  {
  }

  lemma {:induction false} ListTypes(args: seq<Tree>, src: seq<Source>, s: Schema)
    requires args != []
    ensures ExprType(Node([Atom("concat")] + args), src, s) == TextT
    ensures ExprType(Node([Atom("coalesce")] + args), src, s) == ExprType(args[0], src, s)
  {
  }

  // ---- limits ----

  /** A limit clause passes exactly when it is a numeral between 1 and the policy's maximum. */
  lemma {:induction false} LimitExactly(x: Tree, p: Policy, lim: Limits)
    ensures LimitOf(Some(x), p, lim).Some? <==> exists n: nat :: Recovery.SaysLimit(x, n) && 0 < n <= p.maxLimit
    ensures LimitOf(Some(x), p, lim).Some? ==> Recovery.SaysLimit(x, LimitOf(Some(x), p, lim).value)
  {
    if LimitOf(Some(x), p, lim).Some? {
      Recovery.LimitSaid(x, p, lim);
    }
    if n: nat :| Recovery.SaysLimit(x, n) && 0 < n <= p.maxLimit {
      var a: string, b: string :| Recovery.IsNumeral(a, b) && x == Form1("limit", Atom(a + b))
                                  && n == if Num(a) <= ULONG_MAX then Num(a) else ULONG_MAX;
      DigitLenAppend(a, b);
      assert (a + b)[..|a|] == a && (a + b)[0] == a[0];
      assert Form(x, "limit", 2);
    }
  }

  // ---- sources ----

  /** Any two identifiers make a from clause, one of them does too. */
  lemma {:induction false} FromExactly(x: Tree)
    requires x.Node? && 2 <= |x.kids| <= 3 && x.kids[0] == Atom("from")
    ensures FromSource(x).Some? <==> forall i :: 1 <= i < |x.kids| ==> x.kids[i].Atom? && Sql.Ident(x.kids[i].text)
    ensures FromSource(x).Some? ==> Recovery.SaysFrom(x, FromSource(x).value)
  {
    if FromSource(x).Some? { Recovery.FromSaid(x); }
  }

  // ---- the parameter table ----

  /** A parameter is refused exactly when its name is taken by another type or origin, or is new and the table is full. */
  lemma {:induction false} IndexExactly(ps: seq<Param>, q: Param)
    requires forall i, j :: 0 <= i < j < |ps| ==> ps[i].name != ps[j].name
    ensures Index(ps, q).None? <==>
            (exists x :: x in ps && x.name == q.name && x != q) || ((forall x :: x in ps ==> x.name != q.name) && |ps| >= 128)
    ensures Index(ps, q).Some? ==> Index(ps, q).value.1 == if q in ps then ps else ps + [q]
  {
    var i := Position(ps, q.name);
    if i < |ps| {
      assert ps[i] in ps;
      forall x | x in ps && x.name == q.name
        ensures x == ps[i]
      {
        var j :| 0 <= j < |ps| && ps[j] == x;
      }
    }
  }

  // ---- tenant rules ----

  predicate RuleAt(p: Policy, k: nat, sc: string, tn: string) {
    && k < |p.tenants| && p.tenants[k].schema == sc && p.tenants[k].table == tn
    && forall j :: 0 <= j < k ==> !(p.tenants[j].schema == sc && p.tenants[j].table == tn)
  }

  predicate ColumnAt(s: Schema, k: nat, sc: string, tn: string, cn: string) {
    && k < |s.cols| && s.cols[k].schema == sc && s.cols[k].table == tn && s.cols[k].name == cn
    && forall j :: 0 <= j < k ==> !(s.cols[j].schema == sc && s.cols[j].table == tn && s.cols[j].name == cn)
  }

  predicate Comparable(t: SqlType, u: SqlType) {
    t == u || (t in [Int64T, Uint64T, DecimalT, Float64T] && u in [Int64T, Uint64T, DecimalT, Float64T])
  }

  lemma {:induction false} RuleFound(rs: seq<TenantRule>, sc: string, tn: string) returns (k: nat)
    requires RuleIn(rs, sc, tn).Some?
    ensures k < |rs| && rs[k] == RuleIn(rs, sc, tn).value && rs[k].schema == sc && rs[k].table == tn
    ensures forall j :: 0 <= j < k ==> !(rs[j].schema == sc && rs[j].table == tn)
  {
    if rs[0].schema == sc && rs[0].table == tn {
      k := 0;
    } else {
      k := RuleFound(rs[1..], sc, tn);
      k := k + 1;
    }
  }

  lemma {:induction false} RuleGiven(rs: seq<TenantRule>, sc: string, tn: string, k: nat)
    requires k < |rs| && rs[k].schema == sc && rs[k].table == tn
    requires forall j :: 0 <= j < k ==> !(rs[j].schema == sc && rs[j].table == tn)
    ensures RuleIn(rs, sc, tn) == Some(rs[k])
  {
    if k > 0 {
      assert forall j :: 0 <= j < k - 1 ==> rs[1..][j] == rs[j + 1];
      RuleGiven(rs[1..], sc, tn, k - 1);
    }
  }

  lemma {:induction false} ColumnGiven(cols: seq<Column>, sc: string, tn: string, cn: string, k: nat)
    requires k < |cols| && IsColumn(cols[k], sc, tn, cn) && forall j :: 0 <= j < k ==> !IsColumn(cols[j], sc, tn, cn)
    ensures FindIn(cols, sc, tn, cn) == Some(cols[k])
  {
    if k > 0 {
      assert forall j :: 0 <= j < k - 1 ==> cols[1..][j] == cols[j + 1];
      ColumnGiven(cols[1..], sc, tn, cn, k - 1);
    }
  }

  /**
    With k the first rule of a table and n the first column of the name it gives: the rule is in
    force, and it passes exactly when that column is a tenant key and its type goes with the type
    the rule declares, if any, and with the runtime's, a uuid unless another is set.
   */
  lemma {:induction false} TenantExactly(p: Policy, s: Schema, sc: string, tn: string, k: nat, n: nat)
    requires RuleAt(p, k, sc, tn) && ColumnAt(s, n, sc, tn, p.tenants[k].col)
    ensures PolicyTenant(p, sc, tn) == Some(p.tenants[k].col)
    ensures TenantValid(p, s, sc, tn) <==> s.cols[n].tenantKey
    ensures var ty, rule := s.cols[n].ty, p.tenants[k].ty;
            TenantTypeValid(p, s, sc, tn) <==>
            s.cols[n].tenantKey && (rule == UnknownT || Comparable(ty, rule))
            && Comparable(ty, if p.runtimeType == UnknownT then UuidT else p.runtimeType)
  {
    RuleGiven(p.tenants, sc, tn, k);
    ColumnGiven(s.cols, sc, tn, p.tenants[k].col, n);
  }

  /** Without such a column no rule passes; without a rule nothing is asked. */
  lemma {:induction false} NoTenant(p: Policy, s: Schema, sc: string, tn: string)
    ensures PolicyTenant(p, sc, tn).None? <==> forall k :: 0 <= k < |p.tenants| ==> !(p.tenants[k].schema == sc && p.tenants[k].table == tn)
    ensures PolicyTenant(p, sc, tn).None? ==> TenantValid(p, s, sc, tn) && TenantTypeValid(p, s, sc, tn)
    ensures PolicyTenant(p, sc, tn).Some?
            && (forall c :: c in s.cols ==> !(c.schema == sc && c.table == tn && c.name == PolicyTenant(p, sc, tn).value)) ==>
              !TenantValid(p, s, sc, tn) && !TenantTypeValid(p, s, sc, tn)
  {
    if PolicyTenant(p, sc, tn).Some? {
      var k := RuleFound(p.tenants, sc, tn);
      FoundExactly(s.cols, sc, tn, PolicyTenant(p, sc, tn).value);
    } else if k :| 0 <= k < |p.tenants| && p.tenants[k].schema == sc && p.tenants[k].table == tn {
      NoRule(p.tenants, sc, tn, k);
    }
  }

  lemma {:induction false} NoRule(rs: seq<TenantRule>, sc: string, tn: string, k: nat)
    requires k < |rs| && rs[k].schema == sc && rs[k].table == tn
    ensures RuleIn(rs, sc, tn).Some?
  {
    if k > 0 && !(rs[0].schema == sc && rs[0].table == tn) {
      NoRule(rs[1..], sc, tn, k - 1);
    }
  }
}
