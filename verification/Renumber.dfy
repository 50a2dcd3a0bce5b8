/** Statements with their parameters renumbered: the text, what it is read as, and the rows it selects. */
module Renumber {
  import opened Wrappers
  import opened Sql
  import opened SqlExpr
  import opened Statement
  import opened ReadBack
  import R = Relational

  type Numbering = nat -> nat

  function Renamed(e: Expr, f: Numbering): Expr
    decreases e, 0
  {
    match e
    case Col(_, _) => e
    case Par(i) => Par(f(i))
    case Ref(_) => e
    case Call(g, distinct, args) => Call(g, distinct, RenamedAll(args, f))
    case Over(a, p, o, desc) => Over(Renamed(a, f), RenamedAll(p, f), Renamed(o, f), desc)
    case Bin(op, l, r) => Bin(op, Renamed(l, f), Renamed(r, f))
    case And(es) => And(RenamedAll(es, f))
    case Or(es) => Or(RenamedAll(es, f))
    case Not(x) => Not(Renamed(x, f))
    case IsNull(x, negated) => IsNull(Renamed(x, f), negated)
  }

  function RenamedAll(es: seq<Expr>, f: Numbering): (r: seq<Expr>)
    ensures |r| == |es| && forall i :: 0 <= i < |es| ==> r[i] == Renamed(es[i], f)
    decreases es, 1
  {
    if es == [] then [] else [Renamed(es[0], f)] + RenamedAll(es[1..], f)
  }

  // ---- the text ----

  function OnePiece(p: Piece, f: Numbering): Piece { if p.Ph? then Ph(f(p.n)) else p }

  function InPieces(ps: seq<Piece>, f: Numbering): (r: seq<Piece>)
    ensures |r| == |ps|
  {
    seq(|ps|, i requires 0 <= i < |ps| => OnePiece(ps[i], f))
  }

  lemma {:induction false} InAppend(a: seq<Piece>, b: seq<Piece>, f: Numbering)
    ensures InPieces(a + b, f) == InPieces(a, f) + InPieces(b, f)
  {
  }

  /** Pieces without placeholders stay as they are. */
  lemma {:induction false} InPlain(ps: seq<Piece>, f: Numbering)
    requires forall i :: 0 <= i < |ps| ==> !ps[i].Ph?
    ensures InPieces(ps, f) == ps
  {
  }

  lemma {:induction false} InFramed(a: seq<Piece>, m: seq<Piece>, z: seq<Piece>, f: Numbering)
    requires (forall i :: 0 <= i < |a| ==> !a[i].Ph?) && (forall i :: 0 <= i < |z| ==> !z[i].Ph?)
    ensures InPieces(a + m + z, f) == a + InPieces(m, f) + z
  {
    InAppend(a, m, f);
    InAppend(a + m, z, f);
    InPlain(a, f);
    InPlain(z, f);
  }

  lemma {:induction false} InParted(a: seq<Piece>, g: seq<Piece>, b: seq<Piece>, f: Numbering)
    requires forall i :: 0 <= i < |g| ==> !g[i].Ph?
    ensures InPieces(a + g + b, f) == InPieces(a, f) + g + InPieces(b, f)
  {
    InAppend(a, g, f);
    InAppend(a + g, b, f);
    InPlain(g, f);
  }

  lemma {:induction false} PlainCall(g: string, distinct: bool)
    ensures forall i :: 0 <= i < |CallHead(g, distinct)| ==> !CallHead(g, distinct)[i].Ph?
  {
  }

  lemma {:induction false} PiecesRenamed(e: Expr, f: Numbering)
    ensures Pieces(Renamed(e, f)) == InPieces(Pieces(e), f)
    decreases e, 0
  {
    match e
    case Col(_, _) => InPlain(Pieces(e), f);
    case Par(_) =>
    case Ref(_) => InPlain(Pieces(e), f);
    case Call(g, distinct, args) =>
      SepRenamed(args, COMMA, f);
      PlainCall(g, distinct);
      InFramed(CallHead(g, distinct), PiecesSep(args, COMMA), [S(")")], f);
    case Over(a, p, o, desc) =>
      PiecesRenamed(a, f);
      SepRenamed(p, COMMA, f);
      PiecesRenamed(o, f);
      InOver(Pieces(a), PiecesSep(p, COMMA), Pieces(o), desc, f);
    case Bin(op, l, r) =>
      PiecesRenamed(l, f);
      PiecesRenamed(r, f);
      InBin(op, Pieces(l), Pieces(r), f);
    case And(es) =>
      SepRenamed(es, AND, f);
      InFramed([S("(")], PiecesSep(es, AND), [S(")")], f);
    case Or(es) =>
      SepRenamed(es, OR, f);
      InFramed([S("(")], PiecesSep(es, OR), [S(")")], f);
    case Not(x) =>
      PiecesRenamed(x, f);
      InFramed([S("("), W("NOT"), Sp], Pieces(x), [S(")")], f);
    case IsNull(x, negated) =>
      PiecesRenamed(x, f);
      InFramed([S("(")], Pieces(x), NullTest(negated), f);
  }

  lemma {:induction false} InBin(op: BinOp, l: seq<Piece>, r: seq<Piece>, f: Numbering)
    ensures InPieces([S("(")] + l + Infix(op) + r + [S(")")], f)
            == [S("(")] + InPieces(l, f) + Infix(op) + InPieces(r, f) + [S(")")]
  {
    InFramed([S("(")], l, Infix(op), f);
    InAppend([S("(")] + l + Infix(op), r, f);
    InAppend([S("(")] + l + Infix(op) + r, [S(")")], f);
    InPlain([S(")")], f);
  }

  lemma {:induction false} InOver(a: seq<Piece>, p: seq<Piece>, o: seq<Piece>, desc: bool, f: Numbering)
    ensures InPieces(a + OVER + p + ORDER + o + (Direction(desc) + [S(")")]), f)
            == InPieces(a, f) + OVER + InPieces(p, f) + ORDER + InPieces(o, f) + (Direction(desc) + [S(")")])
  {
    InParted(a, OVER, p, f);
    InParted(a + OVER + p, ORDER, o, f);
    InAppend(a + OVER + p + ORDER + o, Direction(desc) + [S(")")], f);
    InPlain(Direction(desc) + [S(")")], f);
  }

  lemma {:induction false} SepRenamed(es: seq<Expr>, sep: seq<Piece>, f: Numbering)
    requires forall i :: 0 <= i < |sep| ==> !sep[i].Ph?
    ensures PiecesSep(RenamedAll(es, f), sep) == InPieces(PiecesSep(es, sep), f)
    decreases es, 1
  {
    if es != [] {
      PiecesRenamed(es[0], f);
      if |es| > 1 {
        SepRenamed(es[1..], sep, f);
        Tail(es, f);
        InParted(Pieces(es[0]), sep, PiecesSep(es[1..], sep), f);
      }
    }
  }

  lemma {:induction false} Tail(es: seq<Expr>, f: Numbering)
    requires es != []
    ensures RenamedAll(es, f)[1..] == RenamedAll(es[1..], f)
  {
  }

  // ---- well-formedness and normal forms ----

  lemma {:induction false} WfRenamed(e: Expr, f: Numbering)
    requires Wf(e)
    ensures Wf(Renamed(e, f))
    decreases e, 0
  {
    match e
    case Call(_, _, args) => WfAll(args, f);
    case Over(a, p, o, _) => WfRenamed(a, f); WfAll(p, f); WfRenamed(o, f);
    case Bin(_, l, r) => WfRenamed(l, f); WfRenamed(r, f);
    case And(es) => WfAll(es, f);
    case Or(es) => WfAll(es, f);
    case Not(x) => WfRenamed(x, f);
    case IsNull(x, _) => WfRenamed(x, f);
    case _ =>
  }

  lemma {:induction false} WfAll(es: seq<Expr>, f: Numbering)
    requires forall x :: x in es ==> Wf(x)
    ensures forall x :: x in RenamedAll(es, f) ==> Wf(x)
    decreases es, 1
  {
    forall x | x in RenamedAll(es, f)
      ensures Wf(x)
    {
      var i :| 0 <= i < |es| && RenamedAll(es, f)[i] == x;
      WfRenamed(es[i], f);
    }
  }

  lemma {:induction false} NormRenamed(e: Expr, f: Numbering, d: Dialect)
    requires d != MySql
    ensures Norm(Renamed(e, f), d) == Renamed(Norm(e, d), f)
    decreases e, 0
  {
    match e
    case Call(_, _, args) => NormAllRenamed(args, f, d);
    case Over(a, p, o, _) => NormRenamed(a, f, d); NormAllRenamed(p, f, d); NormRenamed(o, f, d);
    case Bin(_, l, r) => NormRenamed(l, f, d); NormRenamed(r, f, d);
    case And(es) => NormAllRenamed(es, f, d);
    case Or(es) => NormAllRenamed(es, f, d);
    case Not(x) => NormRenamed(x, f, d);
    case IsNull(x, _) => NormRenamed(x, f, d);
    case _ =>
  }

  lemma {:induction false} NormAllRenamed(es: seq<Expr>, f: Numbering, d: Dialect)
    requires d != MySql
    ensures NormAll(RenamedAll(es, f), d) == RenamedAll(NormAll(es, d), f)
    decreases es, 1
  {
    forall i | 0 <= i < |es|
      ensures NormAll(RenamedAll(es, f), d)[i] == RenamedAll(NormAll(es, d), f)[i]
    {
      NormRenamed(es[i], f, d);
    }
  }

  // ---- statements ----

  function RenamedFields(fs: seq<(Expr, string)>, f: Numbering): (r: seq<(Expr, string)>)
    ensures |r| == |fs| && forall i :: 0 <= i < |fs| ==> r[i] == (Renamed(fs[i].0, f), fs[i].1)
  {
    seq(|fs|, i requires 0 <= i < |fs| => (Renamed(fs[i].0, f), fs[i].1))
  }

  function RenamedJoins(js: seq<Join>, f: Numbering): (r: seq<Join>)
    ensures |r| == |js| && forall i :: 0 <= i < |js| ==> r[i] == Join(js[i].kind, js[i].src, Renamed(js[i].on, f))
  {
    seq(|js|, i requires 0 <= i < |js| => Join(js[i].kind, js[i].src, Renamed(js[i].on, f)))
  }

  function RenamedTenants(ts: seq<Tenant>, f: Numbering): (r: seq<Tenant>)
    ensures |r| == |ts| && forall i :: 0 <= i < |ts| ==> r[i] == Tenant(ts[i].alias, ts[i].col, f(ts[i].index))
  {
    seq(|ts|, i requires 0 <= i < |ts| => Tenant(ts[i].alias, ts[i].col, f(ts[i].index)))
  }

  function RenamedCond(c: Option<Expr>, f: Numbering): Option<Expr> {
    if c.Some? then Some(Renamed(c.value, f)) else None
  }

  function RenamedGroup(g: Option<seq<Expr>>, f: Numbering): Option<seq<Expr>> {
    if g.Some? then Some(RenamedAll(g.value, f)) else None
  }

  function RenamedOrder(o: Option<(Expr, bool)>, f: Numbering): Option<(Expr, bool)> {
    if o.Some? then Some((Renamed(o.value.0, f), o.value.1)) else None
  }

  function RenamedStmt(q: Stmt, f: Numbering): Stmt {
    Stmt(q.top, RenamedFields(q.fields, f), q.from, RenamedJoins(q.joins, f), RenamedCond(q.cond, f), RenamedTenants(q.tenants, f),
         RenamedGroup(q.group, f), RenamedOrder(q.order, f), q.limit)
  }

  lemma {:induction false} FieldsRenamed(fs: seq<(Expr, string)>, f: Numbering)
    ensures FieldsPieces(RenamedFields(fs, f)) == InPieces(FieldsPieces(fs), f)
  {
    if fs != [] {
      FieldRenamed(fs[0], f);
      if |fs| > 1 {
        FieldsRenamed(fs[1..], f);
        assert RenamedFields(fs, f)[1..] == RenamedFields(fs[1..], f);
        InParted(FieldPieces(fs[0]), COMMA, FieldsPieces(fs[1..]), f);
      }
    }
  }

  lemma {:induction false} FieldRenamed(x: (Expr, string), f: Numbering)
    ensures FieldPieces((Renamed(x.0, f), x.1)) == InPieces(FieldPieces(x), f)
  {
    PiecesRenamed(x.0, f);
    InParted(Pieces(x.0), AS, [Id(x.1)], f);
    InPlain([Id(x.1)], f);
  }

  lemma {:induction false} SourcePlain(s: Source)
    ensures forall i :: 0 <= i < |SourcePieces(s)| ==> !SourcePieces(s)[i].Ph?
  {
  }

  lemma {:induction false} JoinWordsPlain(k: JoinKind)
    ensures forall i :: 0 <= i < |JoinWords(k)| ==> !JoinWords(k)[i].Ph?
  {
  }

  lemma {:induction false} JoinRenamed(j: Join, f: Numbering)
    ensures JoinPieces(Join(j.kind, j.src, Renamed(j.on, f))) == InPieces(JoinPieces(j), f)
  {
    JoinWordsPlain(j.kind);
    SourcePlain(j.src);
    PiecesRenamed(j.on, f);
    InPlain(JoinWords(j.kind), f);
    InParted(JoinWords(j.kind), SourcePieces(j.src), ON, f);
    InPlain(ON, f);
    InAppend(JoinWords(j.kind) + SourcePieces(j.src) + ON, Pieces(j.on), f);
  }

  lemma {:induction false} JoinsRenamed(js: seq<Join>, f: Numbering)
    ensures JoinsPieces(RenamedJoins(js, f)) == InPieces(JoinsPieces(js), f)
  {
    if js != [] {
      JoinRenamed(js[0], f);
      JoinsRenamed(js[1..], f);
      assert RenamedJoins(js, f)[1..] == RenamedJoins(js[1..], f);
      InAppend(JoinPieces(js[0]), JoinsPieces(js[1..]), f);
    }
  }

  lemma {:induction false} TenantRenamed(t: Tenant, f: Numbering)
    ensures TenantPieces(Tenant(t.alias, t.col, f(t.index))) == InPieces(TenantPieces(t), f)
  {
  }

  lemma {:induction false} TenantsRenamed(ts: seq<Tenant>, first: bool, f: Numbering)
    ensures TenantsPieces(RenamedTenants(ts, f), first) == InPieces(TenantsPieces(ts, first), f)
  {
    if ts != [] {
      var lead := if first then WHERE else AND;
      TenantRenamed(ts[0], f);
      TenantsRenamed(ts[1..], false, f);
      assert RenamedTenants(ts, f)[1..] == RenamedTenants(ts[1..], f);
      InPlain(lead, f);
      InAppend(lead, TenantPieces(ts[0]), f);
      InAppend(lead + TenantPieces(ts[0]), TenantsPieces(ts[1..], false), f);
    }
  }

  lemma {:induction false} CondRenamed(c: Option<Expr>, f: Numbering)
    ensures CondPieces(RenamedCond(c, f)) == InPieces(CondPieces(c), f)
  {
    if c.Some? {
      PiecesRenamed(c.value, f);
      InPlain(WHERE, f);
      InAppend(WHERE, Pieces(c.value), f);
    }
  }

  lemma {:induction false} GroupRenamed(g: Option<seq<Expr>>, f: Numbering)
    ensures GroupPieces(RenamedGroup(g, f)) == InPieces(GroupPieces(g), f)
  {
    if g.Some? {
      SepRenamed(g.value, COMMA, f);
      InPlain(GROUP, f);
      InAppend(GROUP, PiecesSep(g.value, COMMA), f);
    }
  }

  lemma {:induction false} OrderRenamed(o: Option<(Expr, bool)>, f: Numbering)
    ensures OrderPieces(RenamedOrder(o, f)) == InPieces(OrderPieces(o), f)
  {
    if o.Some? {
      PiecesRenamed(o.value.0, f);
      InFramed(ORDER, Pieces(o.value.0), Direction(o.value.1), f);
    }
  }

  lemma {:induction false} HeadPlain(top: Option<nat>, limit: Option<nat>)
    ensures forall i :: 0 <= i < |SelectHead(top)| ==> !SelectHead(top)[i].Ph?
    ensures forall i :: 0 <= i < |LimitPieces(limit)| ==> !LimitPieces(limit)[i].Ph?
  {
  }

  /** Renumbering the text of a statement gives the text of the renumbered statement. */
  lemma {:induction false} StmtRenamed(q: Stmt, f: Numbering)
    ensures StmtPieces(RenamedStmt(q, f)) == InPieces(StmtPieces(q), f)
  {
    var h, x, s, j := SelectHead(q.top), FieldsPieces(q.fields), SourcePieces(q.from), JoinsPieces(q.joins);
    var c, t := CondPieces(q.cond), TenantsPieces(q.tenants, q.cond.None?);
    var g, o, l := GroupPieces(q.group), OrderPieces(q.order), LimitPieces(q.limit);
    FieldsRenamed(q.fields, f);
    JoinsRenamed(q.joins, f);
    CondRenamed(q.cond, f);
    TenantsRenamed(q.tenants, q.cond.None?, f);
    GroupRenamed(q.group, f);
    OrderRenamed(q.order, f);
    HeadPlain(q.top, q.limit);
    SourcePlain(q.from);
    UpperRenamed(h, x, s, j, f);
    LowerRenamed(h + x + FROM + s + j, c, t, g, o, l, f);
  }

  lemma {:induction false} UpperRenamed(h: seq<Piece>, x: seq<Piece>, s: seq<Piece>, j: seq<Piece>, f: Numbering)
    requires (forall i :: 0 <= i < |h| ==> !h[i].Ph?) && (forall i :: 0 <= i < |s| ==> !s[i].Ph?)
    ensures InPieces(h + x + FROM + s + j, f) == h + InPieces(x, f) + FROM + s + InPieces(j, f)
  {
    InFramed(h, x, FROM, f);
    InParted(h + x + FROM, s, j, f);
  }

  lemma {:induction false} LowerRenamed(a: seq<Piece>, c: seq<Piece>, t: seq<Piece>, g: seq<Piece>, o: seq<Piece>, l: seq<Piece>, f: Numbering)
    requires forall i :: 0 <= i < |l| ==> !l[i].Ph?
    ensures InPieces(a + c + t + g + o + l, f) == InPieces(a, f) + InPieces(c, f) + InPieces(t, f) + InPieces(g, f) + InPieces(o, f) + l
  {
    InAppend(a, c, f);
    InAppend(a + c, t, f);
    InAppend(a + c + t, g, f);
    InAppend(a + c + t + g, o, f);
    InAppend(a + c + t + g + o, l, f);
    InPlain(l, f);
  }

  lemma {:induction false} StmtStaysWf(q: Stmt, f: Numbering)
    requires WfStmt(q)
    ensures WfStmt(RenamedStmt(q, f))
  {
    FieldsStayWf(q.fields, f);
    JoinsStayWf(q.joins, f);
    if q.cond.Some? { WfRenamed(q.cond.value, f); }
    if q.group.Some? { WfAll(q.group.value, f); }
    if q.order.Some? { WfRenamed(q.order.value.0, f); }
    forall t | t in RenamedTenants(q.tenants, f)
      ensures Ident(t.alias) && Ident(t.col)
    {
      var i :| 0 <= i < |q.tenants| && RenamedTenants(q.tenants, f)[i] == t;
      assert q.tenants[i] in q.tenants;
    }
  }

  lemma {:induction false} FieldsStayWf(fs: seq<(Expr, string)>, f: Numbering)
    requires forall x :: x in fs ==> Wf(x.0) && Ident(x.1)
    ensures forall x :: x in RenamedFields(fs, f) ==> Wf(x.0) && Ident(x.1)
  {
    forall x | x in RenamedFields(fs, f)
      ensures Wf(x.0) && Ident(x.1)
    {
      var i :| 0 <= i < |fs| && RenamedFields(fs, f)[i] == x;
      assert fs[i] in fs;
      WfRenamed(fs[i].0, f);
    }
  }

  lemma {:induction false} JoinsStayWf(js: seq<Join>, f: Numbering)
    requires forall j :: j in js ==> WfSource(j.src) && Wf(j.on)
    ensures forall j :: j in RenamedJoins(js, f) ==> WfSource(j.src) && Wf(j.on)
  {
    forall j | j in RenamedJoins(js, f)
      ensures WfSource(j.src) && Wf(j.on)
    {
      var i :| 0 <= i < |js| && RenamedJoins(js, f)[i] == j;
      assert js[i] in js;
      WfRenamed(js[i].on, f);
    }
  }

  // ---- what is read ----

  function RenamedQuery(q: Query, f: Numbering): Query {
    Query(q.top, RenamedFields(q.fields, f), q.from, RenamedJoins(q.joins, f), RenamedCond(q.cond, f),
          RenamedGroup(q.group, f), RenamedOrder(q.order, f), q.limit)
  }

  lemma {:induction false} ConjunctionRenamed(es: seq<Expr>, f: Numbering)
    ensures Conjunction(RenamedAll(es, f)) == RenamedCond(Conjunction(es), f)
  {
  }

  lemma {:induction false} TenantExprRenamed(t: Tenant, f: Numbering, d: Dialect)
    requires d != MySql
    ensures TenantExpr(Tenant(t.alias, t.col, f(t.index)), d) == Renamed(TenantExpr(t, d), f)
  {
    assert Renamed(Col(t.alias, t.col), f) == Col(t.alias, t.col);
    assert Renamed(Par(Shown(t.index, d)), f) == Par(f(t.index));
  }

  lemma {:induction false} TenantExprsRenamed(ts: seq<Tenant>, f: Numbering, d: Dialect)
    requires d != MySql
    ensures TenantExprs(RenamedTenants(ts, f), d) == RenamedAll(TenantExprs(ts, d), f)
  {
    forall i | 0 <= i < |ts|
      ensures TenantExprs(RenamedTenants(ts, f), d)[i] == RenamedAll(TenantExprs(ts, d), f)[i]
    {
      TenantExprRenamed(ts[i], f, d);
    }
  }

  lemma {:induction false} AllAppend(a: seq<Expr>, b: seq<Expr>, f: Numbering)
    ensures RenamedAll(a + b, f) == RenamedAll(a, f) + RenamedAll(b, f)
  {
  }

  lemma {:induction false} ConjunctsRenamed(q: Stmt, f: Numbering, d: Dialect)
    requires d != MySql
    ensures Conjuncts(RenamedStmt(q, f), d) == RenamedAll(Conjuncts(q, d), f)
  {
    if q.cond.Some? { NormRenamed(q.cond.value, f, d); }
    TenantExprsRenamed(q.tenants, f, d);
    AllAppend(if q.cond.Some? then [Norm(q.cond.value, d)] else [], TenantExprs(q.tenants, d), f);
  }

  /** A renumbered statement is read as the renumbered query. */
  lemma {:induction false} MeantRenamed(q: Stmt, f: Numbering, d: Dialect)
    requires d != MySql
    ensures Meant(RenamedStmt(q, f), d) == RenamedQuery(Meant(q, d), f)
  {
    ConjunctsRenamed(q, f, d);
    ConjunctionRenamed(Conjuncts(q, d), f);
    FieldsMeant(q.fields, f, d);
    JoinsMeant(q.joins, f, d);
    if q.group.Some? { NormAllRenamed(q.group.value, f, d); }
    if q.order.Some? { NormRenamed(q.order.value.0, f, d); }
  }

  lemma {:induction false} FieldsMeant(fs: seq<(Expr, string)>, f: Numbering, d: Dialect)
    requires d != MySql
    ensures NormFields(RenamedFields(fs, f), d) == RenamedFields(NormFields(fs, d), f)
  {
    forall i | 0 <= i < |fs|
      ensures NormFields(RenamedFields(fs, f), d)[i] == RenamedFields(NormFields(fs, d), f)[i]
    {
      NormRenamed(fs[i].0, f, d);
    }
  }

  lemma {:induction false} JoinsMeant(js: seq<Join>, f: Numbering, d: Dialect)
    requires d != MySql
    ensures NormJoins(RenamedJoins(js, f), d) == RenamedJoins(NormJoins(js, d), f)
  {
    forall i | 0 <= i < |js|
      ensures NormJoins(RenamedJoins(js, f), d)[i] == RenamedJoins(NormJoins(js, d), f)[i]
    {
      NormRenamed(js[i].on, f, d);
    }
  }

  // ---- the rows it selects ----

  /** The world in which a query finds under its own numbers what the renumbered one finds under its. */
  function Before(env: R.Env, f: Numbering): R.Env {
    R.Env((n: nat) => env.param(f(n)), env.less, (e: Expr, row: R.Row) => env.other(Renamed(e, f), row))
  }

  lemma {:induction false} EvalRenamed(e: Expr, f: Numbering, row: R.Row, names: seq<string>, env: R.Env)
    ensures R.Eval(Renamed(e, f), row, names, env) == R.Eval(e, row, names, Before(env, f))
    decreases e, 0
  {
    match e
    case Bin(_, l, r) => EvalRenamed(l, f, row, names, env); EvalRenamed(r, f, row, names, env);
    case And(es) => EvalAllRenamed(es, f, row, names, env);
    case Or(es) => EvalAllRenamed(es, f, row, names, env);
    case Not(x) => EvalRenamed(x, f, row, names, env);
    case IsNull(x, _) => EvalRenamed(x, f, row, names, env);
    case _ =>
  }

  lemma {:induction false} EvalAllRenamed(es: seq<Expr>, f: Numbering, row: R.Row, names: seq<string>, env: R.Env)
    ensures R.EvalAll(RenamedAll(es, f), row, names, env) == R.EvalAll(es, row, names, Before(env, f))
    decreases es, 1
  {
    forall i | 0 <= i < |es|
      ensures R.EvalAll(RenamedAll(es, f), row, names, env)[i] == R.EvalAll(es, row, names, Before(env, f))[i]
    {
      EvalRenamed(es[i], f, row, names, env);
    }
  }

  lemma {:induction false} MatchesRenamed(r: R.Row, ts: seq<R.Tuple>, on: Expr, f: Numbering, names: seq<string>, env: R.Env)
    ensures R.Matches(r, ts, Renamed(on, f), names, env) == R.Matches(r, ts, on, names, Before(env, f))
  {
    if ts != [] {
      EvalRenamed(on, f, r + [Some(ts[0])], names, env);
      MatchesRenamed(r, ts[1..], on, f, names, env);
    }
  }

  lemma {:induction false} LeftRenamed(acc: seq<R.Row>, keep: bool, ts: seq<R.Tuple>, on: Expr, f: Numbering, names: seq<string>, env: R.Env)
    ensures R.LeftSide(acc, keep, ts, Renamed(on, f), names, env) == R.LeftSide(acc, keep, ts, on, names, Before(env, f))
  {
    if acc != [] {
      MatchesRenamed(acc[0], ts, on, f, names, env);
      LeftRenamed(acc[1..], keep, ts, on, f, names, env);
    }
  }

  lemma {:induction false} UnmatchedRenamed(acc: seq<R.Row>, n: nat, ts: seq<R.Tuple>, on: Expr, f: Numbering, names: seq<string>, env: R.Env)
    ensures R.Unmatched(acc, n, ts, Renamed(on, f), names, env) == R.Unmatched(acc, n, ts, on, names, Before(env, f))
  {
    if ts != [] {
      forall r | r in acc
        ensures R.Holds(Renamed(on, f), r + [Some(ts[0])], names, env) == R.Holds(on, r + [Some(ts[0])], names, Before(env, f))
      {
        EvalRenamed(on, f, r + [Some(ts[0])], names, env);
      }
      UnmatchedRenamed(acc, n, ts[1..], on, f, names, env);
    }
  }

  lemma {:induction false} JoinRowsRenamed(acc: seq<R.Row>, n: nat, kind: JoinKind, ts: seq<R.Tuple>, on: Expr, f: Numbering,
                                           names: seq<string>, env: R.Env)
    ensures R.JoinRows(acc, n, kind, ts, Renamed(on, f), names, env) == R.JoinRows(acc, n, kind, ts, on, names, Before(env, f))
  {
    LeftRenamed(acc, kind.Left? || kind.Full?, ts, on, f, names, env);
    UnmatchedRenamed(acc, n, ts, on, f, names, env);
  }

  lemma {:induction false} RowsRenamed(q: Query, n: nat, f: Numbering, db: R.Database, env: R.Env)
    requires n <= |q.joins|
    ensures R.Rows(RenamedQuery(q, f), n, db, env) == R.Rows(q, n, db, Before(env, f))
  {
    if n > 0 {
      var j := q.joins[n - 1];
      RowsRenamed(q, n - 1, f, db, env);
      NamesRenamed(q, f);
      RowsStep(q, n, f, db, env);
      JoinRowsRenamed(R.Rows(q, n - 1, db, Before(env, f)), n, j.kind, R.Table(db, j.src), j.on, f, R.Names(q), env);
    }
  }

  lemma {:induction false} RowsStep(q: Query, n: nat, f: Numbering, db: R.Database, env: R.Env)
    requires 0 < n <= |q.joins|
    ensures var j := q.joins[n - 1];
            R.Rows(RenamedQuery(q, f), n, db, env) ==
            R.JoinRows(R.Rows(RenamedQuery(q, f), n - 1, db, env), n, j.kind, R.Table(db, j.src), Renamed(j.on, f), R.Names(RenamedQuery(q, f)), env)
  {
    assert RenamedQuery(q, f).joins[n - 1] == Join(q.joins[n - 1].kind, q.joins[n - 1].src, Renamed(q.joins[n - 1].on, f));
  }

  lemma {:induction false} NamesRenamed(q: Query, f: Numbering)
    ensures R.Names(RenamedQuery(q, f)) == R.Names(q)
  {
  }

  lemma {:induction false} PassingRenamed(rows: seq<R.Row>, c: Option<Expr>, f: Numbering, names: seq<string>, env: R.Env)
    ensures R.Passing(rows, RenamedCond(c, f), names, env) == R.Passing(rows, c, names, Before(env, f))
  {
    if rows != [] {
      if c.Some? { EvalRenamed(c.value, f, rows[0], names, env); }
      PassingRenamed(rows[1..], c, f, names, env);
    }
  }

  /** A renumbered query selects the rows that the original selects with its parameters found again. */
  lemma {:induction false} SurvivingRenamed(q: Query, f: Numbering, db: R.Database, env: R.Env)
    ensures R.Surviving(RenamedQuery(q, f), db, env) == R.Surviving(q, db, Before(env, f))
  {
    RowsRenamed(q, |q.joins|, f, db, env);
    NamesRenamed(q, f);
    PassingRenamed(R.Rows(q, |q.joins|, db, Before(env, f)), q.cond, f, R.Names(q), env);
  }
}
