/** Whole SELECT statements: the text the compiler writes, and the statement the database reads. */
module Statement {
  import opened Wrappers
  import opened Decimal
  import opened Sql
  import opened SqlExpr
  import opened SqlRead
  import opened ReadBack
  import opened Lexemes
  import Catalog

  datatype JoinKind = Inner | Left | Right | Full
  type Source = Catalog.Source
  datatype Join = Join(kind: JoinKind, src: Source, on: Expr)

  /** An injected predicate: alias.col = placeholder. */
  datatype Tenant = Tenant(alias: string, col: string, index: nat)

  datatype Stmt = Stmt(
    top: Option<nat>, fields: seq<(Expr, string)>, from: Source, joins: seq<Join>,
    cond: Option<Expr>, tenants: seq<Tenant>,
    group: Option<seq<Expr>>, order: Option<(Expr, bool)>, limit: Option<nat>)

  /** A statement as the database reads it: one condition, whatever wrote its parts. */
  datatype Query = Query(
    top: Option<nat>, fields: seq<(Expr, string)>, from: Source, joins: seq<Join>, cond: Option<Expr>,
    group: Option<seq<Expr>>, order: Option<(Expr, bool)>, limit: Option<nat>)

  predicate WfSource(s: Source) { Ident(s.schema) && Ident(s.table) && Ident(s.alias) }

  predicate WfStmt(q: Stmt) {
    && q.fields != [] && (forall f :: f in q.fields ==> Wf(f.0) && Ident(f.1))
    && WfSource(q.from) && (forall j :: j in q.joins ==> WfSource(j.src) && Wf(j.on))
    && (q.cond.Some? ==> Wf(q.cond.value))
    && (forall t :: t in q.tenants ==> Ident(t.alias) && Ident(t.col))
    && (q.group.Some? ==> forall e :: e in q.group.value ==> Wf(e))
    && (q.order.Some? ==> Wf(q.order.value.0))
  }

  // ---- the text ----

  const AS: seq<Piece> := [Sp, W("AS"), Sp]
  const FROM: seq<Piece> := [Sp, W("FROM"), Sp]
  const ON: seq<Piece> := [Sp, W("ON"), Sp]
  const WHERE: seq<Piece> := [Sp, W("WHERE"), Sp]
  const LIMIT: seq<Piece> := [Sp, W("LIMIT"), Sp]
  const GROUP: seq<Piece> := [Sp, W("GROUP"), Sp, W("BY"), Sp]
  const EQ: seq<Piece> := [Sp, S("="), Sp]

  function SelectHead(top: Option<nat>): seq<Piece> {
    [W("SELECT"), Sp] + if top.Some? then [W("TOP"), Sp] + [W(Dec(top.value)), Sp] else []
  }

  function FieldPieces(f: (Expr, string)): seq<Piece> { Pieces(f.0) + AS + [Id(f.1)] }

  function FieldsPieces(fs: seq<(Expr, string)>): seq<Piece> {
    if fs == [] then []
    else if |fs| == 1 then FieldPieces(fs[0])
    else FieldPieces(fs[0]) + COMMA + FieldsPieces(fs[1..])
  }

  function SourcePieces(s: Source): seq<Piece> { [Id(s.schema), S("."), Id(s.table)] + AS + [Id(s.alias)] }

  function JoinWords(k: JoinKind): seq<Piece> {
    match k
    case Inner => [Sp, W("INNER"), Sp, W("JOIN"), Sp]
    case Left => [Sp, W("LEFT"), Sp, W("JOIN"), Sp]
    case Right => [Sp, W("RIGHT"), Sp, W("JOIN"), Sp]
    case Full => [Sp, W("FULL"), Sp] + [W("OUTER"), Sp, W("JOIN"), Sp]
  }

  function JoinPieces(j: Join): seq<Piece> { JoinWords(j.kind) + SourcePieces(j.src) + ON + Pieces(j.on) }

  function JoinsPieces(js: seq<Join>): seq<Piece> {
    if js == [] then [] else JoinPieces(js[0]) + JoinsPieces(js[1..])
  }

  function TenantPieces(t: Tenant): seq<Piece> { [Id(t.alias), S("."), Id(t.col)] + EQ + [Ph(t.index)] }

  /** Each predicate after the first thing in the condition is led in by AND, the first by WHERE. */
  function TenantsPieces(ts: seq<Tenant>, first: bool): seq<Piece> {
    if ts == [] then []
    else (if first then WHERE else AND) + TenantPieces(ts[0]) + TenantsPieces(ts[1..], false)
  }

  function CondPieces(cond: Option<Expr>): seq<Piece> {
    if cond.Some? then WHERE + Pieces(cond.value) else []
  }

  function GroupPieces(g: Option<seq<Expr>>): seq<Piece> {
    if g.Some? then GROUP + PiecesSep(g.value, COMMA) else []
  }

  function OrderPieces(o: Option<(Expr, bool)>): seq<Piece> {
    if o.Some? then ORDER + Pieces(o.value.0) + Direction(o.value.1) else []
  }

  function LimitPieces(l: Option<nat>): seq<Piece> {
    if l.Some? then LIMIT + [W(Dec(l.value))] else []
  }

  function StmtPieces(q: Stmt): seq<Piece> {
    SelectHead(q.top) + FieldsPieces(q.fields) + FROM + SourcePieces(q.from) + JoinsPieces(q.joins)
    + CondPieces(q.cond) + TenantsPieces(q.tenants, q.cond.None?)
    + GroupPieces(q.group) + OrderPieces(q.order) + LimitPieces(q.limit)
  }

  // ---- reading a statement ----

  function ParseNumber(ts: seq<Lexeme>): Option<nat> {
    if ts != [] && ts[0].Word? && ts[0].w != "" && AllDigits(ts[0].w) then Some(Num(ts[0].w)) else None
  }

  function ParseSource(ts: seq<Lexeme>): (r: Parse<Source>)
    ensures r.Some? ==> |r.value.1| < |ts|
  {
    if |ts| >= 5 && ts[0].Name? && ts[1] == Dot && ts[2].Name? && ts[3] == K(KAs) && ts[4].Name?
    then Some((Catalog.Source(ts[0].name, ts[2].name, ts[4].name), ts[5..])) else None
  }

  function ParseFields(ts: seq<Lexeme>): (r: Parse<seq<(Expr, string)>>)
    ensures r.Some? ==> |r.value.1| < |ts|
    decreases |ts|
  {
    match ParseOr(ts)
    case None => None
    case Some((e, rest)) =>
      if !(|rest| >= 2 && rest[0] == K(KAs) && rest[1].Name?) then None
      else if At(rest[2..], Comma) then
        match ParseFields(rest[3..])
        case None => None
        case Some((fs, r1)) => Some(([(e, rest[1].name)] + fs, r1))
      else Some(([(e, rest[1].name)], rest[2..]))
  }

  /** The kind of join that starts here and how many words name it. */
  function JoinHead(ts: seq<Lexeme>): Option<(JoinKind, nat)> {
    if [K(KInner), K(KJoin)] <= ts then Some((Inner, 2))
    else if [K(KLeft), K(KJoin)] <= ts then Some((Left, 2))
    else if [K(KRight), K(KJoin)] <= ts then Some((Right, 2))
    else if [K(KFull), K(KOuter), K(KJoin)] <= ts then Some((Full, 3))
    else None
  }

  function ParseJoins(ts: seq<Lexeme>): (r: Parse<seq<Join>>)
    ensures r.Some? ==> |r.value.1| <= |ts|
    decreases |ts|
  {
    match JoinHead(ts)
    case None => Some(([], ts))
    case Some((kind, n)) =>
      match ParseSource(ts[n..])
      case None => None
      case Some((src, r1)) =>
        if !At(r1, K(KOn)) then None
        else match ParseOr(r1[1..])
          case None => None
          case Some((on, r2)) =>
            match ParseJoins(r2)
            case None => None
            case Some((js, r3)) => Some(([Join(kind, src, on)] + js, r3))
  }

  function ParseWhere(ts: seq<Lexeme>): Parse<Option<Expr>> {
    if !At(ts, K(KWhere)) then Some((None, ts))
    else match ParseOr(ts[1..])
      case None => None
      case Some((e, rest)) => Some((Some(e), rest))
  }

  function ParseGroup(ts: seq<Lexeme>): Parse<Option<seq<Expr>>> {
    if !([K(KGroup), K(KBy)] <= ts) then Some((None, ts))
    else match ParseList(ts[2..])
      case None => None
      case Some((es, rest)) => Some((Some(es), rest))
  }

  function ParseOrder(ts: seq<Lexeme>): Parse<Option<(Expr, bool)>> {
    if !([K(KOrder), K(KBy)] <= ts) then Some((None, ts))
    else match ParseOr(ts[2..])
      case None => None
      case Some((e, rest)) =>
        if At(rest, K(KDesc)) then Some((Some((e, true)), rest[1..]))
        else if At(rest, K(KAsc)) then Some((Some((e, false)), rest[1..]))
        else None
  }

  function ParseLimit(ts: seq<Lexeme>): Parse<Option<nat>> {
    if !At(ts, K(KLimit)) then Some((None, ts))
    else match ParseNumber(ts[1..])
      case None => None
      case Some(n) => Some((Some(n), ts[2..]))
  }

  function ParseTop(ts: seq<Lexeme>): Parse<Option<nat>> {
    if !At(ts, K(KTop)) then Some((None, ts))
    else match ParseNumber(ts[1..])
      case None => None
      case Some(n) => Some((Some(n), ts[2..]))
  }

  /** Everything from the condition on. */
  function ParseTail(ts: seq<Lexeme>): Parse<(Option<Expr>, Option<seq<Expr>>, Option<(Expr, bool)>, Option<nat>)> {
    match ParseWhere(ts)
    case None => None
    case Some((cond, r1)) =>
      match ParseGroup(r1)
      case None => None
      case Some((group, r2)) =>
        match ParseOrder(r2)
        case None => None
        case Some((order, r3)) =>
          match ParseLimit(r3)
          case None => None
          case Some((limit, rest)) => Some(((cond, group, order, limit), rest))
  }

  function ParseBody(ts: seq<Lexeme>): Option<(seq<(Expr, string)>, Source, seq<Join>, seq<Lexeme>)> {
    match ParseFields(ts)
    case None => None
    case Some((fields, r1)) =>
      if !At(r1, K(KFrom)) then None
      else match ParseSource(r1[1..])
        case None => None
        case Some((from, r2)) =>
          match ParseJoins(r2)
          case None => None
          case Some((joins, r3)) => Some((fields, from, joins, r3))
  }

  /** A statement with whatever follows it. */
  function ParseSelect(ts: seq<Lexeme>): Parse<Query> {
    if !At(ts, K(KSelect)) then None
    else match ParseTop(ts[1..])
      case None => None
      case Some((top, r1)) =>
        match ParseBody(r1)
        case None => None
        case Some((fields, from, joins, r2)) =>
          match ParseTail(r2)
          case None => None
          case Some(((cond, group, order, limit), rest)) =>
            Some((Query(top, fields, from, joins, cond, group, order, limit), rest))
  }

  function ParseQuery(ts: seq<Lexeme>): Option<Query> {
    match ParseSelect(ts)
    case None => None
    case Some((q, rest)) => if rest == [] then Some(q) else None
  }

  /** The statement the database reads in a text. */
  function QueryOf(s: string, d: Dialect): Option<Query> {
    ParseQuery(Read(s, d))
  }

  // ---- what an emitted statement means ----

  function TenantExpr(t: Tenant, d: Dialect): Expr {
    Bin(Eq, Col(t.alias, t.col), Par(Shown(t.index, d)))
  }

  function TenantExprs(ts: seq<Tenant>, d: Dialect): (r: seq<Expr>)
    ensures |r| == |ts|
  {
    seq(|ts|, i requires 0 <= i < |ts| => TenantExpr(ts[i], d))
  }

  function Conjuncts(q: Stmt, d: Dialect): seq<Expr> {
    (if q.cond.Some? then [Norm(q.cond.value, d)] else []) + TenantExprs(q.tenants, d)
  }

  function Conjunction(es: seq<Expr>): Option<Expr> {
    if es == [] then None else if |es| == 1 then Some(es[0]) else Some(And(es))
  }

  function NormFields(fs: seq<(Expr, string)>, d: Dialect): (r: seq<(Expr, string)>)
    ensures |r| == |fs| && forall i :: 0 <= i < |fs| ==> r[i] == (Norm(fs[i].0, d), fs[i].1)
  {
    seq(|fs|, i requires 0 <= i < |fs| => (Norm(fs[i].0, d), fs[i].1))
  }

  function NormJoins(js: seq<Join>, d: Dialect): (r: seq<Join>)
    ensures |r| == |js| && forall i :: 0 <= i < |js| ==> r[i] == Join(js[i].kind, js[i].src, Norm(js[i].on, d))
  {
    seq(|js|, i requires 0 <= i < |js| => Join(js[i].kind, js[i].src, Norm(js[i].on, d)))
  }

  function Meant(q: Stmt, d: Dialect): Query {
    Query(q.top, NormFields(q.fields, d), q.from, NormJoins(q.joins, d), Conjunction(Conjuncts(q, d)),
          if q.group.Some? then Some(NormAll(q.group.value, d)) else None,
          if q.order.Some? then Some((Norm(q.order.value.0, d), q.order.value.1)) else None,
          q.limit)
  }
}
