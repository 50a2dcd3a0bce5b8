/**
  compile_tree: from a parsed tree to a statement and its parameter table, or to the status
  with which the compiler gives up. The order of the checks is the order of the code.
 */
module Compile {
  import opened Wrappers
  import opened Sexpr
  import opened Decimal
  import opened Catalog
  import opened Emit
  import Sql
  import E = SqlExpr
  import St = Statement

  datatype Status = LimitE | ParseE | PolicyE | TypeE
  datatype Result<+T> = Ok(value: T) | Err(status: Status)

  /** The limits of a context that the compiler itself consults. */
  datatype Limits = Limits(maxSelected: nat, defaultLimit: nat)

  const ULONG_MAX: nat := 0xFFFF_FFFF_FFFF_FFFF
  const MAX_SOURCES: nat := 32

  // ---- clauses ----

  const CLAUSES: seq<string> := ["from", "join", "select", "where", "group-by", "order-by", "limit"]

  /** The head of a clause, if it is one of the known ones. */
  function ClauseName(x: Tree): Option<string> {
    if x.Node? && x.kids != [] && x.kids[0].Atom? && x.kids[0].text in CLAUSES then Some(x.kids[0].text) else None
  }

  /** Known clauses only, each at most once except join, with from and select among them. */
  predicate ClausesValid(cs: seq<Tree>) {
    && (forall i :: 0 <= i < |cs| ==> ClauseName(cs[i]).Some?)
    && (forall i, j :: 0 <= i < j < |cs| && ClauseName(cs[i]) == ClauseName(cs[j]) ==> ClauseName(cs[i]) == Some("join"))
    && (exists i :: 0 <= i < |cs| && ClauseName(cs[i]) == Some("from"))
    && (exists i :: 0 <= i < |cs| && ClauseName(cs[i]) == Some("select"))
  }

  /** The first clause with this head. */
  function FindClause(cs: seq<Tree>, s: string): (r: Option<Tree>)
    ensures r.Some? ==> r.value in cs && IsList(r.value, s)
  {
    if cs == [] then None else if IsList(cs[0], s) then Some(cs[0]) else FindClause(cs[1..], s)
  }

  function ParseSource(x: Tree, ti: nat, ai: nat): (r: Option<Source>)
    ensures r.Some? ==> r.value.schema == "public" && Sql.Ident(r.value.table) && Sql.Ident(r.value.alias)
  {
    if x.Node? && ti <= ai < |x.kids| && Name(x.kids[ti]) && Name(x.kids[ai])
    then Some(Source("public", x.kids[ti].text, x.kids[ai].text)) else None
  }

  predicate Usable(s: Schema, p: Policy, src: Source) {
    TableFound(s, src.schema, src.table) && Allowed(p, src.schema, src.table)
  }

  function KindOf(x: Tree): Option<St.JoinKind> {
    if IsAtom(x, "inner") then Some(St.Inner) else if IsAtom(x, "left") then Some(St.Left)
    else if IsAtom(x, "right") then Some(St.Right) else if IsAtom(x, "full") then Some(St.Full) else None
  }

  // ---- joins ----

  /** l = r, given as two column nodes, is the foreign key f from source a to source b. */
  predicate ColumnIs(x: Tree, alias: string, col: string) {
    Form(x, "column", 3) && IsAtom(x.kids[1], alias) && IsAtom(x.kids[2], col)
  }

  predicate LinksBy(f: ForeignKey, l: Tree, r: Tree, a: Source, b: Source) {
    && ColumnIs(l, a.alias, f.fc) && ColumnIs(r, b.alias, f.tc)
    && a.schema == f.fs && a.table == f.ft && b.schema == f.ts && b.table == f.tt
  }

  /** The join condition is a declared key from some earlier source to the new one, either way round. */
  predicate JoinAllowed(s: Schema, on: Tree, srcs: seq<Source>, target: Source) {
    && Form(on, "eq", 3)
    && exists k, i :: 0 <= k < |srcs| && 0 <= i < |s.fks| &&
         (LinksBy(s.fks[i], on.kids[1], on.kids[2], srcs[k], target) || LinksBy(s.fks[i], on.kids[2], on.kids[1], srcs[k], target))
  }

  predicate JoinNodeOk(x: Tree, srcs: seq<Source>, s: Schema, p: Policy) {
    && x.Node? && |x.kids| == 5 && |srcs| <= p.maxJoins
    && KindOf(x.kids[1]).Some? && ParseSource(x, 2, 3).Some?
    && Usable(s, p, ParseSource(x, 2, 3).value)
    && JoinAllowed(s, x.kids[4], srcs, ParseSource(x, 2, 3).value)
  }

  /** The source array after the join clauses among cs, read in order. */
  function JoinSources(cs: seq<Tree>, srcs: seq<Source>, s: Schema, p: Policy): Result<seq<Source>> {
    if cs == [] then Ok(srcs)
    else if !IsList(cs[0], "join") then JoinSources(cs[1..], srcs, s, p)
    else if !JoinNodeOk(cs[0], srcs, s, p) then Err(PolicyE)
    else if |srcs| + 1 >= MAX_SOURCES then Err(LimitE)
    else JoinSources(cs[1..], srcs + [ParseSource(cs[0], 2, 3).value], s, p)
  }

  // ---- columns and types ----

  predicate ValidColumns(x: Tree, src: seq<Source>, s: Schema, p: Policy) {
    match x
    case Atom(_) => true
    case Node(ks) =>
      && (Form(x, "column", 3) ==>
            && ks[1].Atom? && ks[2].Atom? && Resolve(src, s, ks[1].text, ks[2].text).Some?
            && var o := src[SourceIndex(src, ks[1].text)]; !Denied(p, o.schema, o.table, ks[2].text))
      && forall k :: k in ks ==> ValidColumns(k, src, s, p)
  }

  function ExprType(x: Tree, src: seq<Source>, s: Schema): SqlType {
    if x.Atom? || x.kids == [] || !x.kids[0].Atom? then UnknownT
    else
      var h, n, k := x.kids[0].text, |x.kids|, x.kids;
      if h == "column" && n == 3 then
        var c := if k[1].Atom? && k[2].Atom? then Resolve(src, s, k[1].text, k[2].text) else None;
        if c.Some? then c.value.ty else UnknownT
      else if h == "param" && n == 3 then TypeName(TextOf(k[2]))
      else if h == "ref" then UnknownT
      else if (h == "count" || h == "count-distinct") && n == 2 then Int64T
      else if (h == "sum" || h == "avg" || h == "sum-distinct") && n == 2 then
        var t := ExprType(k[1], src, s);
        if NumericType(t) then (if h == "avg" then DecimalT else t) else UnknownT
      else if (h == "min" || h == "max" || h == "abs") && n == 2 then ExprType(k[1], src, s)
      else if h in ["mul", "add", "sub", "div"] && n == 3 then
        var a, b := ExprType(k[1], src, s), ExprType(k[2], src, s);
        if NumericType(a) && NumericType(b) then (if a.Float64T? || b.Float64T? then Float64T else DecimalT) else UnknownT
      else if h == "window" && n >= 4 then ExprType(k[1], src, s)
      else if h in ["eq", "neq", "gt", "gte", "lt", "lte"] && n == 3 then
        if Compatible(ExprType(k[1], src, s), ExprType(k[2], src, s)) then BooleanT else UnknownT
      else if (h == "and" || h == "or") && n >= 2 then
        if forall i :: 1 <= i < n ==> ExprType(k[i], src, s) == BooleanT then BooleanT else UnknownT
      else if h == "not" && n == 2 then
        if ExprType(k[1], src, s) == BooleanT then BooleanT else UnknownT
      else if (h == "is-null" || h == "is-not-null") && n == 2 then BooleanT
      else if h in ["lower", "upper", "trim", "concat"] && n >= 2 then TextT
      else if h == "coalesce" && n >= 2 then ExprType(k[1], src, s)
      else UnknownT
  }

  predicate WellTyped(x: Tree, src: seq<Source>, s: Schema) {
    && (Form(x, "where", 2) ==> ExprType(x.kids[1], src, s) == BooleanT)
    && (Form(x, "join", 5) ==> ExprType(x.kids[4], src, s) == BooleanT)
    && (Form(x, "field", 3) ==> ExprType(x.kids[1], src, s) != UnknownT || IsList(x.kids[1], "ref"))
    && (IsList(x, "window") ==> ExprType(x, src, s) != UnknownT)
    && (x.Node? ==> forall k :: k in x.kids ==> WellTyped(k, src, s))
  }

  // ---- the front: everything before the first character of SQL ----

  /** The clauses of the query, or the status of a malformed root. */
  function QueryClauses(root: Tree): Result<seq<Tree>> {
    if && IsList(root, "nlsql") && |root.kids| >= 3
       && (IsAtom(root.kids[1], "1") || IsAtom(root.kids[1], "2"))
       && IsList(root.kids[2], "query") && ClausesValid(root.kids[2].kids[1..])
    then Ok(root.kids[2].kids[1..]) else Err(ParseE)
  }

  function FromSource(from: Tree): Option<Source>
    requires from.Node?
  {
    ParseSource(from, 1, if |from.kids| == 3 then 2 else 1)
  }

  function Front(root: Tree, s: Schema, p: Policy, lim: Limits): Result<(seq<Tree>, seq<Source>)> {
    match QueryClauses(root)
    case Err(e) => Err(e)
    case Ok(cs) =>
      var from, sel := FindClause(cs, "from"), FindClause(cs, "select");
      if from.None? || sel.None? || !(2 <= |from.value.kids| <= 3) || !(2 <= |sel.value.kids| <= lim.maxSelected + 1) then Err(ParseE)
      else if FromSource(from.value).None? || !Usable(s, p, FromSource(from.value).value) then Err(PolicyE)
      else match JoinSources(cs, [FromSource(from.value).value], s, p)
        case Err(e) => Err(e)
        case Ok(srcs) =>
          if !ValidColumns(root.kids[2], srcs, s, p) then Err(PolicyE)
          else if !WellTyped(root.kids[2], srcs, s) then Err(TypeE)
          else Ok((cs, srcs))
  }

  // ---- the back: the statement, clause by clause, threading the parameter table ----

  function FieldsPlan(fs: seq<Tree>, src: seq<Source>, s: Schema, ps: seq<Param>): Option<(seq<(E.Expr, string)>, seq<Param>)> {
    if fs == [] then Some(([], ps))
    else if !Form(fs[0], "field", 3) || !Name(fs[0].kids[2]) then None
    else match Number(fs[0].kids[1], src, s, ps)
      case None => None
      case Some((e, p1)) =>
        match FieldsPlan(fs[1..], src, s, p1)
        case None => None
        case Some((rest, p2)) => Some(([(e, fs[0].kids[2].text)] + rest, p2))
  }

  /** The first join clause whose alias is this one. */
  function JoinNode(cs: seq<Tree>, alias: string): (r: Option<Tree>)
    ensures r.Some? ==> r.value in cs && IsList(r.value, "join") && |r.value.kids| > 3 && IsAtom(r.value.kids[3], alias)
  {
    if cs == [] then None
    else if IsList(cs[0], "join") && |cs[0].kids| > 3 && IsAtom(cs[0].kids[3], alias) then Some(cs[0])
    else JoinNode(cs[1..], alias)
  }

  function KindWritten(x: Tree): St.JoinKind {
    match KindOf(x) case Some(k) => k case None => St.Inner
  }

  /** The joins for the sources from the i-th on, each with the clause found under its alias. */
  function JoinsPlan(cs: seq<Tree>, src: seq<Source>, i: nat, s: Schema, ps: seq<Param>): Option<(seq<St.Join>, seq<Param>)>
    requires i <= |src|
    decreases |src| - i
  {
    if i == |src| then Some(([], ps))
    else match JoinNode(cs, src[i].alias)
      case None => None
      case Some(j) =>
        if |j.kids| < 5 then None
        else match Number(j.kids[4], src, s, ps)
          case None => None
          case Some((on, p1)) =>
            match JoinsPlan(cs, src, i + 1, s, p1)
            case None => None
            case Some((rest, p2)) => Some(([St.Join(KindWritten(j.kids[1]), src[i], on)] + rest, p2))
  }

  function TenantParam(p: Policy): Param { Param(RuntimeName(p), RuntimeType(p), FromPolicy) }

  /** The injected predicates, one for each source with a rule. */
  function TenantsPlan(src: seq<Source>, s: Schema, p: Policy, ps: seq<Param>): Result<(seq<St.Tenant>, seq<Param>)> {
    if src == [] then Ok(([], ps))
    else match PolicyTenant(p, src[0].schema, src[0].table)
      case None => TenantsPlan(src[1..], s, p, ps)
      case Some(col) =>
        if !TenantValid(p, s, src[0].schema, src[0].table) then Err(PolicyE)
        else if !TenantTypeValid(p, s, src[0].schema, src[0].table) then Err(TypeE)
        else if !Sql.Ident(col) then Err(ParseE)
        else match Index(ps, TenantParam(p))
          case None => Err(ParseE)
          case Some((i, p1)) =>
            match TenantsPlan(src[1..], s, p, p1)
            case Err(e) => Err(e)
            case Ok((rest, p2)) => Ok(([St.Tenant(src[0].alias, col, i)] + rest, p2))
  }

  /** strtoul on a numeral: leading digits, saturating. */
  function Strtoul(t: string): nat {
    var n := Num(t[..DigitLen(t)]);
    if n <= ULONG_MAX then n else ULONG_MAX
  }

  /** The row limit written: the clause's, or the default when there is no clause. */
  function LimitOf(clause: Option<Tree>, p: Policy, lim: Limits): Option<nat> {
    match clause
    case None => Some(lim.defaultLimit)
    case Some(x) =>
      if Form(x, "limit", 2) && x.kids[1].Atom? && x.kids[1].text != "" && IsDigit(x.kids[1].text[0])
         && 0 < Strtoul(x.kids[1].text) <= p.maxLimit
      then Some(Strtoul(x.kids[1].text)) else None
  }

  function CondPlan(clause: Option<Tree>, src: seq<Source>, s: Schema, ps: seq<Param>): Option<(Option<E.Expr>, seq<Param>)> {
    match clause
    case None => Some((None, ps))
    case Some(x) =>
      if !(x.Node? && |x.kids| >= 2) then None
      else match Number(x.kids[1], src, s, ps)
        case None => None
        case Some((e, p1)) => Some((Some(e), p1))
  }

  function GroupPlan(clause: Option<Tree>, src: seq<Source>, s: Schema, ps: seq<Param>): Option<(Option<seq<E.Expr>>, seq<Param>)> {
    match clause
    case None => Some((None, ps))
    case Some(x) =>
      if !(x.Node? && x.kids != []) then None
      else match NumberAll(x.kids[1..], src, s, ps)
        case None => None
        case Some((es, p1)) => Some((Some(es), p1))
  }

  function OrderPlan(clause: Option<Tree>, src: seq<Source>, s: Schema, ps: seq<Param>): Option<(Option<(E.Expr, bool)>, seq<Param>)> {
    match clause
    case None => Some((None, ps))
    case Some(x) =>
      if !(x.Node? && |x.kids| == 3) then None
      else match Number(x.kids[1], src, s, ps)
        case None => None
        case Some((e, p1)) => Some((Some((e, IsAtom(x.kids[2], "desc"))), p1))
  }

  datatype Compiled = Compiled(stmt: St.Stmt, params: seq<Param>)

  /** The part of the statement up to the condition. */
  function Upper(cs: seq<Tree>, src: seq<Source>, s: Schema): Option<(seq<(E.Expr, string)>, seq<St.Join>, Option<E.Expr>, seq<Param>)>
    requires src != []
  {
    match FindClause(cs, "select")
    case None => None
    case Some(sel) =>
      match FieldsPlan(sel.kids[1..], src, s, [])
      case None => None
      case Some((fields, p1)) =>
        match JoinsPlan(cs, src, 1, s, p1)
        case None => None
        case Some((joins, p2)) =>
          match CondPlan(FindClause(cs, "where"), src, s, p2)
          case None => None
          case Some((cond, p3)) => Some((fields, joins, cond, p3))
  }

  function Back(cs: seq<Tree>, src: seq<Source>, s: Schema, p: Policy, lim: Limits, d: Sql.Dialect): Result<Compiled>
    requires src != []
  {
    var limit := LimitOf(FindClause(cs, "limit"), p, lim);
    match Upper(cs, src, s)
    case None => Err(ParseE)
    case Some((fields, joins, cond, p3)) =>
      if d.SqlServer? && limit.None? then Err(ParseE)
      else match TenantsPlan(src, s, p, p3)
        case Err(e) => Err(e)
        case Ok((tenants, p4)) =>
          match GroupPlan(FindClause(cs, "group-by"), src, s, p4)
          case None => Err(ParseE)
          case Some((group, p5)) =>
            match OrderPlan(FindClause(cs, "order-by"), src, s, p5)
            case None => Err(ParseE)
            case Some((order, p6)) =>
              if limit.None? then Err(ParseE)
              else Ok(Compiled(
                St.Stmt(if d.SqlServer? then limit else None, fields, src[0], joins, cond, tenants, group, order,
                        if d.SqlServer? then None else limit), p6))
  }

  /** compile_tree on a tree that has been read. */
  function CompileTree(root: Tree, s: Schema, p: Policy, lim: Limits, d: Sql.Dialect): Result<Compiled> {
    match Front(root, s, p, lim)
    case Err(e) => Err(e)
    case Ok((cs, src)) => if src == [] then Err(ParseE) else Back(cs, src, s, p, lim, d)
  }
}
