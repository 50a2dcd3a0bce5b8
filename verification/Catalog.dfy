/** Schemas, policies and the lookups the compiler makes in them. */
module Catalog {
  import opened Wrappers
  import opened Sexpr
  import Sql

  datatype SqlType =
    | UnknownT | NullT | BooleanT | Int64T | Uint64T | DecimalT | Float64T | TextT | BinaryT | UuidT | DateT
    | TimestampT | TimestampTzT

  datatype Column = Column(schema: string, table: string, name: string, ty: SqlType, tenantKey: bool)
  datatype ForeignKey = ForeignKey(fs: string, ft: string, fc: string, ts: string, tt: string, tc: string)
  datatype Schema = Schema(tables: seq<(string, string)>, cols: seq<Column>, fks: seq<ForeignKey>)

  datatype TenantRule = TenantRule(schema: string, table: string, col: string, ty: SqlType)
  datatype Policy = Policy(
    allow: seq<(string, string)>, deny: seq<(string, string, string)>, tenants: seq<TenantRule>,
    maxLimit: nat, maxJoins: nat, runtimeName: string, runtimeType: SqlType)

  datatype Source = Source(schema: string, table: string, alias: string)

  predicate IsColumn(c: Column, sc: string, tn: string, cn: string) {
    c.schema == sc && c.table == tn && c.name == cn
  }

  /** The first column of that name, as the lookup loop finds it. */
  function FindIn(cols: seq<Column>, sc: string, tn: string, cn: string): (r: Option<Column>)
    ensures r.Some? ==> r.value in cols && IsColumn(r.value, sc, tn, cn)
    ensures r.None? <==> forall c :: c in cols ==> !IsColumn(c, sc, tn, cn)
  {
    if cols == [] then None
    else if IsColumn(cols[0], sc, tn, cn) then Some(cols[0])
    else FindIn(cols[1..], sc, tn, cn)
  }

  function ColFind(s: Schema, sc: string, tn: string, cn: string): Option<Column> {
    FindIn(s.cols, sc, tn, cn)
  }

  predicate TableFound(s: Schema, sc: string, tn: string) { (sc, tn) in s.tables }
  predicate Allowed(p: Policy, sc: string, tn: string) { (sc, tn) in p.allow }
  predicate Denied(p: Policy, sc: string, tn: string, cn: string) { (sc, tn, cn) in p.deny }

  /** The first tenant rule for a table. */
  function RuleIn(rs: seq<TenantRule>, sc: string, tn: string): (r: Option<TenantRule>)
    ensures r.Some? ==> r.value in rs && r.value.schema == sc && r.value.table == tn
  {
    if rs == [] then None
    else if rs[0].schema == sc && rs[0].table == tn then Some(rs[0])
    else RuleIn(rs[1..], sc, tn)
  }

  function PolicyTenant(p: Policy, sc: string, tn: string): Option<string> {
    match RuleIn(p.tenants, sc, tn) case Some(r) => Some(r.col) case None => None
  }

  predicate NumericType(t: SqlType) { t.Int64T? || t.Uint64T? || t.DecimalT? || t.Float64T? }
  predicate Compatible(a: SqlType, b: SqlType) { a == b || (NumericType(a) && NumericType(b)) }

  function TypeName(s: string): SqlType {
    if s == "boolean" then BooleanT else if s == "int64" then Int64T else if s == "uint64" then Uint64T
    else if s == "decimal" then DecimalT else if s == "float64" then Float64T else if s == "text" then TextT
    else if s == "binary" then BinaryT else if s == "uuid" then UuidT else if s == "date" then DateT
    else if s == "timestamp" then TimestampT else if s == "timestamptz" then TimestampTzT else UnknownT
  }

  function RuntimeName(p: Policy): string { if p.runtimeName != "" then p.runtimeName else "tenant_id" }
  function RuntimeType(p: Policy): SqlType { if p.runtimeType.UnknownT? then UuidT else p.runtimeType }

  /** The rule's column exists and is marked as a tenant key. */
  predicate TenantValid(p: Policy, s: Schema, sc: string, tn: string) {
    match PolicyTenant(p, sc, tn)
    case None => true
    case Some(c) => var x := ColFind(s, sc, tn, c); x.Some? && x.value.tenantKey
  }

  predicate TenantTypeValid(p: Policy, s: Schema, sc: string, tn: string) {
    match RuleIn(p.tenants, sc, tn)
    case None => true
    case Some(r) =>
      && TenantValid(p, s, sc, tn)
      && var x := ColFind(s, sc, tn, r.col);
         && x.Some? && (r.ty.UnknownT? || Compatible(x.value.ty, r.ty))
         && Compatible(x.value.ty, RuntimeType(p))
  }

  /** The first source with this alias, or |src|. */
  function SourceIndex(src: seq<Source>, alias: string): (i: nat)
    ensures i <= |src| && (i < |src| ==> src[i].alias == alias)
    ensures forall j :: 0 <= j < i ==> src[j].alias != alias
  {
    if src == [] || src[0].alias == alias then 0 else 1 + SourceIndex(src[1..], alias)
  }

  /** The column an alias and a name refer to. */
  function Resolve(src: seq<Source>, s: Schema, alias: string, col: string): Option<Column> {
    var i := SourceIndex(src, alias);
    if i == |src| then None else ColFind(s, src[i].schema, src[i].table, col)
  }

  // ---- the shape tests on nodes ----

  predicate IsAtom(x: Tree, s: string) { x == Atom(s) }

  predicate IsList(x: Tree, s: string) { x.Node? && x.kids != [] && x.kids[0] == Atom(s) }

  predicate Form(x: Tree, s: string, n: nat) { IsList(x, s) && |x.kids| == n }

  function TextOf(x: Tree): string { if x.Atom? then x.text else "" }

  predicate Name(x: Tree) { x.Atom? && Sql.Ident(x.text) }
}
