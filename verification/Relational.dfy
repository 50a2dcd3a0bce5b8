/**
  What a statement means: nested-loop joins over rows with NULL, and three-valued conditions.

  TenantFilter is the reason the compiler may inject its predicates after the joins: filtering
  at the end selects the same rows as deleting foreign rows before any join, outer joins included.
 */
module Relational {
  import opened Wrappers
  import opened SqlExpr
  import opened Statement

  datatype Value = Null | Bool(b: bool) | Num(x: real) | Data(tag: nat, s: string) | Bad

  type Tuple = map<string, Value>

  /** One entry per source; None where an outer join has padded with NULLs. */
  type Row = seq<Option<Tuple>>
  type Database = (string, string) -> seq<Tuple>

  /** What evaluation needs besides the row. */
  datatype Env = Env(
    param: nat -> Value,
    less: (Value, Value) -> bool,       // collation
    other: (Expr, Row) -> Value)        // function calls, windows and references

  // ---- expressions ----

  function EqV(a: Value, b: Value): Value {
    if a.Bad? || b.Bad? then Bad
    else if a.Null? || b.Null? then Null
    else if a.Num? != b.Num? || a.Bool? != b.Bool? || (a.Data? && a.tag != b.tag) then Bad
    else Bool(a == b)
  }

  function NotV(a: Value): Value {
    match a case Bool(b) => Bool(!b) case Null => Null case _ => Bad
  }

  function CompareV(op: BinOp, a: Value, b: Value, less: (Value, Value) -> bool): Value {
    var e := EqV(a, b);
    if !e.Bool? then e
    else
      var lt := if a.Num? && b.Num? then a.x < b.x else less(a, b);
      match op
      case Eq => e
      case Neq => Bool(!e.b)
      case Lt => Bool(!e.b && lt)
      case Lte => Bool(e.b || lt)
      case Gt => Bool(!e.b && !lt)
      case Gte => Bool(e.b || !lt)
      case _ => Bad
  }

  /** Division by zero is NULL here; a database that raises an error returns no rows at all. */
  function ArithV(op: BinOp, a: Value, b: Value): Value {
    if !(a.Null? || a.Num?) || !(b.Null? || b.Num?) then Bad
    else if a.Null? || b.Null? then Null
    else match op
      case Mul => Num(a.x * b.x)
      case Add => Num(a.x + b.x)
      case Sub => Num(a.x - b.x)
      case Div => if b.x == 0.0 then Null else Num(a.x / b.x)
      case _ => Bad
  }

  predicate Truth(v: Value) { v.Null? || v.Bool? }

  /** AND for zero == false, OR for zero == true. */
  function Junction(vs: seq<Value>, zero: bool): Value {
    if exists v :: v in vs && !Truth(v) then Bad
    else if Bool(zero) in vs then Bool(zero)
    else if Null in vs then Null
    else Bool(!zero)
  }

  function IndexOf(names: seq<string>, a: string): (i: nat)
    ensures i <= |names| && (i < |names| ==> names[i] == a)
    ensures forall j :: 0 <= j < i ==> names[j] != a
  {
    if names == [] || names[0] == a then 0 else 1 + IndexOf(names[1..], a)
  }

  function Cell(row: Row, i: nat, col: string): Value {
    if i < |row| && row[i].Some? && col in row[i].value then row[i].value[col] else Null
  }

  function Eval(e: Expr, row: Row, names: seq<string>, env: Env): Value
    decreases e, 0
  {
    match e
    case Col(a, c) => Cell(row, IndexOf(names, a), c)
    case Par(i) => env.param(i)
    case Ref(_) => env.other(e, row)
    case Call(_, _, _) => env.other(e, row)
    case Over(_, _, _, _) => env.other(e, row)
    case Bin(op, l, r) =>
      var a, b := Eval(l, row, names, env), Eval(r, row, names, env);
      if op in {Mul, Add, Sub, Div} then ArithV(op, a, b) else CompareV(op, a, b, env.less)
    case And(es) => Junction(EvalAll(es, row, names, env), false)
    case Or(es) => Junction(EvalAll(es, row, names, env), true)
    case Not(x) => NotV(Eval(x, row, names, env))
    case IsNull(x, negated) =>
      var v := Eval(x, row, names, env);
      if v.Bad? then Bad else Bool(v.Null? != negated)
  }

  function EvalAll(es: seq<Expr>, row: Row, names: seq<string>, env: Env): (r: seq<Value>)
    ensures |r| == |es| && forall i :: 0 <= i < |es| ==> r[i] == Eval(es[i], row, names, env)
    decreases es, 1
  {
    if es == [] then [] else [Eval(es[0], row, names, env)] + EvalAll(es[1..], row, names, env)
  }

  predicate Holds(e: Expr, row: Row, names: seq<string>, env: Env) {
    Eval(e, row, names, env) == Bool(true)
  }

  // ---- joins ----

  /** The rows that r makes with the tuples of a table under the join condition. */
  function Matches(r: Row, ts: seq<Tuple>, on: Expr, names: seq<string>, env: Env): seq<Row> {
    if ts == [] then []
    else
      var more := Matches(r, ts[1..], on, names, env);
      if Holds(on, r + [Some(ts[0])], names, env) then [r + [Some(ts[0])]] + more else more
  }

  /** All rows for one left row: padded when nothing matches and the left side is preserved. */
  function Part(r: Row, keep: bool, ts: seq<Tuple>, on: Expr, names: seq<string>, env: Env): seq<Row> {
    var ms := Matches(r, ts, on, names, env);
    if keep && ms == [] then [r + [None]] else ms
  }

  function LeftSide(acc: seq<Row>, keep: bool, ts: seq<Tuple>, on: Expr, names: seq<string>, env: Env): seq<Row> {
    if acc == [] then []
    else Part(acc[0], keep, ts, on, names, env) + LeftSide(acc[1..], keep, ts, on, names, env)
  }

  function Pad(n: nat): Row { seq(n, i => None) }

  /** Right tuples that no left row matches, padded on the left. */
  function Unmatched(acc: seq<Row>, n: nat, ts: seq<Tuple>, on: Expr, names: seq<string>, env: Env): seq<Row> {
    if ts == [] then []
    else
      var more := Unmatched(acc, n, ts[1..], on, names, env);
      if exists r :: r in acc && Holds(on, r + [Some(ts[0])], names, env) then more
      else [Pad(n) + [Some(ts[0])]] + more
  }

  /** acc joined with one more table, where every row of acc has n entries. */
  function JoinRows(acc: seq<Row>, n: nat, kind: JoinKind, ts: seq<Tuple>, on: Expr, names: seq<string>, env: Env): seq<Row> {
    LeftSide(acc, kind.Left? || kind.Full?, ts, on, names, env)
    + if kind.Right? || kind.Full? then Unmatched(acc, n, ts, on, names, env) else []
  }

  function Names(q: Query): seq<string> {
    [q.from.alias] + seq(|q.joins|, i requires 0 <= i < |q.joins| => q.joins[i].src.alias)
  }

  function SourceOf(q: Query, i: nat): Source
    requires i <= |q.joins|
  {
    if i == 0 then q.from else q.joins[i - 1].src
  }

  function Single(ts: seq<Tuple>): seq<Row> {
    if ts == [] then [] else [[Some(ts[0])]] + Single(ts[1..])
  }

  function Table(db: Database, s: Source): seq<Tuple> { db(s.schema, s.table) }

  /** The rows of the first n joins. */
  function Rows(q: Query, n: nat, db: Database, env: Env): seq<Row>
    requires n <= |q.joins|
  {
    if n == 0 then Single(Table(db, q.from))
    else
      var j := q.joins[n - 1];
      JoinRows(Rows(q, n - 1, db, env), n, j.kind, Table(db, j.src), j.on, Names(q), env)
  }

  /** The rows on which the condition is true; NULL is not true. */
  function Passing(rows: seq<Row>, cond: Option<Expr>, names: seq<string>, env: Env): seq<Row> {
    if rows == [] then []
    else
      var more := Passing(rows[1..], cond, names, env);
      if cond.None? || Holds(cond.value, rows[0], names, env) then [rows[0]] + more else more
  }

  /** The rows that survive WHERE; grouping, ordering and limiting only see these. */
  function Surviving(q: Query, db: Database, env: Env): seq<Row> {
    Passing(Rows(q, |q.joins|, db, env), q.cond, Names(q), env)
  }

  // ---- tenants ----

  /** The tenant column of a table, for the tables that have a rule. */
  type Rules = (string, string) -> Option<string>

  predicate OwnTuple(t: Tuple, col: string, tenant: Value) {
    EqV(if col in t then t[col] else Null, tenant) == Bool(true)
  }

  function OwnTuples(ts: seq<Tuple>, rule: Option<string>, tenant: Value): seq<Tuple> {
    if rule.None? then ts
    else if ts == [] then []
    else if OwnTuple(ts[0], rule.value, tenant) then [ts[0]] + OwnTuples(ts[1..], rule, tenant)
    else OwnTuples(ts[1..], rule, tenant)
  }

  /** The database without the rows of other tenants. */
  function Restrict(db: Database, rules: Rules, tenant: Value): Database {
    (s: string, t: string) => OwnTuples(db(s, t), rules(s, t), tenant)
  }

  function RuleOf(q: Query, i: nat, rules: Rules): Option<string>
    requires i <= |q.joins|
  {
    rules(SourceOf(q, i).schema, SourceOf(q, i).table)
  }

  /** An entry passes its source's rule; an entry padded by an outer join does not. */
  predicate OwnEntry(x: Option<Tuple>, rule: Option<string>, tenant: Value) {
    rule.None? || (x.Some? && OwnTuple(x.value, rule.value, tenant))
  }

  predicate OwnRow(q: Query, r: Row, rules: Rules, tenant: Value)
    requires |r| <= |q.joins| + 1
  {
    forall i :: 0 <= i < |r| ==> OwnEntry(r[i], RuleOf(q, i, rules), tenant)
  }
}
