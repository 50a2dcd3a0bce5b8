/**
  A query selects the same rows in any two worlds that agree on the parameters it uses; and how
  function calls, windows and references may use parameters at all.
 */
module Agreement {
  import opened Wrappers
  import opened SqlExpr
  import opened Statement
  import opened ReadBack
  import Sql
  import P = Placeholders
  import C = CompileProps
  import Renumber
  import R = Relational

  /** The parameters an expression uses. */
  function Pars(e: Expr): set<nat>
    decreases e, 0
  {
    match e
    case Col(_, _) => {}
    case Par(i) => {i}
    case Ref(_) => {}
    case Call(_, _, args) => ParsAll(args)
    case Over(a, p, o, _) => Pars(a) + ParsAll(p) + Pars(o)
    case Bin(_, l, r) => Pars(l) + Pars(r)
    case And(es) => ParsAll(es)
    case Or(es) => ParsAll(es)
    case Not(x) => Pars(x)
    case IsNull(x, _) => Pars(x)
  }

  function ParsAll(es: seq<Expr>): (r: set<nat>)
    ensures forall i :: 0 <= i < |es| ==> Pars(es[i]) <= r
    decreases es, 1
  {
    if es == [] then {} else Pars(es[0]) + ParsAll(es[1..])
  }

  // ---- worlds ----

  type Args = nat -> R.Value

  /** The values of calls, windows and references, given the arguments. */
  type Calls = (Expr, R.Row, Args) -> R.Value

  /** They depend on the arguments of the parameters they use, and not on how those are numbered. */
  ghost predicate Natural(calls: Calls) {
    && (forall e: Expr, row: R.Row, p: Args, q: Args :: (forall n :: n in Pars(e) ==> p(n) == q(n)) ==> calls(e, row, p) == calls(e, row, q))
    && (forall e: Expr, row: R.Row, p: Args, f: Renumber.Numbering :: calls(Renumber.Renamed(e, f), row, p) == calls(e, row, Through(p, f)))
  }

  function Through(p: Args, f: Renumber.Numbering): Args { (n: nat) => p(f(n)) }

  /** Everything about a world but its arguments. */
  datatype Semantics = Semantics(less: (R.Value, R.Value) -> bool, calls: Calls) {
    function World(p: Args): R.Env { R.Env(p, less, (e: Expr, row: R.Row) => calls(e, row, p)) }
  }

  ghost predicate Agree(a: R.Env, b: R.Env, ns: set<nat>) {
    && a.less == b.less
    && (forall n :: n in ns ==> a.param(n) == b.param(n))
    && (forall e, row :: Pars(e) <= ns ==> a.other(e, row) == b.other(e, row))
  }

  /** A query used in a world where its parameters have been moved by f. */
  lemma {:induction false} MovedAgrees(w: Semantics, p: Args, q: Args, f: Renumber.Numbering, ns: set<nat>)
    requires Natural(w.calls) && forall n :: n in ns ==> p(f(n)) == q(n)
    ensures Agree(Renumber.Before(w.World(p), f), w.World(q), ns)
  {
    forall e: Expr, row: R.Row | Pars(e) <= ns
      ensures Renumber.Before(w.World(p), f).other(e, row) == w.World(q).other(e, row)
    {
      assert forall n :: n in Pars(e) ==> Through(p, f)(n) == q(n);
      assert w.calls(Renumber.Renamed(e, f), row, p) == w.calls(e, row, Through(p, f)) == w.calls(e, row, q);
    }
  }

  lemma {:induction false} WorldsAgree(w: Semantics, p: Args, q: Args, ns: set<nat>)
    requires Natural(w.calls) && forall n :: n in ns ==> p(n) == q(n)
    ensures Agree(w.World(p), w.World(q), ns)
  {
    forall e: Expr, row: R.Row | Pars(e) <= ns
      ensures w.World(p).other(e, row) == w.World(q).other(e, row)
    {
      assert forall n :: n in Pars(e) ==> p(n) == q(n);
    }
  }

  // ---- evaluation ----

  lemma {:induction false} EvalAgrees(e: Expr, row: R.Row, names: seq<string>, a: R.Env, b: R.Env, ns: set<nat>)
    requires Agree(a, b, ns) && Pars(e) <= ns
    ensures R.Eval(e, row, names, a) == R.Eval(e, row, names, b)
    decreases e, 0
  {
    match e
    case Bin(_, l, r) => EvalAgrees(l, row, names, a, b, ns); EvalAgrees(r, row, names, a, b, ns);
    case And(es) => EvalAllAgrees(es, row, names, a, b, ns);
    case Or(es) => EvalAllAgrees(es, row, names, a, b, ns);
    case Not(x) => EvalAgrees(x, row, names, a, b, ns);
    case IsNull(x, _) => EvalAgrees(x, row, names, a, b, ns);
    case _ =>
  }

  lemma {:induction false} EvalAllAgrees(es: seq<Expr>, row: R.Row, names: seq<string>, a: R.Env, b: R.Env, ns: set<nat>)
    requires Agree(a, b, ns) && ParsAll(es) <= ns
    ensures R.EvalAll(es, row, names, a) == R.EvalAll(es, row, names, b)
    decreases es, 1
  {
    if es != [] {
      EvalAgrees(es[0], row, names, a, b, ns);
      EvalAllAgrees(es[1..], row, names, a, b, ns);
    }
  }

  lemma {:induction false} MatchesAgree(r: R.Row, ts: seq<R.Tuple>, on: Expr, names: seq<string>, a: R.Env, b: R.Env, ns: set<nat>)
    requires Agree(a, b, ns) && Pars(on) <= ns
    ensures R.Matches(r, ts, on, names, a) == R.Matches(r, ts, on, names, b)
  {
    if ts != [] {
      EvalAgrees(on, r + [Some(ts[0])], names, a, b, ns);
      MatchesAgree(r, ts[1..], on, names, a, b, ns);
    }
  }

  lemma {:induction false} LeftAgrees(acc: seq<R.Row>, keep: bool, ts: seq<R.Tuple>, on: Expr, names: seq<string>, a: R.Env, b: R.Env, ns: set<nat>)
    requires Agree(a, b, ns) && Pars(on) <= ns
    ensures R.LeftSide(acc, keep, ts, on, names, a) == R.LeftSide(acc, keep, ts, on, names, b)
  {
    if acc != [] {
      MatchesAgree(acc[0], ts, on, names, a, b, ns);
      LeftAgrees(acc[1..], keep, ts, on, names, a, b, ns);
    }
  }

  lemma {:induction false} UnmatchedAgrees(acc: seq<R.Row>, n: nat, ts: seq<R.Tuple>, on: Expr, names: seq<string>, a: R.Env, b: R.Env, ns: set<nat>)
    requires Agree(a, b, ns) && Pars(on) <= ns
    ensures R.Unmatched(acc, n, ts, on, names, a) == R.Unmatched(acc, n, ts, on, names, b)
  {
    if ts != [] {
      forall r | r in acc
        ensures R.Holds(on, r + [Some(ts[0])], names, a) == R.Holds(on, r + [Some(ts[0])], names, b)
      {
        EvalAgrees(on, r + [Some(ts[0])], names, a, b, ns);
      }
      UnmatchedAgrees(acc, n, ts[1..], on, names, a, b, ns);
    }
  }

  /** The conditions of a query use no other parameters. */
  ghost predicate Uses(q: Query, ns: set<nat>) {
    (forall j :: j in q.joins ==> Pars(j.on) <= ns) && (q.cond.Some? ==> Pars(q.cond.value) <= ns)
  }

  lemma {:induction false} JoinRowsAgree(acc: seq<R.Row>, n: nat, kind: JoinKind, ts: seq<R.Tuple>, on: Expr, names: seq<string>,
                                         a: R.Env, b: R.Env, ns: set<nat>)
    requires Agree(a, b, ns) && Pars(on) <= ns
    ensures R.JoinRows(acc, n, kind, ts, on, names, a) == R.JoinRows(acc, n, kind, ts, on, names, b)
  {
    LeftAgrees(acc, kind.Left? || kind.Full?, ts, on, names, a, b, ns);
    UnmatchedAgrees(acc, n, ts, on, names, a, b, ns);
  }

  lemma {:induction false} RowsAgree(q: Query, n: nat, db: R.Database, a: R.Env, b: R.Env, ns: set<nat>)
    requires Agree(a, b, ns) && Uses(q, ns) && n <= |q.joins|
    ensures R.Rows(q, n, db, a) == R.Rows(q, n, db, b)
  {
    if n > 0 {
      var j := q.joins[n - 1];
      assert j in q.joins;
      RowsAgree(q, n - 1, db, a, b, ns);
      JoinRowsAgree(R.Rows(q, n - 1, db, a), n, j.kind, R.Table(db, j.src), j.on, R.Names(q), a, b, ns);
    }
  }

  lemma {:induction false} PassingAgrees(rows: seq<R.Row>, c: Option<Expr>, names: seq<string>, a: R.Env, b: R.Env, ns: set<nat>)
    requires Agree(a, b, ns) && (c.Some? ==> Pars(c.value) <= ns)
    ensures R.Passing(rows, c, names, a) == R.Passing(rows, c, names, b)
  {
    if rows != [] {
      if c.Some? { EvalAgrees(c.value, rows[0], names, a, b, ns); }
      PassingAgrees(rows[1..], c, names, a, b, ns);
    }
  }

  /** Worlds that agree on the parameters of a query select the same rows. */
  lemma {:induction false} SurvivingAgrees(q: Query, db: R.Database, a: R.Env, b: R.Env, ns: set<nat>)
    requires Agree(a, b, ns) && Uses(q, ns)
    ensures R.Surviving(q, db, a) == R.Surviving(q, db, b)
  {
    RowsAgree(q, |q.joins|, db, a, b, ns);
    PassingAgrees(R.Rows(q, |q.joins|, db, a), q.cond, R.Names(q), a, b, ns);
  }

  // ---- the parameters of a statement ----

  /** An expression, as it is read, uses the numbers in its text. */
  lemma {:induction false} ParsMarked(e: Expr, d: Sql.Dialect)
    requires d != Sql.MySql
    ensures forall n :: n in Pars(Norm(e, d)) ==> n in P.Marks(Pieces(e))
    decreases e, 0
  {
    match e
    case Col(_, _) =>
    case Par(i) => P.LeafMarks("", "", i);
    case Ref(_) =>
    case Call(f, distinct, args) =>
      ParsAllMarked(args, d);
      P.CallMarks(f, distinct, args);
    case Over(a, p, o, desc) =>
      ParsMarked(a, d);
      ParsAllMarked(p, d);
      ParsMarked(o, d);
      P.OverMarks(a, p, o, desc);
    case Bin(op, l, r) =>
      ParsMarked(l, d);
      ParsMarked(r, d);
      P.BinMarks(op, l, r);
    case And(es) =>
      ParsAllMarked(es, d);
      P.JunctionMarks(es);
    case Or(es) =>
      ParsAllMarked(es, d);
      P.JunctionMarks(es);
    case Not(x) =>
      ParsMarked(x, d);
      P.PrefixMarks(x, false);
    case IsNull(x, negated) =>
      ParsMarked(x, d);
      P.PrefixMarks(x, negated);
  }

  lemma {:induction false} ParsAllMarked(es: seq<Expr>, d: Sql.Dialect)
    requires d != Sql.MySql
    ensures forall n :: n in ParsAll(NormAll(es, d)) ==> n in P.MarksEach(es)
    ensures |es| == 1 ==> forall n :: n in Pars(Norm(es[0], d)) ==> n in P.MarksEach(es)
    decreases es, 1
  {
    if es != [] {
      ParsMarked(es[0], d);
      ParsAllMarked(es[1..], d);
      assert NormAll(es, d)[1..] == NormAll(es[1..], d);
    }
  }

  lemma {:induction false} JoinMarked(js: seq<Join>, j: Join)
    requires j in js
    ensures forall n :: n in P.Marks(Pieces(j.on)) ==> n in C.JoinMarks(js)
  {
    if j != js[0] {
      assert j in js[1..];
      JoinMarked(js[1..], j);
    }
  }

  lemma {:induction false} TenantMarked(ts: seq<Tenant>, t: Tenant)
    requires t in ts
    ensures t.index in C.TenantMarks(ts)
  {
    if t != ts[0] {
      assert t in ts[1..];
      TenantMarked(ts[1..], t);
    }
  }

  lemma {:induction false} ConjunctUses(q: Stmt, d: Sql.Dialect, x: Expr)
    requires d != Sql.MySql && x in Conjuncts(q, d)
    ensures forall n :: n in Pars(x) ==> n in C.CondMarks(q.cond) || n in C.TenantMarks(q.tenants)
  {
    var ts := TenantExprs(q.tenants, d);
    if q.cond.Some? && x == Norm(q.cond.value, d) {
      ParsMarked(q.cond.value, d);
    } else {
      var i :| 0 <= i < |ts| && ts[i] == x;
      TenantMarked(q.tenants, q.tenants[i]);
      assert Pars(x) == {q.tenants[i].index} by {
        assert Pars(Col(q.tenants[i].alias, q.tenants[i].col)) == {};
      }
    }
  }

  lemma {:induction false} ParsOfAll(es: seq<Expr>, n: nat) returns (e: Expr)
    requires n in ParsAll(es)
    ensures e in es && n in Pars(e)
  {
    if n in Pars(es[0]) {
      e := es[0];
    } else {
      e := ParsOfAll(es[1..], n);
    }
  }

  lemma {:induction false} ConditionUses(q: Stmt, d: Sql.Dialect, n: nat)
    requires d != Sql.MySql && Meant(q, d).cond.Some? && n in Pars(Meant(q, d).cond.value)
    ensures n in C.CondMarks(q.cond) || n in C.TenantMarks(q.tenants)
  {
    var es := Conjuncts(q, d);
    var e;
    if |es| == 1 {
      e := es[0];
    } else {
      e := ParsOfAll(es, n);
    }
    ConjunctUses(q, d, e);
  }

  /** A statement, as it is read, uses the numbers in its text. */
  lemma {:induction false} MeantUses(q: Stmt, d: Sql.Dialect, ns: set<nat>)
    requires d != Sql.MySql && forall n :: n in P.Marks(StmtPieces(q)) ==> n in ns
    ensures Uses(Meant(q, d), ns)
  {
    var m := Meant(q, d);
    C.StmtMarks(q);
    forall j | j in m.joins
      ensures Pars(j.on) <= ns
    {
      var i :| 0 <= i < |q.joins| && m.joins[i] == j;
      ParsMarked(q.joins[i].on, d);
      JoinMarked(q.joins, q.joins[i]);
    }
    if m.cond.Some? {
      forall n | n in Pars(m.cond.value)
        ensures n in ns
      {
        ConditionUses(q, d, n);
      }
    }
  }
}
