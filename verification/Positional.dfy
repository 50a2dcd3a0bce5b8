/**
  Placeholders without numbers: the k-th one in reading order takes the k-th entry. Read that way,
  MySQL text is the statement that was meant wherever no parameter repeats.
 */
module Positional {
  import opened Wrappers
  import opened Sexpr
  import opened Catalog
  import opened Compile
  import opened CompileProps
  import Sql
  import SqlRead
  import St = Statement
  import StatementText
  import Placeholders
  import Binding
  import R = Relational
  import TenantCompile

  /** The tokens with their placeholders numbered from k on. */
  function Counted(ts: seq<Sql.Tok>, k: nat): seq<Sql.Tok> {
    if ts == [] then []
    else if ts[0].TPar? then [Sql.TPar(k)] + Counted(ts[1..], k + 1)
    else [ts[0]] + Counted(ts[1..], k)
  }

  /** The tokens a database reads, numbered by position where they carry no numbers. */
  function Tokens(s: string, d: Sql.Dialect): seq<Sql.Tok> {
    if d == Sql.MySql then Counted(Sql.LexSql(s, d), 1) else Sql.LexSql(s, d)
  }

  /** The statement a database reads. */
  function ReadBy(s: string, d: Sql.Dialect): Option<St.Query> {
    St.ParseQuery(SqlRead.ClassifyAll(Tokens(s, d)))
  }

  lemma {:induction false} CountedCons(t: Sql.Tok, ts: seq<Sql.Tok>, k: nat)
    ensures Counted([t] + ts, k) == if t.TPar? then [Sql.TPar(k)] + Counted(ts, k + 1) else [t] + Counted(ts, k)
  {
    assert ([t] + ts)[1..] == ts;
  }

  /** The numbers k, k + 1, and so on. */
  ghost predicate RunsFrom(ks: seq<nat>, k: nat) { forall i :: 0 <= i < |ks| ==> ks[i] == k + i }

  lemma {:induction false} RunsCons(n: nat, ks: seq<nat>, k: nat)
    requires RunsFrom([n] + ks, k)
    ensures n == k && RunsFrom(ks, k + 1)
  {
    var all := [n] + ks;
    assert all[0] == n;
    forall i | 0 <= i < |ks|
      ensures ks[i] == k + 1 + i
    {
      assert all[i + 1] == ks[i];
    }
  }

  /** Counting gives back numbers that run on from k. */
  lemma {:induction false} CountedPieces(ps: seq<Sql.Piece>, k: nat)
    requires RunsFrom(Placeholders.Marks(ps), k)
    ensures Counted(Sql.Toks(ps, Sql.MySql), k) == Sql.Toks(ps, Sql.Postgres)
  {
    if ps != [] {
      var rest := Placeholders.Marks(ps[1..]);
      if ps[0].Ph? {
        RunsCons(ps[0].n, rest, k);
        CountedPieces(ps[1..], k + 1);
        CountedCons(Sql.TPar(0), Sql.Toks(ps[1..], Sql.MySql), k);
      } else {
        CountedPieces(ps[1..], k);
        if ps[0].Sp? {
          assert [] + Sql.Toks(ps[1..], Sql.MySql) == Sql.Toks(ps[1..], Sql.MySql);
          assert [] + Sql.Toks(ps[1..], Sql.Postgres) == Sql.Toks(ps[1..], Sql.Postgres);
        } else {
          CountedCons(Sql.ToksOne(ps[0], Sql.MySql)[0], Sql.Toks(ps[1..], Sql.MySql), k);
        }
      }
    }
  }

  /** Where no two places of a request ask for the same parameter. */
  ghost predicate NoRepeats(root: Tree, s: Schema, p: Policy, lim: Limits) {
    && Front(root, s, p, lim).Ok? && Front(root, s, p, lim).value.1 != []
    && Binding.NoneRepeated(QuerySites(Front(root, s, p, lim).value.0, Front(root, s, p, lim).value.1, p))
  }

  lemma {:induction false} TextByPosition(q: St.Stmt)
    requires St.WfStmt(q)
    requires RunsFrom(Placeholders.Marks(St.StmtPieces(q)), 1)
    ensures ReadBy(StatementText.Text(q, Sql.MySql), Sql.MySql) == St.QueryOf(StatementText.Text(q, Sql.Postgres), Sql.Postgres)
  {
    StatementText.StmtGood(q);
    Sql.LexPieces(St.StmtPieces(q), Sql.MySql);
    Sql.LexPieces(St.StmtPieces(q), Sql.Postgres);
    CountedPieces(St.StmtPieces(q), 1);
  }

  lemma {:induction false} MarksRun(root: Tree, s: Schema, p: Policy, lim: Limits, d: Sql.Dialect)
    requires CompileTree(root, s, p, lim, d).Ok? && NoRepeats(root, s, p, lim)
    ensures RunsFrom(Placeholders.Marks(St.StmtPieces(CompileTree(root, s, p, lim, d).value.stmt)), 1)
  {
    var r := TakeApart(root, s, p, lim, d);
    Binding.MarksMatch(root, s, p, lim, d, CompileTree(root, s, p, lim, d).value, r);
  }

  /** The numbering in which a dialect's text is read. */
  function Numbering(d: Sql.Dialect): Sql.Dialect { if d == Sql.MySql then Sql.Postgres else d }

  /**
    Every accepted request is read as it was meant, MySQL's included where no parameter repeats,
    unless its group-by clause is empty.
   */
  lemma {:induction false} ReadAsMeant(root: Tree, s: Schema, p: Policy, lim: Limits, d: Sql.Dialect)
    requires CompileTree(root, s, p, lim, d).Ok? && (d == Sql.MySql ==> NoRepeats(root, s, p, lim))
    ensures var q := CompileTree(root, s, p, lim, d).value.stmt;
            ReadBy(StatementText.Text(q, d), d) == if HasEmptyGroup(root) then None else Some(St.Meant(q, Numbering(d)))
  {
    var q := CompileTree(root, s, p, lim, d).value.stmt;
    AcceptedIsWf(root, s, p, lim, d);
    GroupIsEmpty(root, s, p, lim, d);
    StatementText.EmittedTextReadsBack(q, Numbering(d));
    if d == Sql.MySql {
      MarksRun(root, s, p, lim, d);
      TextByPosition(q);
    }
  }

  /** The database's statement keeps the tenants apart, for every dialect. */
  lemma {:induction false} TextIsIsolated(root: Tree, s: Schema, p: Policy, lim: Limits, d: Sql.Dialect,
                                          env: R.Env, db: R.Database, tenant: R.Value)
    requires CompileTree(root, s, p, lim, d).Ok? && (d == Sql.MySql ==> NoRepeats(root, s, p, lim))
    requires !HasEmptyGroup(root)
    requires var c := CompileTree(root, s, p, lim, d).value;
             TenantCompile.BindsTenant(c.params, env, tenant) && TenantCompile.DistinctNames(R.Names(St.Meant(c.stmt, Numbering(d))))
    ensures var q := ReadBy(StatementText.Text(CompileTree(root, s, p, lim, d).value.stmt, d), d);
            q.Some? && R.Surviving(q.value, db, env) == R.Surviving(q.value, R.Restrict(db, TenantCompile.RulesOf(p), tenant), env)
  {
    ReadAsMeant(root, s, p, lim, d);
    TenantCompile.TenantRestriction(root, s, p, lim, d, Numbering(d), env, db, tenant);
  }
}
