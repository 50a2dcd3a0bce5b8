/**
  What linked text selects: with the joined arguments each branch finds the rows that it finds
  alone with its own, and no other tenant's rows take part in either.
 */
module LinkMeaning {
  import opened Wrappers
  import opened Emit
  import Sql
  import Catalog
  import Compile
  import CompileProps
  import Placeholders
  import Binding
  import Positional
  import Rebase
  import Renumber
  import St = Statement
  import R = Relational
  import TenantCompile
  import Link
  import opened LinkRead
  import opened Agreement

  /** The arguments carry the value v of every entry at its place. */
  ghost predicate Supplied(args: Args, ps: seq<Param>, v: Param -> R.Value) {
    forall k :: 0 <= k < |ps| ==> args(k + 1) == v(ps[k])
  }

  /** The evaluation in which the right-hand query finds its parameters where it numbered them. */
  function Alone(env: R.Env, d: Sql.Dialect, k: nat): R.Env {
    Renumber.Before(env, Shift(Positional.Numbering(d), k))
  }

  lemma {:induction false} LandsAt(l: seq<Param>, r: seq<Param>, d: Sql.Dialect, n: nat)
    requires d != Sql.MySql && Link.KeepsBindings(l, r, d) && 1 <= n <= |r| && Placeholders.Distinct(r) && |l| + |r| < Rebase.WORD
    ensures var m := Rebase.NewIndex(n, d, |l|); 1 <= m <= |l| + |r| && (l + r)[m - 1] == r[n - 1]
  {
    if Rebase.Numbered(d) {
      Link.NumberedLands(l, r, d, n);
    } else {
      Link.SqliteLands(l, r);
    }
    assert Link.Lands(n, d, |l|, l + r, r);
    assert Link.BindOne(Sql.TPar(n), r) == Link.To(r[n - 1]);
  }

  /** What the linked arguments hold where parameter n has been moved to is what its own hold at n. */
  lemma {:induction false} SuppliedRight(l: seq<Param>, r: seq<Param>, d: Sql.Dialect, linked: Args, right: Args, v: Param -> R.Value, n: nat)
    requires d != Sql.MySql && Link.KeepsBindings(l, r, d) && 1 <= n <= |r| && Placeholders.Distinct(r) && |l| + |r| < Rebase.WORD
    requires Supplied(linked, l + r, v) && Supplied(right, r, v)
    ensures linked(Shift(d, |l|)(n)) == right(n)
  {
    LandsAt(l, r, d, n);
    var m := Rebase.NewIndex(n, d, |l|);
    assert linked((m - 1) + 1) == v((l + r)[m - 1]);
    assert right((n - 1) + 1) == v(r[n - 1]);
  }

  lemma {:induction false} SuppliedLeft(l: seq<Param>, r: seq<Param>, linked: Args, left: Args, v: Param -> R.Value, n: nat)
    requires 1 <= n <= |l| && Supplied(linked, l + r, v) && Supplied(left, l, v)
    ensures linked(n) == left(n)
  {
    assert linked((n - 1) + 1) == v((l + r)[n - 1]);
    assert left((n - 1) + 1) == v(l[n - 1]);
  }

  function Numbers(n: nat): (ns: set<nat>)
    ensures forall k :: k in ns <==> 1 <= k <= n
  {
    if n == 0 then {} else Numbers(n - 1) + {n}
  }

  lemma {:induction false} RequestUses(x: Request, c: Compile.Compiled, d: Sql.Dialect)
    requires x.Gives(c, d)
    ensures Uses(St.Meant(c.stmt, Positional.Numbering(d)), Numbers(|c.params|))
  {
    RequestFacts(x, c, d);
    Link.CompiledFacts(c, d);
    var ks := Placeholders.Marks(St.StmtPieces(c.stmt));
    Binding.KnownInOrder(ks, |c.params|);
    MeantUses(c.stmt, Positional.Numbering(d), Numbers(|c.params|));
  }

  lemma {:induction false} BindsRight(l: seq<Param>, r: seq<Param>, d: Sql.Dialect, env: R.Env, tenant: R.Value)
    requires Link.KeepsBindings(l, r, Positional.Numbering(d)) && Placeholders.Distinct(r) && |l| + |r| < Rebase.WORD
    requires TenantCompile.BindsTenant(l + r, env, tenant)
    ensures TenantCompile.BindsTenant(r, Alone(env, d, |l|), tenant)
  {
    forall k | 0 <= k < |r| && r[k].origin.FromPolicy?
      ensures Alone(env, d, |l|).param(k + 1) == tenant
    {
      LandsAt(l, r, Positional.Numbering(d), k + 1);
      var m := Rebase.NewIndex(k + 1, Positional.Numbering(d), |l|);
      assert (l + r)[m - 1].origin.FromPolicy?;
    }
  }

  lemma {:induction false} BindsLeft(l: seq<Param>, r: seq<Param>, env: R.Env, tenant: R.Value)
    requires TenantCompile.BindsTenant(l + r, env, tenant)
    ensures TenantCompile.BindsTenant(l, env, tenant)
  {
    assert forall k :: 0 <= k < |l| ==> (l + r)[k] == l[k];
  }

  lemma {:induction false} Sizes(x: Request, y: Request, l: Compile.Compiled, r: Compile.Compiled, d: Sql.Dialect)
    requires x.Gives(l, d) && y.Gives(r, d)
    ensures |l.params| + |r.params| < Rebase.WORD && Placeholders.Distinct(r.params)
  {
    RequestFacts(x, l, d);
    RequestFacts(y, r, d);
    Link.CompiledFacts(r, d);
  }

  lemma {:induction false} LeftSelects(x: Request, l: Compile.Compiled, ps: seq<Param>, d: Sql.Dialect, w: Semantics,
                                       linked: Args, left: Args, v: Param -> R.Value, db: R.Database)
    requires x.Gives(l, d) && Natural(w.calls) && Supplied(linked, l.params + ps, v) && Supplied(left, l.params, v)
    ensures var m := St.Meant(l.stmt, Positional.Numbering(d)); R.Surviving(m, db, w.World(linked)) == R.Surviving(m, db, w.World(left))
  {
    var ns := Numbers(|l.params|);
    forall n | n in ns
      ensures linked(n) == left(n)
    {
      SuppliedLeft(l.params, ps, linked, left, v, n);
    }
    WorldsAgree(w, linked, left, ns);
    RequestUses(x, l, d);
    SurvivingAgrees(St.Meant(l.stmt, Positional.Numbering(d)), db, w.World(linked), w.World(left), ns);
  }

  lemma {:induction false} RightSelects(y: Request, ps: seq<Param>, r: Compile.Compiled, d: Sql.Dialect, w: Semantics,
                                        linked: Args, right: Args, v: Param -> R.Value, db: R.Database)
    requires y.Gives(r, d) && Natural(w.calls) && Supplied(linked, ps + r.params, v) && Supplied(right, r.params, v)
    requires Link.KeepsBindings(ps, r.params, Positional.Numbering(d)) && Placeholders.Distinct(r.params) && |ps| + |r.params| < Rebase.WORD
    ensures R.Surviving(Moved(r, d, |ps|), db, w.World(linked)) == R.Surviving(St.Meant(r.stmt, Positional.Numbering(d)), db, w.World(right))
  {
    var e, ns := Positional.Numbering(d), Numbers(|r.params|);
    forall n | n in ns
      ensures linked(Shift(e, |ps|)(n)) == right(n)
    {
      SuppliedRight(ps, r.params, e, linked, right, v, n);
    }
    MovedAgrees(w, linked, right, Shift(e, |ps|), ns);
    RequestUses(y, r, d);
    MovedSelects(r, d, |ps|, w.World(linked), db);
    SurvivingAgrees(St.Meant(r.stmt, e), db, Alone(w.World(linked), d, |ps|), w.World(right), ns);
  }

  lemma {:induction false} MovedSelects(r: Compile.Compiled, d: Sql.Dialect, k: nat, env: R.Env, db: R.Database)
    ensures R.Surviving(Moved(r, d, k), db, env) == R.Surviving(St.Meant(r.stmt, Positional.Numbering(d)), db, Alone(env, d, k))
  {
    Renumber.SurvivingRenamed(St.Meant(r.stmt, Positional.Numbering(d)), Shift(Positional.Numbering(d), k), db, env);
  }

  /** Both branches of a linked text, as read, select with the joined arguments what they select alone with their own. */
  ghost predicate SelectAsAlone(a: St.Query, b: St.Query, l: Compile.Compiled, r: Compile.Compiled, d: Sql.Dialect, w: Semantics,
                                linked: Args, left: Args, right: Args, db: R.Database) {
    var e := Positional.Numbering(d);
    && R.Surviving(a, db, w.World(linked)) == R.Surviving(St.Meant(l.stmt, e), db, w.World(left))
    && R.Surviving(b, db, w.World(linked)) == R.Surviving(St.Meant(r.stmt, e), db, w.World(right))
  }

  lemma {:induction false} BothSelect(x: Request, y: Request, l: Compile.Compiled, r: Compile.Compiled, d: Sql.Dialect, w: Semantics,
                                      linked: Args, left: Args, right: Args, v: Param -> R.Value, db: R.Database)
    requires x.Gives(l, d) && y.Gives(r, d) && Natural(w.calls)
    requires Link.KeepsBindings(l.params, r.params, Positional.Numbering(d))
    requires Supplied(linked, l.params + r.params, v) && Supplied(left, l.params, v) && Supplied(right, r.params, v)
    ensures SelectAsAlone(St.Meant(l.stmt, Positional.Numbering(d)), Moved(r, d, |l.params|), l, r, d, w, linked, left, right, db)
  {
    Sizes(x, y, l, r, d);
    LeftSelects(x, l, r.params, d, w, linked, left, v, db);
    RightSelects(y, l.params, r, d, w, linked, right, v, db);
  }

  /**
    With the joined arguments a set operation combines the rows that its branches select alone,
    each with any arguments that hold the same values for its own parameters.
   */
  lemma {:induction false} SetSelects(x: Request, y: Request, l: Compile.Compiled, op: Link.SetOp, r: Compile.Compiled, d: Sql.Dialect,
                                      w: Semantics, linked: Args, left: Args, right: Args, v: Param -> R.Value, db: R.Database)
    requires x.Gives(l, d) && y.Gives(r, d) && !CompileProps.HasEmptyGroup(x.root) && !CompileProps.HasEmptyGroup(y.root)
    requires Natural(w.calls) && Link.KeepsBindings(l.params, r.params, Positional.Numbering(d))
    requires Supplied(linked, l.params + r.params, v) && Supplied(left, l.params, v) && Supplied(right, r.params, v)
    ensures var q := ReadSet(SetText(l, op, r, d), d);
            q.Some? && q.value.1 == op && SelectAsAlone(q.value.0, q.value.2, l, r, d, w, linked, left, right, db)
  {
    SetReads(x, y, l, op, r, d);
    BothSelect(x, y, l, r, d, w, linked, left, right, v, db);
  }

  /** So does WITH: the inner query and the outer one. */
  lemma {:induction false} WithSelects(x: Request, y: Request, name: string, l: Compile.Compiled, r: Compile.Compiled, d: Sql.Dialect,
                                       w: Semantics, linked: Args, left: Args, right: Args, v: Param -> R.Value, db: R.Database)
    requires x.Gives(l, d) && y.Gives(r, d) && !CompileProps.HasEmptyGroup(x.root) && !CompileProps.HasEmptyGroup(y.root)
    requires Sql.Ident(name) && Natural(w.calls) && Link.KeepsBindings(l.params, r.params, Positional.Numbering(d))
    requires Supplied(linked, l.params + r.params, v) && Supplied(left, l.params, v) && Supplied(right, r.params, v)
    ensures var q := ReadWith(WithText(name, l, r, d), d);
            q.Some? && q.value.1 == name && SelectAsAlone(q.value.0, q.value.2, l, r, d, w, linked, left, right, db)
  {
    WithReads(x, y, name, l, r, d);
    BothSelect(x, y, l, r, d, w, linked, left, right, v, db);
  }

  // ---- tenants ----

  /** The rows of a query are those of the database without other tenants' rows. */
  ghost predicate Isolated(q: St.Query, p: Catalog.Policy, env: R.Env, db: R.Database, tenant: R.Value) {
    R.Surviving(q, db, env) == R.Surviving(q, R.Restrict(db, TenantCompile.RulesOf(p), tenant), env)
  }

  ghost predicate OneNameEach(c: Compile.Compiled, d: Sql.Dialect) {
    TenantCompile.DistinctNames(R.Names(St.Meant(c.stmt, Positional.Numbering(d))))
  }

  lemma {:induction false} BothIsolated(x: Request, y: Request, l: Compile.Compiled, r: Compile.Compiled, d: Sql.Dialect,
                                        env: R.Env, db: R.Database, tenant: R.Value)
    requires x.Gives(l, d) && y.Gives(r, d) && OneNameEach(l, d) && OneNameEach(r, d)
    requires Link.KeepsBindings(l.params, r.params, Positional.Numbering(d))
    requires TenantCompile.BindsTenant(l.params + r.params, env, tenant)
    ensures Isolated(St.Meant(l.stmt, Positional.Numbering(d)), x.p, env, db, tenant)
    ensures Isolated(Moved(r, d, |l.params|), y.p, env, db, tenant)
  {
    var k := |l.params|;
    Sizes(x, y, l, r, d);
    BindsLeft(l.params, r.params, env, tenant);
    BindsRight(l.params, r.params, d, env, tenant);
    TenantCompile.TenantRestriction(x.root, x.s, x.p, x.lim, d, Positional.Numbering(d), env, db, tenant);
    TenantCompile.TenantRestriction(y.root, y.s, y.p, y.lim, d, Positional.Numbering(d), Alone(env, d, k), db, tenant);
    MovedSelects(r, d, k, env, db);
    MovedSelects(r, d, k, env, R.Restrict(db, TenantCompile.RulesOf(y.p), tenant));
  }

  /** No other tenant's rows take part in either branch of a set operation. */
  lemma {:induction false} SetIsIsolated(x: Request, y: Request, l: Compile.Compiled, op: Link.SetOp, r: Compile.Compiled, d: Sql.Dialect,
                                         env: R.Env, db: R.Database, tenant: R.Value)
    requires x.Gives(l, d) && y.Gives(r, d) && !CompileProps.HasEmptyGroup(x.root) && !CompileProps.HasEmptyGroup(y.root)
    requires OneNameEach(l, d) && OneNameEach(r, d)
    requires Link.KeepsBindings(l.params, r.params, Positional.Numbering(d))
    requires TenantCompile.BindsTenant(l.params + r.params, env, tenant)
    ensures var q := ReadSet(SetText(l, op, r, d), d);
            q.Some? && Isolated(q.value.0, x.p, env, db, tenant) && Isolated(q.value.2, y.p, env, db, tenant)
  {
    BothIsolated(x, y, l, r, d, env, db, tenant);
    SetReads(x, y, l, op, r, d);
  }

  /** Nor in either query of WITH. */
  lemma {:induction false} WithIsIsolated(x: Request, y: Request, name: string, l: Compile.Compiled, r: Compile.Compiled, d: Sql.Dialect,
                                          env: R.Env, db: R.Database, tenant: R.Value)
    requires x.Gives(l, d) && y.Gives(r, d) && !CompileProps.HasEmptyGroup(x.root) && !CompileProps.HasEmptyGroup(y.root)
    requires OneNameEach(l, d) && OneNameEach(r, d) && Sql.Ident(name)
    requires Link.KeepsBindings(l.params, r.params, Positional.Numbering(d))
    requires TenantCompile.BindsTenant(l.params + r.params, env, tenant)
    ensures var q := ReadWith(WithText(name, l, r, d), d);
            q.Some? && Isolated(q.value.0, x.p, env, db, tenant) && Isolated(q.value.2, y.p, env, db, tenant)
  {
    BothIsolated(x, y, l, r, d, env, db, tenant);
    WithReads(x, y, name, l, r, d);
  }

  /**
    For no request does the outer query of WITH read the table that WITH defines by its bare name:
    it writes every table as "public"."table", the new one too.
   */
  lemma {:induction false} WithNamesNoBareTable(x: Request, y: Request, name: string, l: Compile.Compiled, r: Compile.Compiled, d: Sql.Dialect)
    requires x.Gives(l, d) && y.Gives(r, d) && !CompileProps.HasEmptyGroup(x.root) && !CompileProps.HasEmptyGroup(y.root)
    requires Sql.Ident(name)
    ensures var q := ReadWith(WithText(name, l, r, d), d);
            q.Some? && forall i :: 0 <= i <= |q.value.2.joins| ==> R.SourceOf(q.value.2, i).schema == "public"
  {
    WithReads(x, y, name, l, r, d);
    CompileProps.SourcesAreQualified(y.root, y.s, y.p, y.lim, d);
    MovedSources(r, d, |l.params|);
  }

  lemma {:induction false} MovedSources(r: Compile.Compiled, d: Sql.Dialect, k: nat)
    requires r.stmt.from.schema == "public" && forall j :: j in r.stmt.joins ==> j.src.schema == "public"
    ensures var q := Moved(r, d, k); forall i :: 0 <= i <= |q.joins| ==> R.SourceOf(q, i).schema == "public"
  {
    var q := Moved(r, d, k);
    forall i | 0 <= i <= |q.joins|
      ensures R.SourceOf(q, i).schema == "public"
    {
      assert i > 0 ==> r.stmt.joins[i - 1] in r.stmt.joins && q.joins[i - 1].src == r.stmt.joins[i - 1].src;
    }
  }
}
