/**
  The placeholders of a finished text, as the database reads them, and the parameter list that
  is sent along with it.
 */
module Binding {
  import opened Wrappers
  import opened Sexpr
  import opened Catalog
  import opened Emit
  import opened Compile
  import opened Placeholders
  import opened CompileProps
  import Sql
  import St = Statement
  import StatementText
  import Samples

  /** The numbers of the placeholders among some tokens, in reading order. */
  function Holes(ts: seq<Sql.Tok>): seq<nat> {
    if ts == [] then [] else if ts[0].TPar? then [ts[0].n] + Holes(ts[1..]) else Holes(ts[1..])
  }

  lemma {:induction false} HolesOfPieces(ps: seq<Sql.Piece>, d: Sql.Dialect)
    ensures |Holes(Sql.Toks(ps, d))| == |Marks(ps)|
    ensures d != Sql.MySql ==> Holes(Sql.Toks(ps, d)) == Marks(ps)
  {
    if ps != [] {
      var t, rest := Sql.ToksOne(ps[0], d), Sql.Toks(ps[1..], d);
      HolesOfPieces(ps[1..], d);
      if t == [] {
        assert t + rest == rest;
      } else {
        assert (t + rest)[1..] == rest && (t + rest)[0] == t[0];
      }
    }
  }

  /** The placeholders the database finds in the text of a statement. */
  function HolesOf(q: St.Stmt, d: Sql.Dialect): seq<nat> {
    Holes(Sql.LexSql(StatementText.Text(q, d), d))
  }

  lemma {:induction false} HolesOfStmt(root: Tree, s: Schema, p: Policy, lim: Limits, d: Sql.Dialect)
    requires CompileTree(root, s, p, lim, d).Ok?
    ensures var q := CompileTree(root, s, p, lim, d).value.stmt;
            |HolesOf(q, d)| == |Marks(St.StmtPieces(q))| && (d != Sql.MySql ==> HolesOf(q, d) == Marks(St.StmtPieces(q)))
  {
    var q := CompileTree(root, s, p, lim, d).value.stmt;
    AcceptedIsWf(root, s, p, lim, d);
    StatementText.StmtGood(q);
    Sql.LexPieces(St.StmtPieces(q), d);
    HolesOfPieces(St.StmtPieces(q), d);
  }

  // ---- whose parameters they are ----

  lemma {:induction false} SitesAreUsers(x: Tree)
    ensures forall q :: q in Sites(x) ==> q.origin.User?
    decreases Weight(x), 0
  {
    ShapeSmaller(x);
    match ShapeOf(x)
    case WindowS(a, part, o, _) =>
      SitesAreUsers(a);
      SitesAllAreUsers(part);
      SitesAreUsers(o);
    case UnaryS(_, _, a) => SitesAreUsers(a);
    case BinaryS(_, l, r) =>
      SitesAreUsers(l);
      SitesAreUsers(r);
    case JunctionS(_, args) => SitesAllAreUsers(args);
    case NotS(a) => SitesAreUsers(a);
    case NullS(_, a) => SitesAreUsers(a);
    case ListS(_, args) => SitesAllAreUsers(args);
    case _ =>
  }

  lemma {:induction false} SitesAllAreUsers(xs: seq<Tree>)
    ensures forall q :: q in SitesAll(xs) ==> q.origin.User?
    decreases WeightAll(xs), 1
  {
    if xs != [] {
      SitesAreUsers(xs[0]);
      SitesAllAreUsers(xs[1..]);
    }
  }

  lemma {:induction false} FieldSitesAreUsers(fs: seq<Tree>)
    ensures forall q :: q in FieldSites(fs) ==> q.origin.User?
  {
    if fs != [] {
      if Form(fs[0], "field", 3) { SitesAreUsers(fs[0].kids[1]); }
      FieldSitesAreUsers(fs[1..]);
    }
  }

  lemma {:induction false} JoinSitesAreUsers(cs: seq<Tree>, src: seq<Source>, i: nat)
    requires i <= |src|
    ensures forall q :: q in JoinSites(cs, src, i) ==> q.origin.User?
    decreases |src| - i
  {
    if i < |src| {
      var j := JoinNode(cs, src[i].alias);
      if j.Some? && |j.value.kids| >= 5 { SitesAreUsers(j.value.kids[4]); }
      JoinSitesAreUsers(cs, src, i + 1);
    }
  }

  lemma {:induction false} ClauseSitesAreUsers(x: Option<Tree>)
    ensures forall q :: q in ClauseSites(x) ==> q.origin.User?
    ensures forall q :: q in GroupSites(x) ==> q.origin.User?
  {
    if x.Some? && x.value.Node? {
      if |x.value.kids| >= 2 { SitesAreUsers(x.value.kids[1]); }
      if x.value.kids != [] { SitesAllAreUsers(x.value.kids[1..]); }
    }
  }

  /** The places of the user's query that are written before and after the injected predicates. */
  function UserSitesBefore(cs: seq<Tree>, src: seq<Source>): seq<Param>
    requires src != []
  {
    FieldSites(match FindClause(cs, "select") case Some(x) => x.kids[1..] case None => [])
    + JoinSites(cs, src, 1) + ClauseSites(FindClause(cs, "where"))
  }

  function UserSitesAfter(cs: seq<Tree>): seq<Param> {
    GroupSites(FindClause(cs, "group-by")) + ClauseSites(FindClause(cs, "order-by"))
  }

  /** How many sources have a tenant rule. */
  function Ruled(src: seq<Source>, p: Policy): nat {
    if src == [] then 0 else (if PolicyTenant(p, src[0].schema, src[0].table).Some? then 1 else 0) + Ruled(src[1..], p)
  }

  lemma {:induction false} OnePerRule(src: seq<Source>, p: Policy)
    ensures |TenantSites(src, p)| == Ruled(src, p)
  {
    if src != [] { OnePerRule(src[1..], p); }
  }

  /**
    Which places ask for what: those of the user's select, joins, where, group-by and order-by for
    entries of the user, and between them one place for every ruled source, for the policy's entry.
   */
  lemma {:induction false} SitesOrigin(r: Run, p: Policy)
    requires r.src != []
    ensures AllSites(r, p) == UserSitesBefore(r.cs, r.src) + TenantSites(r.src, p) + UserSitesAfter(r.cs)
    ensures forall q :: q in UserSitesBefore(r.cs, r.src) + UserSitesAfter(r.cs) ==> q.origin.User?
    ensures |TenantSites(r.src, p)| == Ruled(r.src, p) && forall q :: q in TenantSites(r.src, p) ==> q == TenantParam(p)
  {
    FieldSitesAreUsers(match FindClause(r.cs, "select") case Some(x) => x.kids[1..] case None => []);
    JoinSitesAreUsers(r.cs, r.src, 1);
    ClauseSitesAreUsers(FindClause(r.cs, "where"));
    ClauseSitesAreUsers(FindClause(r.cs, "group-by"));
    ClauseSitesAreUsers(FindClause(r.cs, "order-by"));
    TenantSitesArePolicy(r.src, p);
    OnePerRule(r.src, p);
    Cat(UserSitesBefore(r.cs, r.src) + TenantSites(r.src, p), GroupSites(FindClause(r.cs, "group-by")), ClauseSites(FindClause(r.cs, "order-by")));
  }

  // ---- the discipline ----

  /** When a number is read, every smaller one has been read before. */
  lemma {:induction false} FirstUse(m: nat, ks: seq<nat>, i: nat, j: nat)
    requires Known(m, ks).Some? && i < |ks| && m < j < ks[i]
    ensures j in ks[..i]
    decreases |ks|
  {
    if i > 0 {
      var m' := if 1 <= ks[0] <= m then m else m + 1;
      assert ks[..i] == [ks[0]] + ks[1..][..i - 1];
      if j > m' {
        FirstUse(m', ks[1..], i - 1, j);
      }
    }
  }

  /** The numbers are 1 to n, each first used only after all smaller ones. */
  ghost predicate InOrder(ks: seq<nat>, n: nat) {
    && (forall k :: k in ks <==> 1 <= k <= n)
    && (forall i, j :: 0 <= i < |ks| && 1 <= j < ks[i] ==> j in ks[..i])
  }

  lemma {:induction false} KnownInOrder(ks: seq<nat>, n: nat)
    requires Known(0, ks) == Some(n)
    ensures InOrder(ks, n)
  {
    forall k
      ensures k in ks <==> 1 <= k <= n
    {
      if k >= 0 {
        KnownCovers(0, ks, k);
      }
    }
    forall i, j | 0 <= i < |ks| && 1 <= j < ks[i]
      ensures j in ks[..i]
    {
      FirstUse(0, ks, i, j);
    }
  }

  /** Every entry of the table is asked for by some site. */
  lemma {:induction false} EntryHasSite(ks: seq<nat>, sites: seq<Param>, ps: seq<Param>, q: Param)
    requires Known(0, ks) == Some(|ps|) && Denote(ks, sites, ps) && q in ps
    ensures q in sites
  {
    var k :| 0 <= k < |ps| && ps[k] == q;
    KnownCovers(0, ks, k + 1);
    var i :| 0 <= i < |ks| && ks[i] == k + 1;
    assert sites[i] == q;
  }

  /**
    In the text of every accepted query the placeholders are exactly 1 to n for the n entries of
    the table, first used in that order; names are distinct; each placeholder denotes the name
    and type asked for at its place; and the only entry that is not the user's is the policy's.
   */
  lemma {:induction false} PlaceholderDiscipline(root: Tree, s: Schema, p: Policy, lim: Limits, d: Sql.Dialect) returns (r: Run)
    requires CompileTree(root, s, p, lim, d).Ok? && d != Sql.MySql
    ensures var c := CompileTree(root, s, p, lim, d).value;
            && Accepted(root, s, p, lim, d, c, r)
            && InOrder(HolesOf(c.stmt, d), |c.params|) && |c.params| <= MAX_PARAMS && Distinct(c.params)
            && Denote(HolesOf(c.stmt, d), AllSites(r, p), c.params)
            && (forall q :: q in c.params ==> q.origin.User? || q == TenantParam(p))
  {
    var c := CompileTree(root, s, p, lim, d).value;
    r := TakeApart(root, s, p, lim, d);
    HolesOfStmt(root, s, p, lim, d);
    AcceptedInStep(root, s, p, lim, d, c, r);
    var ks := HolesOf(c.stmt, d);
    KnownInOrder(ks, |c.params|);
    SitesOrigin(r, p);
    forall q | q in c.params
      ensures q.origin.User? || q == TenantParam(p)
    {
      EntryHasSite(ks, AllSites(r, p), c.params, q);
    }
  }

  // ---- placeholders without numbers ----

  lemma {:induction false} KnownLength(m: nat, ks: seq<nat>)
    requires Known(m, ks).Some?
    ensures Known(m, ks).value <= m + |ks|
    ensures Known(m, ks).value == m + |ks| <==> forall i :: 0 <= i < |ks| ==> ks[i] == m + i + 1
    decreases |ks|
  {
    if ks != [] {
      var m' := if 1 <= ks[0] <= m then m else m + 1;
      KnownLength(m', ks[1..]);
      assert ks[0] == m + 0 + 1 <==> m' == m + 1;
      if m' == m + 1 {
        assert forall i :: 0 < i < |ks| ==> ks[i] == ks[1..][i - 1];
      }
    }
  }

  /** No two places of the query ask for the same parameter. */
  ghost predicate NoneRepeated(sites: seq<Param>) {
    forall i, j :: 0 <= i < j < |sites| ==> sites[i] != sites[j]
  }

  /** Numbers in step of which none repeats are one after the other. */
  lemma {:induction false} KnownWithoutRepeats(m: nat, ks: seq<nat>)
    requires Known(m, ks).Some? && (forall i :: 0 <= i < |ks| ==> ks[i] > m)
    requires forall i, j :: 0 <= i < j < |ks| ==> ks[i] != ks[j]
    ensures Known(m, ks).value == m + |ks|
    decreases |ks|
  {
    if ks != [] {
      assert forall i :: 0 <= i < |ks| - 1 ==> ks[1..][i] == ks[i + 1] && ks[i + 1] != ks[0];
      KnownWithoutRepeats(m + 1, ks[1..]);
    }
  }

  lemma {:induction false} PositionsMatch(ks: seq<nat>, sites: seq<Param>, ps: seq<Param>)
    requires Known(0, ks) == Some(|ps|) && Denote(ks, sites, ps) && Distinct(ps)
    ensures ps == sites <==> NoneRepeated(sites)
    ensures NoneRepeated(sites) ==> forall i :: 0 <= i < |ks| ==> ks[i] == i + 1
  {
    if NoneRepeated(sites) {
      assert forall i, j :: 0 <= i < j < |ks| ==> sites[i] != sites[j];
      KnownWithoutRepeats(0, ks);
      KnownLength(0, ks);
    }
  }

  /**
    MySQL binds by position: the k-th placeholder takes the k-th entry. That gives every place
    what it asks for exactly when no two places of the query ask for the same parameter.
   */
  lemma {:induction false} PositionsExactly(root: Tree, s: Schema, p: Policy, lim: Limits)
    requires CompileTree(root, s, p, lim, Sql.MySql).Ok?
    ensures Front(root, s, p, lim).Ok? && Front(root, s, p, lim).value.1 != []
    ensures var (cs, src) := Front(root, s, p, lim).value;
            var c, sites := CompileTree(root, s, p, lim, Sql.MySql).value, QuerySites(cs, src, p);
            |HolesOf(c.stmt, Sql.MySql)| == |sites| && (c.params == sites <==> NoneRepeated(sites))
  {
    var c := CompileTree(root, s, p, lim, Sql.MySql).value;
    var r := TakeApart(root, s, p, lim, Sql.MySql);
    HolesOfStmt(root, s, p, lim, Sql.MySql);
    MarksMatch(root, s, p, lim, Sql.MySql, c, r);
  }

  lemma {:induction false} MarksMatch(root: Tree, s: Schema, p: Policy, lim: Limits, d: Sql.Dialect, c: Compiled, r: Run)
    requires Accepted(root, s, p, lim, d, c, r)
    ensures var ks, sites := Marks(St.StmtPieces(c.stmt)), AllSites(r, p);
            && |ks| == |sites| && (c.params == sites <==> NoneRepeated(sites))
            && (NoneRepeated(sites) ==> forall i :: 0 <= i < |ks| ==> ks[i] == i + 1)
  {
    AcceptedInStep(root, s, p, lim, d, c, r);
    PositionsMatch(Marks(St.StmtPieces(c.stmt)), AllSites(r, p), c.params);
  }

  /** An accepted request on which it fails: one parameter written twice makes two places and one entry. */
  lemma {:induction false} RepeatSlips(s: Schema, p: Policy, lim: Limits)
    requires Samples.Plain(s, p, lim)
    ensures var root := Samples.Query([Samples.ParamField("a", "x"), Samples.ParamField("a", "y")], []);
            && CompileTree(root, s, p, lim, Sql.MySql).Ok?
            && var c := CompileTree(root, s, p, lim, Sql.MySql).value;
               |c.params| == 1 && |HolesOf(c.stmt, Sql.MySql)| == 2
  {
    var fs := [Samples.ParamField("a", "x"), Samples.ParamField("a", "y")];
    var root := Samples.Query(fs, []);
    Samples.ShortNames();
    Samples.TwiceQuery("a", s, p, lim, Sql.MySql);
    Samples.TwiceFront("a", s, p, lim);
    PositionsExactly(root, s, p, lim);
    TwiceSites(s, p);
  }

  lemma {:induction false} TwiceSites(s: Schema, p: Policy)
    requires p.tenants == []
    ensures var fs := [Samples.ParamField("a", "x"), Samples.ParamField("a", "y")];
            |QuerySites(Samples.Clauses(fs, []), Samples.SOURCES, p)| == 2
  {
    var fs, x := [Samples.ParamField("a", "x"), Samples.ParamField("a", "y")], Samples.ParamNode("a", "int64");
    var cs := Samples.Clauses(fs, []);
    Samples.ShortNames();
    Samples.FoundIn(fs, []);
    Samples.HeadOf("select", fs);
    assert ShapeOf(x) == ParamS("a", Int64T);
    assert Sites(x) == [Samples.Entry("a")];
    assert fs[1..] == [Samples.ParamField("a", "y")] && fs[1..][1..] == [];
    assert FieldSites(fs[1..]) == Sites(x) + [];
    assert |FieldSites(fs)| == 2;
    assert PolicyTenant(p, "public", "t") == None && Samples.SOURCES[1..] == [];
    assert TenantSites(Samples.SOURCES, p) == [];
    assert JoinSites(cs, Samples.SOURCES, 1) == [];
  }
}
