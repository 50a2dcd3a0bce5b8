/** The joins of an accepted query form a tree of declared foreign keys. */
module JoinTree {
  import opened Wrappers
  import opened Sexpr
  import opened Catalog
  import opened Emit
  import opened Compile
  import opened CompileProps
  import Sql
  import E = SqlExpr
  import St = Statement

  function JoinClauses(cs: seq<Tree>): seq<Tree> {
    if cs == [] then [] else if IsList(cs[0], "join") then [cs[0]] + JoinClauses(cs[1..]) else JoinClauses(cs[1..])
  }

  /** The source a join clause adds. */
  function JoinedSource(x: Tree): Option<Source> { ParseSource(x, 2, 3) }

  /** js are the join clauses that turned the sources before into src, each checked against the sources it found. */
  ghost predicate Grown(js: seq<Tree>, before: seq<Source>, src: seq<Source>, s: Schema, p: Policy) {
    && |src| == |before| + |js| && before <= src
    && forall i :: 0 <= i < |js| ==> Adds(js, |before|, src, s, p, i)
  }

  /** Clause i of js was checked against the sources before it and added the one at its place. */
  ghost predicate Adds(js: seq<Tree>, n: nat, src: seq<Source>, s: Schema, p: Policy, i: nat)
    requires i < |js| && n + i < |src|
  {
    JoinNodeOk(js[i], src[..n + i], s, p) && JoinedSource(js[i]) == Some(src[n + i])
  }

  lemma {:induction false} AddsFirst(j: Tree, js: seq<Tree>, before: seq<Source>, o: Source, src: seq<Source>, s: Schema, p: Policy)
    requires JoinNodeOk(j, before, s, p) && JoinedSource(j) == Some(o) && before + [o] <= src
    ensures Adds([j] + js, |before|, src, s, p, 0)
  {
    assert src[..|before| + 0] == (before + [o])[..|before|] == before && src[|before|] == (before + [o])[|before|];
  }

  lemma {:induction false} AddsLater(j: Tree, js: seq<Tree>, n: nat, src: seq<Source>, s: Schema, p: Policy, i: nat)
    requires 0 < i <= |js| && n + i < |src| && Adds(js, n + 1, src, s, p, i - 1)
    ensures Adds([j] + js, n, src, s, p, i)
  {
    assert ([j] + js)[i] == js[i - 1] && n + 1 + (i - 1) == n + i;
  }

  lemma {:induction false} GrownStep(j: Tree, js: seq<Tree>, before: seq<Source>, o: Source, src: seq<Source>, s: Schema, p: Policy)
    requires JoinNodeOk(j, before, s, p) && JoinedSource(j) == Some(o) && Grown(js, before + [o], src, s, p)
    ensures Grown([j] + js, before, src, s, p)
  {
    var n := |before|;
    AddsFirst(j, js, before, o, src, s, p);
    forall i | 0 <= i < |[j] + js|
      ensures Adds([j] + js, n, src, s, p, i)
    {
      if i > 0 {
        AddsLater(j, js, n, src, s, p, i);
      }
    }
    assert before <= before + [o];
  }

  lemma {:induction false} SourcesGrow(cs: seq<Tree>, before: seq<Source>, s: Schema, p: Policy)
    requires JoinSources(cs, before, s, p).Ok?
    ensures var src := JoinSources(cs, before, s, p).value;
            Grown(JoinClauses(cs), before, src, s, p) && (src == before || |src| < MAX_SOURCES)
  {
    if cs != [] {
      if IsList(cs[0], "join") {
        var o := JoinedSource(cs[0]).value;
        SourcesGrow(cs[1..], before + [o], s, p);
        GrownStep(cs[0], JoinClauses(cs[1..]), before, o, JoinSources(cs, before, s, p).value, s, p);
      } else {
        SourcesGrow(cs[1..], before, s, p);
      }
    }
  }

  // ---- every source finds its own clause ----

  predicate DistinctAliases(src: seq<Source>) {
    forall i, j :: 0 <= i < j < |src| ==> src[i].alias != src[j].alias
  }

  /** The search by alias is a search among the join clauses. */
  lemma {:induction false} SearchIsAmongJoins(cs: seq<Tree>, alias: string)
    ensures JoinNode(cs, alias) == JoinNode(JoinClauses(cs), alias)
  {
    if cs != [] {
      SearchIsAmongJoins(cs[1..], alias);
      if IsList(cs[0], "join") {
        assert JoinClauses(cs)[1..] == JoinClauses(cs[1..]);
      }
    }
  }

  lemma {:induction false} SearchFinds(js: seq<Tree>, alias: string, i: nat)
    requires i < |js| && IsList(js[i], "join") && |js[i].kids| > 3 && IsAtom(js[i].kids[3], alias)
    requires forall k :: 0 <= k < i ==> js[k].Node? && |js[k].kids| > 3 && !IsAtom(js[k].kids[3], alias)
    ensures JoinNode(js, alias) == Some(js[i])
  {
    if i > 0 {
      assert forall k :: 0 <= k < i - 1 ==> js[1..][k] == js[k + 1];
      SearchFinds(js[1..], alias, i - 1);
    }
  }

  lemma {:induction false} ClausesAreJoins(cs: seq<Tree>)
    ensures forall x :: x in JoinClauses(cs) ==> IsList(x, "join")
  {
    if cs != [] {
      ClausesAreJoins(cs[1..]);
    }
  }

  lemma {:induction false} AliasWritten(x: Tree, srcs: seq<Source>, s: Schema, p: Policy)
    requires JoinNodeOk(x, srcs, s, p)
    ensures IsAtom(x.kids[3], JoinedSource(x).value.alias)
  {
  }

  lemma {:induction false} ClauseAlias(js: seq<Tree>, first: Source, src: seq<Source>, s: Schema, p: Policy, k: nat)
    requires Grown(js, [first], src, s, p) && k < |js|
    ensures js[k].Node? && |js[k].kids| > 3 && IsAtom(js[k].kids[3], src[k + 1].alias)
  {
    assert Adds(js, 1, src, s, p, k);
    AliasWritten(js[k], src[..1 + k], s, p);
  }

  lemma {:induction false} OwnClause(cs: seq<Tree>, first: Source, src: seq<Source>, s: Schema, p: Policy, i: nat)
    requires Grown(JoinClauses(cs), [first], src, s, p) && DistinctAliases(src) && i < |JoinClauses(cs)|
    ensures JoinNode(cs, src[i + 1].alias) == Some(JoinClauses(cs)[i])
  {
    var js := JoinClauses(cs);
    ClausesAreJoins(cs);
    SearchIsAmongJoins(cs, src[i + 1].alias);
    assert js[i] in js;
    ClauseAlias(js, first, src, s, p, i);
    forall k | 0 <= k < i
      ensures js[k].Node? && |js[k].kids| > 3 && !IsAtom(js[k].kids[3], src[i + 1].alias)
    {
      ClauseAlias(js, first, src, s, p, k);
    }
    SearchFinds(js, src[i + 1].alias, i);
  }

  // ---- what is written after ON ----

  /** on equates the two ends of f, in either order, where a holds one end and b the other. */
  predicate KeyEquality(on: E.Expr, f: ForeignKey, a: Source, b: Source) {
    && a.schema == f.fs && a.table == f.ft && b.schema == f.ts && b.table == f.tt
    && (on == E.Bin(E.Eq, E.Col(a.alias, f.fc), E.Col(b.alias, f.tc))
        || on == E.Bin(E.Eq, E.Col(b.alias, f.tc), E.Col(a.alias, f.fc)))
  }

  lemma {:induction false} ColumnNumber(x: Tree, alias: string, col: string, src: seq<Source>, s: Schema, ps: seq<Param>)
    requires ColumnIs(x, alias, col) && Number(x, src, s, ps).Some?
    ensures Number(x, src, s, ps) == Some((E.Col(alias, col), ps))
  {
    assert x.kids[0] == Atom("column") && x.kids[1] == Atom(alias) && x.kids[2] == Atom(col);
  }

  lemma {:induction false} EqualityNumber(x: Tree, a: string, c: string, b: string, e: string, src: seq<Source>, s: Schema, ps: seq<Param>)
    requires Form(x, "eq", 3) && ColumnIs(x.kids[1], a, c) && ColumnIs(x.kids[2], b, e) && Number(x, src, s, ps).Some?
    ensures Number(x, src, s, ps).value.0 == E.Bin(E.Eq, E.Col(a, c), E.Col(b, e))
  {
    assert ShapeOf(x) == BinaryS(E.Eq, x.kids[1], x.kids[2]);
    ColumnNumber(x.kids[1], a, c, src, s, ps);
    ColumnNumber(x.kids[2], b, e, src, s, ps);
  }

  /** An allowed join condition is written as a key equality with some earlier source. */
  lemma {:induction false} AllowedIsKey(s: Schema, on: Tree, srcs: seq<Source>, target: Source, src: seq<Source>, ps: seq<Param>)
    requires JoinAllowed(s, on, srcs, target) && Number(on, src, s, ps).Some?
    ensures exists k, i :: 0 <= k < |srcs| && 0 <= i < |s.fks| && KeyEquality(Number(on, src, s, ps).value.0, s.fks[i], srcs[k], target)
  {
    var k, i :| 0 <= k < |srcs| && 0 <= i < |s.fks| &&
      (LinksBy(s.fks[i], on.kids[1], on.kids[2], srcs[k], target) || LinksBy(s.fks[i], on.kids[2], on.kids[1], srcs[k], target));
    var f := s.fks[i];
    if LinksBy(f, on.kids[1], on.kids[2], srcs[k], target) {
      EqualityNumber(on, srcs[k].alias, f.fc, target.alias, f.tc, src, s, ps);
    } else {
      EqualityNumber(on, target.alias, f.tc, srcs[k].alias, f.fc, src, s, ps);
    }
  }

  /** The join written for source k, from the clause found under its alias. */
  ghost predicate WrittenFrom(j: St.Join, x: Tree, o: Source, src: seq<Source>, s: Schema) {
    && x.Node? && |x.kids| >= 5 && j.kind == KindWritten(x.kids[1]) && j.src == o
    && exists ps: seq<Param> :: Number(x.kids[4], src, s, ps).Some? && Number(x.kids[4], src, s, ps).value.0 == j.on
  }

  lemma {:induction false} PlanStep(cs: seq<Tree>, src: seq<Source>, i: nat, s: Schema, ps: seq<Param>)
    requires i < |src| && JoinsPlan(cs, src, i, s, ps).Some?
    ensures var x := JoinNode(cs, src[i].alias);
            && x.Some? && |x.value.kids| >= 5 && Number(x.value.kids[4], src, s, ps).Some?
            && var (on, p1) := Number(x.value.kids[4], src, s, ps).value;
               var rest := JoinsPlan(cs, src, i + 1, s, p1);
               && rest.Some?
               && JoinsPlan(cs, src, i, s, ps).value.0 == [St.Join(KindWritten(x.value.kids[1]), src[i], on)] + rest.value.0
  {
  }

  lemma {:induction false} PlanAt(cs: seq<Tree>, src: seq<Source>, i: nat, s: Schema, ps: seq<Param>, k: nat)
    requires i <= k < |src| && JoinsPlan(cs, src, i, s, ps).Some?
    ensures var js := JoinsPlan(cs, src, i, s, ps).value.0;
            && |js| == |src| - i && JoinNode(cs, src[k].alias).Some?
            && WrittenFrom(js[k - i], JoinNode(cs, src[k].alias).value, src[k], src, s)
    decreases |src| - i
  {
    PlanStep(cs, src, i, s, ps);
    if i < k {
      var p1 := Number(JoinNode(cs, src[i].alias).value.kids[4], src, s, ps).value.1;
      PlanAt(cs, src, i + 1, s, p1, k);
      Later(JoinsPlan(cs, src, i, s, ps).value.0, JoinsPlan(cs, src, i + 1, s, p1).value.0, k - i);
    } else {
      PlanHere(cs, src, i, s, ps);
    }
  }

  lemma {:induction false} Later(js: seq<St.Join>, rest: seq<St.Join>, n: nat)
    requires n > 0 && js != [] && js == [js[0]] + rest && n < |js|
    ensures js[n] == rest[n - 1]
  {
  }

  lemma {:induction false} PlanHere(cs: seq<Tree>, src: seq<Source>, i: nat, s: Schema, ps: seq<Param>)
    requires i < |src| && JoinsPlan(cs, src, i, s, ps).Some?
    ensures var js := JoinsPlan(cs, src, i, s, ps).value.0;
            |js| == |src| - i && JoinNode(cs, src[i].alias).Some? && WrittenFrom(js[0], JoinNode(cs, src[i].alias).value, src[i], src, s)
  {
    JoinsWf(cs, src, i, s, ps);
    PlanStep(cs, src, i, s, ps);
    var x := JoinNode(cs, src[i].alias).value;
    assert JoinsPlan(cs, src, i, s, ps).value.0[0].on == Number(x.kids[4], src, s, ps).value.0;
  }

  /** The word of a request for each kind of join. */
  function KindWord(k: St.JoinKind): string {
    match k case Inner => "inner" case Left => "left" case Right => "right" case Full => "full"
  }

  lemma {:induction false} KindSaid(x: Tree)
    ensures forall k: St.JoinKind :: KindOf(x) == Some(k) <==> x == Atom(KindWord(k))
    ensures KindOf(x).None? <==> forall k: St.JoinKind :: x != Atom(KindWord(k))
  {
    assert KindWord(St.Inner) == "inner" && KindWord(St.Left) == "left" && KindWord(St.Right) == "right" && KindWord(St.Full) == "full";
  }

  /** Join k of the statement is the k-th join clause: the kind it says, its source and a key from an earlier source. */
  ghost predicate KeyJoin(j: St.Join, x: Tree, k: nat, src: seq<Source>, s: Schema)
    requires 0 < k < |src|
  {
    && x.Node? && |x.kids| == 5 && x.kids[1] == Atom(KindWord(j.kind)) && j.src == src[k] && JoinedSource(x) == Some(src[k])
    && exists i, f :: 0 <= i < k && f in s.fks && KeyEquality(j.on, f, src[i], src[k])
  }

  lemma {:induction false} WrittenIsKey(j: St.Join, x: Tree, k: nat, src: seq<Source>, s: Schema, p: Policy)
    requires 0 < k < |src| && JoinNodeOk(x, src[..k], s, p) && JoinedSource(x) == Some(src[k])
    requires WrittenFrom(j, x, src[k], src, s)
    ensures KeyJoin(j, x, k, src, s)
  {
    KindSaid(x.kids[1]);
    var ps: seq<Param> :| Number(x.kids[4], src, s, ps).Some? && Number(x.kids[4], src, s, ps).value.0 == j.on;
    AllowedIsKey(s, x.kids[4], src[..k], src[k], src, ps);
    var i, n :| 0 <= i < k && 0 <= n < |s.fks| && KeyEquality(j.on, s.fks[n], src[..k][i], src[k]);
    assert src[..k][i] == src[i] && s.fks[n] in s.fks;
  }

  lemma {:induction false} RunSources(root: Tree, s: Schema, p: Policy, lim: Limits, d: Sql.Dialect, c: Compiled, r: Run)
    requires Accepted(root, s, p, lim, d, c, r)
    ensures Grown(JoinClauses(r.cs), [r.src[0]], r.src, s, p) && |r.src| < MAX_SOURCES
  {
    FrontFacts(root, s, p, lim);
    SourcesGrow(r.cs, [FromSource(FindClause(r.cs, "from").value).value], s, p);
  }

  lemma {:induction false} JoinAt(cs: seq<Tree>, src: seq<Source>, s: Schema, p: Policy, ps: seq<Param>, k: nat)
    requires src != [] && Grown(JoinClauses(cs), [src[0]], src, s, p) && DistinctAliases(src) && 0 < k < |src|
    requires JoinsPlan(cs, src, 1, s, ps).Some?
    ensures var js := JoinsPlan(cs, src, 1, s, ps).value.0;
            |js| == |src| - 1 && KeyJoin(js[k - 1], JoinClauses(cs)[k - 1], k, src, s)
  {
    PlanAt(cs, src, 1, s, ps, k);
    OwnClause(cs, src[0], src, s, p, k - 1);
    assert Adds(JoinClauses(cs), 1, src, s, p, k - 1);
    WrittenIsKey(JoinsPlan(cs, src, 1, s, ps).value.0[k - 1], JoinClauses(cs)[k - 1], k, src, s, p);
  }

  ghost predicate KeyJoinAt(js: seq<St.Join>, clauses: seq<Tree>, k: nat, src: seq<Source>, s: Schema)
    requires 0 < k < |src| == |js| + 1 == |clauses| + 1
  {
    KeyJoin(js[k - 1], clauses[k - 1], k, src, s)
  }

  /**
    With distinct aliases, every join of the statement is the join clause at its own place, with
    its kind, joined on a declared key from some earlier source; and the source array never
    reaches its end.
   */
  lemma {:induction false} JoinsFollowKeys(root: Tree, s: Schema, p: Policy, lim: Limits, d: Sql.Dialect) returns (r: Run)
    requires CompileTree(root, s, p, lim, d).Ok?
    ensures var c := CompileTree(root, s, p, lim, d).value;
            && Accepted(root, s, p, lim, d, c, r) && |r.src| < MAX_SOURCES
            && |c.stmt.joins| == |JoinClauses(r.cs)| == |r.src| - 1
            && (DistinctAliases(r.src) ==> forall k :: 0 < k < |r.src| ==> KeyJoinAt(c.stmt.joins, JoinClauses(r.cs), k, r.src, s))
  {
    var c := CompileTree(root, s, p, lim, d).value;
    r := TakeApart(root, s, p, lim, d);
    RunSources(root, s, p, lim, d, c, r);
    JoinsWf(r.cs, r.src, 1, s, r.p1);
    if DistinctAliases(r.src) {
      forall k | 0 < k < |r.src|
        ensures KeyJoinAt(c.stmt.joins, JoinClauses(r.cs), k, r.src, s)
      {
        JoinAt(r.cs, r.src, s, p, r.p1, k);
      }
    }
  }

  // ---- keys that are allowed ----

  /** Every declared key between an earlier source and the new one may be joined on, written either way round. */
  lemma {:induction false} KeyIsAllowed(s: Schema, srcs: seq<Source>, target: Source, k: nat, f: ForeignKey)
    requires k < |srcs| && f in s.fks
    requires srcs[k].schema == f.fs && srcs[k].table == f.ft && target.schema == f.ts && target.table == f.tt
    ensures var a, b := ColumnOf(srcs[k].alias, f.fc), ColumnOf(target.alias, f.tc);
            JoinAllowed(s, Node([Atom("eq"), a, b]), srcs, target) && JoinAllowed(s, Node([Atom("eq"), b, a]), srcs, target)
  {
    var i :| 0 <= i < |s.fks| && s.fks[i] == f;
    var a, b := ColumnOf(srcs[k].alias, f.fc), ColumnOf(target.alias, f.tc);
    assert LinksBy(s.fks[i], a, b, srcs[k], target);
    assert Form(Node([Atom("eq"), a, b]), "eq", 3) && Form(Node([Atom("eq"), b, a]), "eq", 3);
  }

  function ColumnOf(alias: string, col: string): Tree { Node([Atom("column"), Atom(alias), Atom(col)]) }

  // ---- reachability ----

  predicate KeyEdge(s: Schema, a: Source, b: Source) {
    exists f :: f in s.fks && a.schema == f.fs && a.table == f.ft && b.schema == f.ts && b.table == f.tt
  }

  /** Source k is reached from source 0 by declared keys, forwards through the array. */
  ghost predicate Reached(s: Schema, src: seq<Source>, k: nat) {
    k == 0 || exists i :: 0 <= i < k < |src| && KeyEdge(s, src[i], src[k]) && Reached(s, src, i)
  }

  lemma {:induction false} EdgeOf(x: Tree, srcs: seq<Source>, s: Schema, p: Policy)
    requires JoinNodeOk(x, srcs, s, p)
    ensures exists i :: 0 <= i < |srcs| && KeyEdge(s, srcs[i], JoinedSource(x).value)
  {
    var on, target := x.kids[4], JoinedSource(x).value;
    var k, i :| 0 <= k < |srcs| && 0 <= i < |s.fks| &&
      (LinksBy(s.fks[i], on.kids[1], on.kids[2], srcs[k], target) || LinksBy(s.fks[i], on.kids[2], on.kids[1], srcs[k], target));
    assert s.fks[i] in s.fks;
  }

  lemma {:induction false} GrownReached(js: seq<Tree>, first: Source, src: seq<Source>, s: Schema, p: Policy, k: nat)
    requires Grown(js, [first], src, s, p) && k < |src|
    ensures Reached(s, src, k)
  {
    if k > 0 {
      assert Adds(js, 1, src, s, p, k - 1);
      EdgeOf(js[k - 1], src[..k], s, p);
      var i :| 0 <= i < k && KeyEdge(s, src[..k][i], src[k]);
      assert src[..k][i] == src[i];
      GrownReached(js, first, src, s, p, i);
    }
  }

  /** Distinct aliases or not, every source is reached from the FROM source through declared keys. */
  lemma {:induction false} SourcesReached(root: Tree, s: Schema, p: Policy, lim: Limits, k: nat)
    requires Front(root, s, p, lim).Ok? && k < |Front(root, s, p, lim).value.1|
    ensures Reached(s, Front(root, s, p, lim).value.1, k)
  {
    FrontFacts(root, s, p, lim);
    var (cs, src) := Front(root, s, p, lim).value;
    var first := FromSource(FindClause(cs, "from").value).value;
    SourcesGrow(cs, [first], s, p);
    GrownReached(JoinClauses(cs), first, src, s, p, k);
  }
}
