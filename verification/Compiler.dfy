/**
  compile_tree from the first character of IR to the last of SQL, and what follows for any text
  that it accepts.
 */
module Compiler {
  import opened Wrappers
  import opened Sexpr
  import opened Catalog
  import opened Buffer
  import Sql
  import Emit
  import Emitter
  import Backend
  import C = Compile
  import St = Statement
  import StatementText
  import Reader
  import Brackets
  import Nesting
  import Printer
  import R = Relational
  import TenantCompile
  import Typing
  import TypedStatement
  import CompileProps
  import Positional
  import Samples

  // ---- the read-only checks ----

  /** One pass over the clauses with the set of heads seen so far. */
  method ClausesValid(cs: seq<Tree>) returns (ok: bool)
    ensures ok <==> C.ClausesValid(cs)
  {
    var seen: set<string> := {};
    var i := 0;
    while i < |cs|
      invariant 0 <= i <= |cs|
      invariant forall k :: 0 <= k < i ==> C.ClauseName(cs[k]).Some? && C.ClauseName(cs[k]).value in seen
      invariant forall h :: h in seen ==> exists k :: 0 <= k < i && C.ClauseName(cs[k]) == Some(h)
      invariant forall k, j :: 0 <= k < j < i && C.ClauseName(cs[k]) == C.ClauseName(cs[j]) ==> C.ClauseName(cs[k]) == Some("join")
    {
      var h := C.ClauseName(cs[i]);
      if h.None? || (h.value in seen && h.value != "join") {
        return false;
      }
      seen := seen + {h.value};
      i := i + 1;
    }
    return "from" in seen && "select" in seen;
  }

  /** The join condition against every earlier source and every declared key. */
  method JoinAllowed(s: Schema, on: Tree, srcs: seq<Source>, target: Source) returns (ok: bool)
    ensures ok <==> C.JoinAllowed(s, on, srcs, target)
  {
    if !Form(on, "eq", 3) {
      return false;
    }
    var l, r := on.kids[1], on.kids[2];
    for k := 0 to |srcs|
      invariant forall k', i' :: 0 <= k' < k && 0 <= i' < |s.fks| ==>
                  !C.LinksBy(s.fks[i'], l, r, srcs[k'], target) && !C.LinksBy(s.fks[i'], r, l, srcs[k'], target)
    {
      for i := 0 to |s.fks|
        invariant forall i' :: 0 <= i' < i ==>
                    !C.LinksBy(s.fks[i'], l, r, srcs[k], target) && !C.LinksBy(s.fks[i'], r, l, srcs[k], target)
      {
        if C.LinksBy(s.fks[i], l, r, srcs[k], target) || C.LinksBy(s.fks[i], r, l, srcs[k], target) {
          return true;
        }
      }
    }
    return false;
  }

  /** Every column below a node, looked up by a search over the sources. */
  method ValidateColumns(x: Tree, src: seq<Source>, s: Schema, p: Policy) returns (ok: bool)
    ensures ok <==> C.ValidColumns(x, src, s, p)
    decreases x
  {
    if x.Atom? {
      return true;
    }
    if Form(x, "column", 3) {
      var alias, col := x.kids[1], x.kids[2];
      if !alias.Atom? || !col.Atom? {
        return false;
      }
      var i := 0;
      while i < |src| && src[i].alias != alias.text
        invariant 0 <= i <= |src| && forall k :: 0 <= k < i ==> src[k].alias != alias.text
      {
        i := i + 1;
      }
      assert i == SourceIndex(src, alias.text);
      if i == |src| || ColFind(s, src[i].schema, src[i].table, col.text).None? || Denied(p, src[i].schema, src[i].table, col.text) {
        return false;
      }
    }
    for k := 0 to |x.kids|
      invariant forall j :: 0 <= j < k ==> C.ValidColumns(x.kids[j], src, s, p)
    {
      var good := ValidateColumns(x.kids[k], src, s, p);
      if !good {
        assert x.kids[k] in x.kids;
        return false;
      }
    }
    return true;
  }

  lemma {:induction false} JoinSourcesStep(cs: seq<Tree>, i: nat, srcs: seq<Source>, s: Schema, p: Policy)
    requires i < |cs|
    ensures C.JoinSources(cs[i..], srcs, s, p) ==
            if !IsList(cs[i], "join") then C.JoinSources(cs[i + 1..], srcs, s, p)
            else if !C.JoinNodeOk(cs[i], srcs, s, p) then C.Err(C.PolicyE)
            else if |srcs| + 1 >= C.MAX_SOURCES then C.Err(C.LimitE)
            else C.JoinSources(cs[i + 1..], srcs + [C.ParseSource(cs[i], 2, 3).value], s, p)
  {
    assert cs[i..][1..] == cs[i + 1..];
  }

  method JoinNodeOk(x: Tree, srcs: seq<Source>, s: Schema, p: Policy) returns (ok: bool)
    ensures ok <==> C.JoinNodeOk(x, srcs, s, p)
  {
    if !(x.Node? && |x.kids| == 5 && |srcs| <= p.maxJoins) || C.KindOf(x.kids[1]).None? {
      return false;
    }
    var target := C.ParseSource(x, 2, 3);
    if target.None? || !C.Usable(s, p, target.value) {
      return false;
    }
    ok := JoinAllowed(s, x.kids[4], srcs, target.value);
  }

  /** The source array, one join clause after another. */
  method CollectSources(cs: seq<Tree>, first: Source, s: Schema, p: Policy) returns (x: C.Result<seq<Source>>)
    ensures x == C.JoinSources(cs, [first], s, p)
  {
    var srcs := [first];
    assert cs[0..] == cs;
    for i := 0 to |cs|
      invariant C.JoinSources(cs, [first], s, p) == C.JoinSources(cs[i..], srcs, s, p)
    {
      JoinSourcesStep(cs, i, srcs, s, p);
      if IsList(cs[i], "join") {
        var ok := JoinNodeOk(cs[i], srcs, s, p);
        if !ok {
          return C.Err(C.PolicyE);
        }
        if |srcs| + 1 >= C.MAX_SOURCES {
          return C.Err(C.LimitE);
        }
        srcs := srcs + [C.ParseSource(cs[i], 2, 3).value];
      }
    }
    assert cs[|cs|..] == [];
    return C.Ok(srcs);
  }

  method Front(root: Tree, s: Schema, p: Policy, lim: C.Limits) returns (x: C.Result<(seq<Tree>, seq<Source>)>)
    ensures x == C.Front(root, s, p, lim)
  {
    if !(IsList(root, "nlsql") && |root.kids| >= 3 && (IsAtom(root.kids[1], "1") || IsAtom(root.kids[1], "2")) && IsList(root.kids[2], "query")) {
      return C.Err(C.ParseE);
    }
    var cs := root.kids[2].kids[1..];
    var valid := ClausesValid(cs);
    if !valid {
      return C.Err(C.ParseE);
    }
    var from, sel := C.FindClause(cs, "from"), C.FindClause(cs, "select");
    if from.None? || sel.None? || !(2 <= |from.value.kids| <= 3) || !(2 <= |sel.value.kids| <= lim.maxSelected + 1) {
      return C.Err(C.ParseE);
    }
    var first := C.FromSource(from.value);
    if first.None? || !C.Usable(s, p, first.value) {
      return C.Err(C.PolicyE);
    }
    var srcs := CollectSources(cs, first.value, s, p);
    if srcs.Err? {
      return C.Err(srcs.status);
    }
    var visible := ValidateColumns(root.kids[2], srcs.value, s, p);
    if !visible {
      return C.Err(C.PolicyE);
    }
    if !C.WellTyped(root.kids[2], srcs.value, s) {
      return C.Err(C.TypeE);
    }
    return C.Ok((cs, srcs.value));
  }

  // ---- the whole compiler ----

  datatype Config = Config(maxIrBytes: nat, maxNodes: nat, maxSqlBytes: nat, lim: C.Limits)

  /** Undefined where the C code itself has no defined behaviour. */
  datatype Outcome = Compiled(sql: string, params: seq<Emit.Param>, ir: string) | Failed(status: C.Status) | Undefined

  predicate FitsIn(text: string, cfg: Config) { |text| + 1 <= cfg.maxSqlBytes && |text| + 1 <= TOP }

  predicate ScanPasses(ir: string, cfg: Config) {
    |ir| <= cfg.maxIrBytes && Brackets.Safe(Brackets.Climb(Lex(ir, C_SPACE), 0, 0))
  }

  /** The outcome for IR that has been read as t. */
  function OutcomeOf(t: Tree, s: Schema, p: Policy, cfg: Config, d: Sql.Dialect): Outcome {
    match C.CompileTree(t, s, p, cfg.lim, d)
    case Err(e) => Failed(e)
    case Ok(c) =>
      var sql := StatementText.Text(c.stmt, d);
      if !FitsIn(sql, cfg) then Failed(C.ParseE)
      else if Printer.NoEmptyList(t) then
        if FitsIn(Printer.Canon(t), cfg) then Compiled(sql, c.params, Printer.Canon(t)) else Failed(C.ParseE)
      else if FitsIn(Printer.Written(t), cfg) then Undefined else Failed(C.ParseE)
  }

  /** ir compiles to out. */
  ghost predicate Yields(ir: string, s: Schema, p: Policy, cfg: Config, d: Sql.Dialect, out: Outcome) {
    && out.Compiled? && ScanPasses(ir, cfg)
    && exists t :: Reader.Accepts(ir, t, cfg.maxNodes) && OutcomeOf(t, s, p, cfg, d) == out
  }

  /** ir is read as a tree that makes the compiler print an empty list. */
  ghost predicate Stuck(ir: string, s: Schema, p: Policy, cfg: Config, d: Sql.Dialect) {
    ScanPasses(ir, cfg) && exists t :: Reader.Accepts(ir, t, cfg.maxNodes) && OutcomeOf(t, s, p, cfg, d) == Undefined
  }

  lemma {:induction false} OneTree(ir: string, t: Tree, u: Tree, maxNodes: nat)
    requires Reader.Accepts(ir, t, maxNodes) && Reader.Accepts(ir, u, maxNodes)
    ensures t == u
  {
    FlattenInjective(t, u);
  }

  lemma {:induction false} SelectIsLong(t: Tree, s: Schema, p: Policy, lim: C.Limits)
    requires C.Front(t, s, p, lim).Ok?
    ensures var (cs, src) := C.Front(t, s, p, lim).value;
            && C.FindClause(cs, "select").Some? && |C.FindClause(cs, "select").value.kids| >= 2
  {
  }

  method WriteSql(t: Tree, cs: seq<Tree>, src: seq<Source>, s: Schema, p: Policy, cfg: Config, d: Sql.Dialect)
    returns (x: Option<(string, seq<Emit.Param>)>, e: C.Status)
    requires src != [] && C.FindClause(cs, "select").Some? && |C.FindClause(cs, "select").value.kids| >= 2
    ensures match C.Back(cs, src, s, p, cfg.lim, d)
            case Ok(c) =>
              var sql := StatementText.Text(c.stmt, d);
              x == (if FitsIn(sql, cfg) then Some((sql, c.params)) else None) && (x.None? ==> e == C.ParseE)
            case Err(e') => x.None? && (e == e' || e == C.ParseE)
  {
    var b := new Buf(cfg.maxSqlBytes);
    var table := new Emitter.ParamTable();
    var ok;
    ok, e := Backend.WriteStatement(b, table, C.FindClause(cs, "select").value, cs, src, s, p, cfg.lim, d);
    x := if ok then Some((b.s[..b.n], table.slots[..table.n])) else None;
  }

  method WriteCanon(t: Tree, cfg: Config) returns (r: Printer.Print, canon: string)
    requires t.Node? && t.kids != []
    ensures r.Done? <==> Printer.NoEmptyList(t) && FitsIn(Printer.Canon(t), cfg)
    ensures r.Undefined? <==> !Printer.NoEmptyList(t) && FitsIn(Printer.Written(t), cfg)
    ensures r.Done? ==> canon == Printer.Canon(t)
  {
    var b := new Buf(cfg.maxSqlBytes);
    r := Printer.CanonicalNode(b, t);
    assert "" + Printer.Canon(t) == Printer.Canon(t);
    canon := b.s[..b.n];
  }

  method WriteTree(t: Tree, cs: seq<Tree>, src: seq<Source>, s: Schema, p: Policy, cfg: Config, d: Sql.Dialect) returns (x: Outcome)
    requires C.Front(t, s, p, cfg.lim) == C.Ok((cs, src)) && src != []
    ensures !OutcomeOf(t, s, p, cfg, d).Failed? ==> x == OutcomeOf(t, s, p, cfg, d)
    ensures OutcomeOf(t, s, p, cfg, d).Failed? ==> x.Failed? && (x.status == C.ParseE || x == OutcomeOf(t, s, p, cfg, d))
  {
    SelectIsLong(t, s, p, cfg.lim);
    var sql, e := WriteSql(t, cs, src, s, p, cfg, d);
    if sql.None? {
      return Failed(e);
    }
    var r, canon := WriteCanon(t, cfg);
    match r
    case Done => return Compiled(sql.value.0, sql.value.1, canon);
    case Full => return Failed(C.ParseE);
    case Undefined => return Undefined;
  }

  /**
    compile_tree. It succeeds exactly where the text is short, shallow and read as a tree whose
    plan succeeds and fits, and then gives that plan's text, its parameters and the canonical IR.
    Its own behaviour is undefined exactly where such a tree holds an empty list and all that is
    printed before it fits.
   */
  method CompileIr(ir: string, s: Schema, p: Policy, cfg: Config, d: Sql.Dialect) returns (x: Outcome)
    ensures forall out: Outcome :: out.Compiled? ==> (x == out <==> Yields(ir, s, p, cfg, d, out))
    ensures !ScanPasses(ir, cfg) ==> x == Failed(C.LimitE)
    ensures x.Undefined? <==> Stuck(ir, s, p, cfg, d)
    ensures forall t :: ScanPasses(ir, cfg) && Reader.Accepts(ir, t, cfg.maxNodes) && x.Failed? ==>
              x.status == C.ParseE || x == OutcomeOf(t, s, p, cfg, d)
  {
    if |ir| > cfg.maxIrBytes {
      return Failed(C.LimitE);
    }
    var safe := Nesting.NestingSafe(ir);
    if !safe {
      return Failed(C.LimitE);
    }
    var root, calls := Reader.Read(ir, cfg.maxNodes);
    assert calls <= Brackets.MAX_DEPTH + 1;
    if root.None? {
      return Failed(C.ParseE);
    }
    assert Reader.Accepts(ir, root.value, cfg.maxNodes);
    var front := Front(root.value, s, p, cfg.lim);
    if front.Err? {
      x := Failed(front.status);
    } else if front.value.1 == [] {
      x := Failed(C.ParseE);
    } else {
      x := WriteTree(root.value, front.value.0, front.value.1, s, p, cfg, d);
    }
    forall t | Reader.Accepts(ir, t, cfg.maxNodes)
      ensures t == root.value
    {
      OneTree(ir, t, root.value, cfg.maxNodes);
    }
  }

  // ---- what follows for texts ----

  /** Text that differs only in white space compiles to the same SQL, parameters and canonical IR. */
  lemma {:induction false} SpacingIsIrrelevant(ir: string, jr: string, s: Schema, p: Policy, cfg: Config, d: Sql.Dialect, out: Outcome)
    requires Yields(ir, s, p, cfg, d, out) && Lex(jr, C_SPACE) == Lex(ir, C_SPACE) && |jr| <= cfg.maxIrBytes
    ensures Yields(jr, s, p, cfg, d, out)
  {
    var t :| Reader.Accepts(ir, t, cfg.maxNodes) && OutcomeOf(t, s, p, cfg, d) == out;
    assert Reader.Accepts(jr, t, cfg.maxNodes);
  }

  lemma {:induction false} OutcomeParts(t: Tree, s: Schema, p: Policy, cfg: Config, d: Sql.Dialect)
    ensures var out := OutcomeOf(t, s, p, cfg, d);
            out.Compiled? ==> out.ir == Printer.Canon(t) && C.CompileTree(t, s, p, cfg.lim, d).Ok?
                              && out.sql == StatementText.Text(C.CompileTree(t, s, p, cfg.lim, d).value.stmt, d)
                              && out.params == C.CompileTree(t, s, p, cfg.lim, d).value.params
  {
  }

  lemma {:induction false} CanonReads(ir: string, t: Tree, maxNodes: nat)
    requires Reader.Accepts(ir, t, maxNodes)
    ensures Lex(Printer.Canon(t), C_SPACE) == Lex(ir, C_SPACE)
  {
    Printer.CanonicalIrIsStable(ir, t, maxNodes);
  }

  /** Compiling the canonical IR again, where it is short enough, gives everything again. */
  lemma {:induction false} RecompilesToItself(ir: string, s: Schema, p: Policy, cfg: Config, d: Sql.Dialect, out: Outcome)
    requires Yields(ir, s, p, cfg, d, out) && |out.ir| <= cfg.maxIrBytes
    ensures Yields(out.ir, s, p, cfg, d, out)
  {
    var t :| Reader.Accepts(ir, t, cfg.maxNodes) && OutcomeOf(t, s, p, cfg, d) == out;
    CanonReads(ir, t, cfg.maxNodes);
    OutcomeParts(t, s, p, cfg, d);
    SpacingIsIrrelevant(ir, out.ir, s, p, cfg, d, out);
  }

  /** No two sources of the request have the same alias. */
  ghost predicate OneNameEach(t: Tree, s: Schema, p: Policy, lim: C.Limits) {
    C.Front(t, s, p, lim).Ok? && TenantCompile.DistinctNames(Typing.Aliases(C.Front(t, s, p, lim).value.1))
  }

  /** What isolation asks of a request: something to group by, aliases of its own, and for MySQL no parameter twice. */
  ghost predicate Isolable(t: Tree, s: Schema, p: Policy, lim: C.Limits, d: Sql.Dialect) {
    && !CompileProps.HasEmptyGroup(t) && OneNameEach(t, s, p, lim)
    && (d == Sql.MySql ==> Positional.NoRepeats(t, s, p, lim))
  }

  /**
    Tenant isolation of the compiler as a whole. Whatever IR it accepts, the database that parses
    the SQL and filters the full tables gets the rows it would get if all rows of other tenants
    were deleted first. MySQL reads placeholders by position, so there no parameter may repeat.
   */
  lemma {:induction false} SqlIsIsolated(ir: string, s: Schema, p: Policy, cfg: Config, d: Sql.Dialect, out: Outcome,
                                         env: R.Env, db: R.Database, tenant: R.Value)
    requires Yields(ir, s, p, cfg, d, out) && TenantCompile.BindsTenant(out.params, env, tenant)
    requires forall t :: Reader.Accepts(ir, t, cfg.maxNodes) ==> Isolable(t, s, p, cfg.lim, d)
    ensures var q := Positional.ReadBy(out.sql, d);
            q.Some? && R.Surviving(q.value, db, env) == R.Surviving(q.value, R.Restrict(db, TenantCompile.RulesOf(p), tenant), env)
  {
    var t :| Reader.Accepts(ir, t, cfg.maxNodes) && OutcomeOf(t, s, p, cfg, d) == out;
    TreeIsIsolated(t, s, p, cfg, d, env, db, tenant);
  }

  lemma {:induction false} TreeIsIsolated(t: Tree, s: Schema, p: Policy, cfg: Config, d: Sql.Dialect,
                                          env: R.Env, db: R.Database, tenant: R.Value)
    requires OutcomeOf(t, s, p, cfg, d).Compiled? && Isolable(t, s, p, cfg.lim, d)
    requires TenantCompile.BindsTenant(OutcomeOf(t, s, p, cfg, d).params, env, tenant)
    ensures var q := Positional.ReadBy(OutcomeOf(t, s, p, cfg, d).sql, d);
            q.Some? && R.Surviving(q.value, db, env) == R.Surviving(q.value, R.Restrict(db, TenantCompile.RulesOf(p), tenant), env)
  {
    OutcomeParts(t, s, p, cfg, d);
    NamesOfRequest(t, s, p, cfg.lim, d);
    Positional.TextIsIsolated(t, s, p, cfg.lim, d, env, db, tenant);
  }

  lemma {:induction false} NamesOfRequest(t: Tree, s: Schema, p: Policy, lim: C.Limits, d: Sql.Dialect)
    requires C.CompileTree(t, s, p, lim, d).Ok?
    ensures C.Front(t, s, p, lim).Ok?
    ensures R.Names(St.Meant(C.CompileTree(t, s, p, lim, d).value.stmt, Positional.Numbering(d))) == Typing.Aliases(C.Front(t, s, p, lim).value.1)
  {
    var r := CompileProps.TakeApart(t, s, p, lim, d);
    TypedStatement.NamesAreAliases(t, s, p, lim, d, C.CompileTree(t, s, p, lim, d).value, r, Positional.Numbering(d));
  }

  /** The SQL of an accepted tree reads back as the statement meant, unless its group-by clause is empty. */
  lemma {:induction false} MeantOrNothing(t: Tree, s: Schema, p: Policy, lim: C.Limits, d: Sql.Dialect)
    requires C.CompileTree(t, s, p, lim, d).Ok?
    ensures var c := C.CompileTree(t, s, p, lim, d).value;
            St.QueryOf(StatementText.Text(c.stmt, d), d) == if CompileProps.HasEmptyGroup(t) then None else Some(St.Meant(c.stmt, d))
  {
    CompileProps.AcceptedIsWf(t, s, p, lim, d);
    CompileProps.GroupIsEmpty(t, s, p, lim, d);
    StatementText.EmittedTextReadsBack(C.CompileTree(t, s, p, lim, d).value.stmt, d);
  }

  /** An accepted request whose text is no statement: it groups by nothing. */
  lemma {:induction false} EmptyGroupSlips(s: Schema, p: Policy, lim: C.Limits, d: Sql.Dialect)
    requires Samples.Plain(s, p, lim)
    ensures var c := C.CompileTree(Samples.Query([Samples.ParamField("a", "x")], [Samples.EMPTY_GROUP]), s, p, lim, d);
            c.Ok? && St.QueryOf(StatementText.Text(c.value.stmt, d), d) == None
  {
    Samples.ShortNames();
    Samples.ParamQuery("a", true, s, p, lim, d);
    var t := Samples.Query([Samples.ParamField("a", "x")], [Samples.EMPTY_GROUP]);
    CompileProps.GroupIsEmpty(t, s, p, lim, d);
    MeantOrNothing(t, s, p, lim, d);
  }

  // ---- an empty list ----

  /** A tree that the reader takes and that has at most n levels of lists. */
  predicate Shallow(t: Tree, n: nat) { Fits(t) && Printer.Printable(t, C_SPACE) && Brackets.Height(t) <= n }

  lemma {:induction false} HeightUpTo(ks: seq<Tree>, n: nat)
    requires forall k :: k in ks ==> Brackets.Height(k) <= n
    ensures Brackets.HeightAll(ks) <= n
  {
    if ks != [] {
      assert forall k :: k in ks[1..] ==> k in ks;
      HeightUpTo(ks[1..], n);
    }
  }

  lemma {:induction false} ShallowList(ks: seq<Tree>, n: nat)
    requires |ks| <= MAX_CHILDREN && forall k :: k in ks ==> Shallow(k, n)
    ensures Shallow(Node(ks), n + 1)
  {
    HeightUpTo(ks, n);
  }

  lemma {:induction false} ShallowAtom(w: string, n: nat)
    requires 0 < |w| < NAME && forall i :: 0 <= i < |w| ==> 'a' <= w[i] <= 'z' || '0' <= w[i] <= '9'
    ensures Shallow(Atom(w), n)
  {
  }

  lemma {:induction false} ShallowThree(a: Tree, b: Tree, c: Tree, n: nat)
    requires Shallow(a, n) && Shallow(b, n) && Shallow(c, n)
    ensures Shallow(Node([a, b, c]), n + 1)
  {
    ShallowList([a, b, c], n);
  }

  /** A query behind which an empty list stands. */
  const FIELD: Tree := Samples.ParamField("a", "x")
  const QUERY: Tree := Samples.Query([FIELD], [])
  const STRAY: Tree := Samples.Trailing(QUERY)

  lemma {:induction false} FieldIsShallow()
    ensures Shallow(FIELD, 2)
  {
    ShallowAtom("param", 0);
    ShallowAtom("a", 0);
    ShallowAtom("int64", 0);
    ShallowThree(Atom("param"), Atom("a"), Atom("int64"), 0);
    ShallowAtom("field", 1);
    ShallowAtom("x", 1);
    ShallowThree(Atom("field"), Samples.ParamNode("a", "int64"), Atom("x"), 1);
  }

  lemma {:induction false} ClausesAreShallow()
    ensures Shallow(Samples.FROM, 3) && Shallow(Samples.List("select", [FIELD]), 3)
  {
    FieldIsShallow();
    ShallowAtom("from", 2);
    ShallowAtom("t", 2);
    ShallowAtom("select", 2);
    ShallowList([Atom("from"), Atom("t")], 2);
    ShallowList([Atom("select")] + [FIELD], 2);
  }

  lemma {:induction false} StrayIsShallow()
    ensures Shallow(STRAY, 5)
  {
    var select := Samples.List("select", [FIELD]);
    ClausesAreShallow();
    ShallowAtom("query", 3);
    var query := [Atom("query")] + Samples.Clauses([FIELD], []);
    assert query == [Atom("query"), Samples.FROM, select];
    ShallowList(query, 3);
    ShallowAtom("nlsql", 4);
    ShallowAtom("1", 4);
    ShallowList([], 3);
    var all := QUERY.kids + [Node([])];
    assert all == [Atom("nlsql"), Atom("1"), Node(query), Node([])];
    ShallowList(all, 4);
  }

  /** Room for this request in every limit that the caller sets. */
  predicate Roomy(t: Tree, c: C.Compiled, cfg: Config, d: Sql.Dialect) {
    && Size(t) <= cfg.maxNodes && |Printer.Canon(t)| <= cfg.maxIrBytes
    && FitsIn(Printer.Written(t), cfg) && FitsIn(StatementText.Text(c.stmt, d), cfg)
  }

  /**
    A request that passes the scan, the reader and every check, and leaves the compiler undefined:
    behind the query, where nothing looks, stands an empty list.
   */
  lemma {:induction false} EmptyListSlips(s: Schema, p: Policy, cfg: Config, d: Sql.Dialect) returns (c: C.Compiled)
    requires Samples.Plain(s, p, cfg.lim)
    ensures C.CompileTree(STRAY, s, p, cfg.lim, d) == C.Ok(c)
    ensures Roomy(STRAY, c, cfg, d) ==> Stuck(Printer.Canon(STRAY), s, p, cfg, d)
  {
    Samples.ShortNames();
    Samples.ParamQuery("a", false, s, p, cfg.lim, d);
    Samples.TrailingCompiles(QUERY, s, p, cfg.lim, d);
    c := C.CompileTree(STRAY, s, p, cfg.lim, d).value;
    if Roomy(STRAY, c, cfg, d) {
      StrayIsRead();
      EmptyInside(QUERY);
      StuckOn(STRAY, s, p, cfg, d, c);
    }
  }

  lemma {:induction false} StrayIsRead()
    ensures Lex(Printer.Canon(STRAY), C_SPACE) == Flatten(STRAY) && Fits(STRAY)
    ensures Brackets.Safe(Brackets.Climb(Lex(Printer.Canon(STRAY), C_SPACE), 0, 0))
  {
    StrayIsShallow();
    Printer.CanonDenotes(STRAY, C_SPACE);
    Nesting.SafeIffHeight(Printer.Canon(STRAY), STRAY);
    assert Brackets.Height(STRAY) == 1 + Brackets.HeightAll(STRAY.kids);
  }

  lemma {:induction false} EmptyInside(t: Tree)
    requires t.Node?
    ensures !Printer.NoEmptyList(Samples.Trailing(t))
  {
    assert Node([]) in Samples.Trailing(t).kids;
  }

  lemma {:induction false} StuckOn(t: Tree, s: Schema, p: Policy, cfg: Config, d: Sql.Dialect, c: C.Compiled)
    requires C.CompileTree(t, s, p, cfg.lim, d) == C.Ok(c) && Roomy(t, c, cfg, d) && !Printer.NoEmptyList(t)
    requires Lex(Printer.Canon(t), C_SPACE) == Flatten(t) && Fits(t)
    requires Brackets.Safe(Brackets.Climb(Lex(Printer.Canon(t), C_SPACE), 0, 0))
    ensures Stuck(Printer.Canon(t), s, p, cfg, d)
  {
    assert OutcomeOf(t, s, p, cfg, d) == Undefined;
    assert Reader.Accepts(Printer.Canon(t), t, cfg.maxNodes);
  }
}
