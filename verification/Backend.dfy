/** From checked clauses to finished SQL: the method that runs is the plan that was proved about. */
module Backend {
  import opened Wrappers
  import opened Sexpr
  import opened Decimal
  import opened Catalog
  import opened Emit
  import opened Buffer
  import opened Sql
  import opened Emitter
  import opened Writer
  import opened StatementWriter
  import C = Compile
  import E = SqlExpr
  import St = Statement
  import StatementText

  function TopText(n: nat): string { Dec(n) + " " }

  function HeadOut(top: Option<nat>): Out {
    var a := Lit("SELECT ", []);
    if top.Some? then AndLit(AndLit(a, "TOP ", []), TopText(top.value), []) else a
  }

  lemma {:induction false} HeadTarget(top: Option<nat>, d: Dialect)
    ensures HeadOut(top) == Some((Spell(St.SelectHead(top), d), []))
  {
    SpellWord(W("SELECT"), Sp, Sp, d);
    SpellWord(W("TOP"), Sp, Sp, d);
    assert "SELECT" + " " == "SELECT " && "TOP" + " " == "TOP ";
    if top.Some? {
      SpellWord(W(Dec(top.value)), Sp, Sp, d);
      SpellAppend([W("TOP"), Sp], [W(Dec(top.value)), Sp], d);
      SpellAppend([W("SELECT"), Sp], [W("TOP"), Sp] + [W(Dec(top.value)), Sp], d);
      Cat("SELECT ", "TOP ", TopText(top.value));
    } else {
      assert [W("SELECT"), Sp] + [] == [W("SELECT"), Sp];
    }
  }

  lemma {:induction false} FromText(d: Dialect)
    ensures Spell(St.FROM, d) == " FROM "
  {
    SpellWord(Sp, W("FROM"), Sp, d);
    assert " " + "FROM" + " " == " FROM ";
  }

  // ---- up to the condition ----

  function FromOut(top: Option<nat>, sel: seq<Tree>, src: seq<Source>, s: Schema, d: Dialect): Out
    requires src != []
  {
    AndLit(AndLit(AndFields(HeadOut(top), sel, 0, src, s, d, []), " FROM ", []), SourceText(src[0], d), [])
  }

  function UpperPieces(top: Option<nat>, fields: seq<(E.Expr, string)>, from: Source, joins: seq<St.Join>, cond: Option<E.Expr>): seq<Piece> {
    FromPieces(top, fields, from) + St.JoinsPieces(joins) + St.CondPieces(cond)
  }

  function FromPieces(top: Option<nat>, fields: seq<(E.Expr, string)>, from: Source): seq<Piece> {
    St.SelectHead(top) + St.FieldsPieces(fields) + St.FROM + St.SourcePieces(from)
  }

  lemma {:induction false} FromSpelling(top: Option<nat>, fields: seq<(E.Expr, string)>, from: Source, d: Dialect)
    ensures Spell(FromPieces(top, fields, from), d) ==
            Spell(St.SelectHead(top), d) + Spell(St.FieldsPieces(fields), d) + " FROM " + SourceText(from, d)
  {
    FromText(d);
    SourceSpelling(from, d);
    SpellAppend(St.SelectHead(top), St.FieldsPieces(fields), d);
    SpellAppend(St.SelectHead(top) + St.FieldsPieces(fields), St.FROM, d);
    SpellAppend(St.SelectHead(top) + St.FieldsPieces(fields) + St.FROM, St.SourcePieces(from), d);
  }

  lemma {:induction false} FieldsAfter(h: string, sel: seq<Tree>, src: seq<Source>, s: Schema, d: Dialect)
    requires sel != []
    ensures AndFields(Some((h, [])), sel, 0, src, s, d, []) ==
            match C.FieldsPlan(sel, src, s, [])
            case None => None
            case Some((fields, p1)) => Some((h + Spell(St.FieldsPieces(fields), d), p1))
  {
    FieldsTarget(sel, src, s, d, []);
  }

  lemma {:induction false} JoinsAfter(h: string, ps: seq<Param>, cs: seq<Tree>, src: seq<Source>, s: Schema, d: Dialect)
    requires src != []
    ensures AndJoins(Some((h, ps)), cs, src, 1, s, d, []) ==
            match C.JoinsPlan(cs, src, 1, s, ps)
            case None => None
            case Some((joins, p2)) => Some((h + Spell(St.JoinsPieces(joins), d), p2))
  {
    JoinsTarget(cs, src, 1, s, d, ps);
  }

  lemma {:induction false} FromTarget(top: Option<nat>, sel: seq<Tree>, src: seq<Source>, s: Schema, d: Dialect)
    requires src != [] && sel != []
    ensures FromOut(top, sel, src, s, d) ==
            match C.FieldsPlan(sel, src, s, [])
            case None => None
            case Some((fields, p1)) => Some((Spell(FromPieces(top, fields, src[0]), d), p1))
  {
    HeadTarget(top, d);
    FieldsAfter(Spell(St.SelectHead(top), d), sel, src, s, d);
    var f := C.FieldsPlan(sel, src, s, []);
    if f.Some? {
      FromSpelling(top, f.value.0, src[0], d);
    }
  }

  function AndCond(a: Out, cs: seq<Tree>, src: seq<Source>, s: Schema, d: Dialect): Out {
    Then(a, CondOut(C.FindClause(cs, "where"), src, s, d, After(a, [])))
  }

  lemma {:induction false} CondAfter(h: string, ps: seq<Param>, cs: seq<Tree>, src: seq<Source>, s: Schema, d: Dialect)
    ensures AndCond(Some((h, ps)), cs, src, s, d) ==
            match C.CondPlan(C.FindClause(cs, "where"), src, s, ps)
            case None => None
            case Some((cond, p3)) => Some((h + Spell(St.CondPieces(cond), d), p3))
  {
    CondTarget(C.FindClause(cs, "where"), src, s, d, ps);
  }

  function UpperOut(top: Option<nat>, sel: seq<Tree>, cs: seq<Tree>, src: seq<Source>, s: Schema, d: Dialect): Out
    requires src != []
  {
    AndCond(AndJoins(FromOut(top, sel, src, s, d), cs, src, 1, s, d, []), cs, src, s, d)
  }

  lemma {:induction false} UpperTarget(top: Option<nat>, sel: Tree, cs: seq<Tree>, src: seq<Source>, s: Schema, d: Dialect)
    requires src != [] && C.FindClause(cs, "select") == Some(sel) && |sel.kids| >= 2
    ensures UpperOut(top, sel.kids[1..], cs, src, s, d) ==
            match C.Upper(cs, src, s)
            case None => None
            case Some((fields, joins, cond, p3)) => Some((Spell(UpperPieces(top, fields, src[0], joins, cond), d), p3))
  {
    FromTarget(top, sel.kids[1..], src, s, d);
    var f := C.FieldsPlan(sel.kids[1..], src, s, []);
    if f.Some? {
      UpperRest(top, f.value.0, f.value.1, cs, src, s, d);
    }
  }

  lemma {:induction false} UpperRest(top: Option<nat>, fields: seq<(E.Expr, string)>, p1: seq<Param>, cs: seq<Tree>, src: seq<Source>, s: Schema, d: Dialect)
    requires src != []
    ensures AndCond(AndJoins(Some((Spell(FromPieces(top, fields, src[0]), d), p1)), cs, src, 1, s, d, []), cs, src, s, d) ==
            match C.JoinsPlan(cs, src, 1, s, p1)
            case None => None
            case Some((joins, p2)) =>
              match C.CondPlan(C.FindClause(cs, "where"), src, s, p2)
              case None => None
              case Some((cond, p3)) => Some((Spell(UpperPieces(top, fields, src[0], joins, cond), d), p3))
  {
    var h := Spell(FromPieces(top, fields, src[0]), d);
    JoinsAfter(h, p1, cs, src, s, d);
    var j := C.JoinsPlan(cs, src, 1, s, p1);
    if j.Some? {
      CondAfter(h + Spell(St.JoinsPieces(j.value.0), d), j.value.1, cs, src, s, d);
      var c := C.CondPlan(C.FindClause(cs, "where"), src, s, j.value.1);
      if c.Some? {
        FramedText(FromPieces(top, fields, src[0]), St.JoinsPieces(j.value.0), St.CondPieces(c.value.0), d);
      }
    }
  }

  // ---- the rest ----

  function LimitText(n: nat): string { " LIMIT " + Dec(n) }

  lemma {:induction false} LimitSpelling(n: nat, d: Dialect)
    ensures Spell(St.LimitPieces(Some(n)), d) == LimitText(n) && Spell(St.LimitPieces(None), d) == ""
  {
    SpellWord(Sp, W("LIMIT"), Sp, d);
    SpellWord(W(Dec(n)), Sp, Sp, d);
    assert " " + "LIMIT" + " " == " LIMIT ";
    SpellAppend(St.LIMIT, [W(Dec(n))], d);
  }

  /** The number written last, unless it has been written first. */
  function LastLimit(limit: Option<nat>, d: Dialect): Option<nat> { if d.SqlServer? then None else limit }
  function FirstLimit(limit: Option<nat>, d: Dialect): Option<nat> { if d.SqlServer? then limit else None }

  function LimitOut(a: Out, limit: Option<nat>, d: Dialect): Out {
    if limit.None? then None
    else if d.SqlServer? then a
    else AndLit(a, LimitText(limit.value), [])
  }

  function LowerOut(a: Out, first: bool, cs: seq<Tree>, src: seq<Source>, s: Schema, p: Policy, d: Dialect): Out {
    TailOut(AndTenants(a, src, 0, first, s, p, d, []), cs, src, s, d)
  }

  function TailOut(a: Out, cs: seq<Tree>, src: seq<Source>, s: Schema, d: Dialect): Out {
    var a2 := Then(a, GroupOut(C.FindClause(cs, "group-by"), src, s, d, After(a, [])));
    Then(a2, OrderOut(C.FindClause(cs, "order-by"), src, s, d, After(a2, [])))
  }

  function LowerPieces(u: seq<Piece>, ts: seq<St.Tenant>, first: bool, g: Option<seq<E.Expr>>, o: Option<(E.Expr, bool)>): seq<Piece> {
    u + St.TenantsPieces(ts, first) + St.GroupPieces(g) + St.OrderPieces(o)
  }

  lemma {:induction false} LowerTarget(u: seq<Piece>, p3: seq<Param>, first: bool, cs: seq<Tree>, src: seq<Source>, s: Schema, p: Policy, d: Dialect)
    ensures LowerOut(Some((Spell(u, d), p3)), first, cs, src, s, p, d) ==
            match C.TenantsPlan(src, s, p, p3)
            case Err(_) => None
            case Ok((ts, p4)) =>
              match C.GroupPlan(C.FindClause(cs, "group-by"), src, s, p4)
              case None => None
              case Some((g, p5)) =>
                match C.OrderPlan(C.FindClause(cs, "order-by"), src, s, p5)
                case None => None
                case Some((o, p6)) => Some((Spell(LowerPieces(u, ts, first, g, o), d), p6))
  {
    assert src[0..] == src;
    TenantsTarget(src, 0, first, s, p, d, p3);
    var n := C.TenantsPlan(src, s, p, p3);
    if n.Ok? {
      var (ts, p4) := n.value;
      SpellAppend(u, St.TenantsPieces(ts, first), d);
      GroupTarget(C.FindClause(cs, "group-by"), src, s, d, p4);
      var g := C.GroupPlan(C.FindClause(cs, "group-by"), src, s, p4);
      if g.Some? {
        SpellAppend(u + St.TenantsPieces(ts, first), St.GroupPieces(g.value.0), d);
        OrderTarget(C.FindClause(cs, "order-by"), src, s, d, g.value.1);
        var o := C.OrderPlan(C.FindClause(cs, "order-by"), src, s, g.value.1);
        if o.Some? {
          SpellAppend(u + St.TenantsPieces(ts, first) + St.GroupPieces(g.value.0), St.OrderPieces(o.value.0), d);
        }
      }
    }
  }

  function StatementOut(sel: seq<Tree>, cs: seq<Tree>, src: seq<Source>, s: Schema, p: Policy, limit: Option<nat>, d: Dialect): Out
    requires src != []
  {
    LimitOut(LowerOut(UpperOut(FirstLimit(limit, d), sel, cs, src, s, d), C.FindClause(cs, "where").None?, cs, src, s, p, d), limit, d)
  }

  lemma {:induction false} WhereKept(cs: seq<Tree>, src: seq<Source>, s: Schema)
    requires src != [] && C.Upper(cs, src, s).Some?
    ensures C.Upper(cs, src, s).value.2.None? <==> C.FindClause(cs, "where").None?
  {
  }

  lemma {:induction false} LimitTarget(l: seq<Piece>, ps: seq<Param>, limit: nat, d: Dialect)
    ensures LimitOut(Some((Spell(l, d), ps)), Some(limit), d) == Some((Spell(l + St.LimitPieces(LastLimit(Some(limit), d)), d), ps))
  {
    LimitSpelling(limit, d);
    SpellAppend(l, St.LimitPieces(LastLimit(Some(limit), d)), d);
    assert Spell(l, d) + "" == Spell(l, d);
  }

  /** What is written, clause by clause, is the text of the planned statement. */
  lemma {:induction false} StatementTarget(sel: Tree, cs: seq<Tree>, src: seq<Source>, s: Schema, p: Policy, lim: C.Limits, d: Dialect)
    requires src != [] && C.FindClause(cs, "select") == Some(sel) && |sel.kids| >= 2
    ensures StatementOut(sel.kids[1..], cs, src, s, p, C.LimitOf(C.FindClause(cs, "limit"), p, lim), d) ==
            match C.Back(cs, src, s, p, lim, d)
            case Err(_) => None
            case Ok(c) => Some((StatementText.Text(c.stmt, d), c.params))
  {
    var limit := C.LimitOf(C.FindClause(cs, "limit"), p, lim);
    var top := FirstLimit(limit, d);
    UpperTarget(top, sel, cs, src, s, d);
    var up := C.Upper(cs, src, s);
    if up.Some? && limit.Some? {
      WhereKept(cs, src, s);
      StatementRest(cs, src, s, p, lim, d, limit.value);
    }
  }

  lemma {:induction false} StatementRest(cs: seq<Tree>, src: seq<Source>, s: Schema, p: Policy, lim: C.Limits, d: Dialect, limit: nat)
    requires src != [] && C.LimitOf(C.FindClause(cs, "limit"), p, lim) == Some(limit) && C.Upper(cs, src, s).Some?
    ensures var (fields, joins, cond, p3) := C.Upper(cs, src, s).value;
            var u := Spell(UpperPieces(FirstLimit(Some(limit), d), fields, src[0], joins, cond), d);
            LimitOut(LowerOut(Some((u, p3)), cond.None?, cs, src, s, p, d), Some(limit), d) ==
            match C.Back(cs, src, s, p, lim, d)
            case Err(_) => None
            case Ok(c) => Some((StatementText.Text(c.stmt, d), c.params))
  {
    var (fields, joins, cond, p3) := C.Upper(cs, src, s).value;
    LowerTarget(UpperPieces(FirstLimit(Some(limit), d), fields, src[0], joins, cond), p3, cond.None?, cs, src, s, p, d);
    if C.Back(cs, src, s, p, lim, d).Ok? {
      BackParts(cs, src, s, p, lim, d, limit);
    }
  }

  /** The statement of the plan in terms of its parts. */
  lemma {:induction false} BackParts(cs: seq<Tree>, src: seq<Source>, s: Schema, p: Policy, lim: C.Limits, d: Dialect, limit: nat)
    requires src != [] && C.LimitOf(C.FindClause(cs, "limit"), p, lim) == Some(limit) && C.Back(cs, src, s, p, lim, d).Ok?
    ensures C.Upper(cs, src, s).Some?
    ensures var c := C.Back(cs, src, s, p, lim, d).value;
            var (fields, joins, cond, p3) := C.Upper(cs, src, s).value;
            var l := LowerPieces(UpperPieces(FirstLimit(Some(limit), d), fields, src[0], joins, cond),
                                 c.stmt.tenants, cond.None?, c.stmt.group, c.stmt.order);
            Some((StatementText.Text(c.stmt, d), c.params)) == LimitOut(Some((Spell(l, d), c.params)), Some(limit), d)
  {
    var c := C.Back(cs, src, s, p, lim, d).value;
    var (fields, joins, cond, p3) := C.Upper(cs, src, s).value;
    var l := LowerPieces(UpperPieces(FirstLimit(Some(limit), d), fields, src[0], joins, cond),
                         c.stmt.tenants, cond.None?, c.stmt.group, c.stmt.order);
    LimitTarget(l, c.params, limit, d);
    assert St.StmtPieces(c.stmt) == l + St.LimitPieces(LastLimit(Some(limit), d));
  }

  // ---- the method ----

  /** SELECT and, where the dialect wants it there, the limit. */
  method WriteHead(b: Buf, t: ParamTable, top: Option<nat>) returns (ok: bool)
    requires b.Valid() && t.Valid() && b.text == "" && t.items == []
    modifies b, b.s
    ensures b.Valid() && t.Valid() && (b.s == old(b.s) || fresh(b.s))
    ensures Done(ok, "", b.text, t.items, b.Ceiling(), HeadOut(top))
  {
    ok := PutFirst(b, t, "SELECT ");
    if top.Some? {
      ok := PutNext(b, t, "TOP ", ok, "", Lit("SELECT ", []), []);
      ok := PutNext(b, t, TopText(top.value), ok, "", AndLit(Lit("SELECT ", []), "TOP ", []), []);
    }
  }

  method WriteFrom(b: Buf, t: ParamTable, top: Option<nat>, sel: seq<Tree>, src: seq<Source>, s: Schema, d: Dialect) returns (ok: bool)
    requires b.Valid() && t.Valid() && b.text == "" && t.items == [] && src != []
    modifies b, b.s, t, t.slots
    ensures b.Valid() && t.Valid() && (b.s == old(b.s) || fresh(b.s))
    ensures Done(ok, "", b.text, t.items, b.Ceiling(), FromOut(top, sel, src, s, d))
  {
    ok := WriteHead(b, t, top);
    ghost var a1 := AndFields(HeadOut(top), sel, 0, src, s, d, []);
    ok := FieldsNext(b, t, sel, src, s, d, ok, "", HeadOut(top), [], a1);
    ok := PutNext(b, t, " FROM ", ok, "", a1, []);
    ok := PutNext(b, t, SourceText(src[0], d), ok, "", AndLit(a1, " FROM ", []), []);
  }

  /** Everything up to the condition. */
  method WriteUpper(b: Buf, t: ParamTable, top: Option<nat>, sel: seq<Tree>, cs: seq<Tree>, src: seq<Source>, s: Schema, d: Dialect) returns (ok: bool)
    requires b.Valid() && t.Valid() && b.text == "" && t.items == [] && src != []
    modifies b, b.s, t, t.slots
    ensures b.Valid() && t.Valid() && (b.s == old(b.s) || fresh(b.s))
    ensures Done(ok, "", b.text, t.items, b.Ceiling(), UpperOut(top, sel, cs, src, s, d))
  {
    ok := WriteFrom(b, t, top, sel, src, s, d);
    ghost var a2 := FromOut(top, sel, src, s, d);
    ghost var a3 := AndJoins(a2, cs, src, 1, s, d, []);
    ok := JoinsNext(b, t, cs, src, s, d, ok, "", a2, [], a3);
    ok := CondNext(b, t, C.FindClause(cs, "where"), src, s, d, ok, "", a3, []);
  }

  /** The injected predicates, grouping and ordering; a failed check decides the status. */
  method WriteLower(b: Buf, t: ParamTable, cs: seq<Tree>, src: seq<Source>, s: Schema, p: Policy, d: Dialect,
                    so: bool, ghost a: Out) returns (ok: bool, e: C.Status)
    requires b.Valid() && t.Valid()
    requires Done(so, "", b.text, t.items, b.Ceiling(), a)
    modifies b, b.s, t, t.slots
    ensures b.Valid() && t.Valid() && (b.s == old(b.s) || fresh(b.s))
    ensures Done(ok, "", b.text, t.items, b.Ceiling(), LowerOut(a, C.FindClause(cs, "where").None?, cs, src, s, p, d))
    ensures !ok && e != C.ParseE ==> a.Some? && C.TenantsPlan(src, s, p, a.value.1) == C.Err(e)
  {
    var where := C.FindClause(cs, "where").Some?;
    ghost var a1 := AndTenants(a, src, 0, !where, s, p, d, []);
    ghost var fault := C.TenantsPlan(src, s, p, t.items);
    assert src[0..] == src && (so ==> t.items == a.value.1);
    ok, e := TenantsNext(b, t, src, where, s, p, d, so, "", a, [], a1, fault);
    if !ok {
      WriteStops(b.text, t.items, b.Ceiling(), a1, cs, src, s, d);
      return;
    }
    e := C.ParseE;
    ok := WriteTail(b, t, cs, src, s, d, a1);
  }

  method WriteTail(b: Buf, t: ParamTable, cs: seq<Tree>, src: seq<Source>, s: Schema, d: Dialect, ghost a: Out) returns (ok: bool)
    requires b.Valid() && t.Valid() && Done(true, "", b.text, t.items, b.Ceiling(), a)
    modifies b, b.s, t, t.slots
    ensures b.Valid() && t.Valid() && (b.s == old(b.s) || fresh(b.s))
    ensures Done(ok, "", b.text, t.items, b.Ceiling(), TailOut(a, cs, src, s, d))
  {
    ok := GroupNext(b, t, C.FindClause(cs, "group-by"), src, s, d, true, "", a, []);
    ghost var a2 := Then(a, GroupOut(C.FindClause(cs, "group-by"), src, s, d, After(a, [])));
    ok := OrderNext(b, t, C.FindClause(cs, "order-by"), src, s, d, ok, "", a2, []);
  }

  lemma {:induction false} WriteStops(text: string, items: seq<Param>, ceiling: nat, a1: Out, cs: seq<Tree>, src: seq<Source>, s: Schema, d: Dialect)
    requires Done(false, "", text, items, ceiling, a1)
    ensures Done(false, "", text, items, ceiling, TailOut(a1, cs, src, s, d))
  {
    var g := GroupOut(C.FindClause(cs, "group-by"), src, s, d, After(a1, []));
    var a2 := Then(a1, g);
    Stopped("", text, items, ceiling, a1, g);
    Stopped("", text, items, ceiling, a2, OrderOut(C.FindClause(cs, "order-by"), src, s, d, After(a2, [])));
  }

  /**
    Writes the statement. Succeeds exactly when the plan does and its text fits, and then the
    buffer holds the text and the table the parameters of the planned statement.
   */
  method WriteStatement(b: Buf, t: ParamTable, sel: Tree, cs: seq<Tree>, src: seq<Source>, s: Schema, p: Policy, lim: C.Limits, d: Dialect)
    returns (ok: bool, e: C.Status)
    requires b.Valid() && t.Valid() && b.text == "" && t.items == []
    requires src != [] && C.FindClause(cs, "select") == Some(sel) && |sel.kids| >= 2
    modifies b, b.s, t, t.slots
    ensures b.Valid() && t.Valid()
    ensures match C.Back(cs, src, s, p, lim, d)
            case Ok(c) =>
              var text := StatementText.Text(c.stmt, d);
              && (ok <==> |text| + 1 <= b.Ceiling()) && (ok ==> b.text == text && t.items == c.params) && (!ok ==> e == C.ParseE)
            case Err(e') => !ok && (e == e' || e == C.ParseE)
  {
    var limit := C.LimitOf(C.FindClause(cs, "limit"), p, lim);
    StatementTarget(sel, cs, src, s, p, lim, d);
    UpperTarget(FirstLimit(limit, d), sel, cs, src, s, d);
    if d.SqlServer? && limit.None? {
      return false, C.ParseE;
    }
    ok := WriteUpper(b, t, FirstLimit(limit, d), sel.kids[1..], cs, src, s, d);
    ghost var a := UpperOut(FirstLimit(limit, d), sel.kids[1..], cs, src, s, d);
    ok, e := WriteLower(b, t, cs, src, s, p, d, ok, a);
    if !ok {
      return;
    }
    if limit.None? {
      return false, C.ParseE;
    }
    if !d.SqlServer? {
      ok := PutNext(b, t, LimitText(limit.value), ok, "", LowerOut(a, C.FindClause(cs, "where").None?, cs, src, s, p, d), []);
      e := C.ParseE;
    }
  }
}
