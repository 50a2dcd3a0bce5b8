/** Every emitted statement is read as the statement it means, clause by clause. */
module StatementRead {
  import opened Wrappers
  import opened Decimal
  import opened Sql
  import opened SqlExpr
  import opened SqlRead
  import opened ReadBack
  import opened Lexemes
  import opened Statement
  import opened StatementLexemes

  /** Where a clause may end. */
  ghost predicate ClauseEnd(ts: seq<Lexeme>) {
    End(ts) || (ts[0].K? && ts[0].k in {KFrom, KInner, KLeft, KRight, KFull, KOn, KWhere, KGroup, KOrder, KLimit})
  }

  /** Where a statement may end. */
  ghost predicate End(ts: seq<Lexeme>) { ts == [] || ts[0] == Close }

  lemma {:induction false} Behind(a: seq<Lexeme>, b: seq<Lexeme>)
    ensures (a + b)[|a|..] == b
  {
  }

  // ---- fields ----

  lemma {:induction false} FieldsRead(fs: seq<(Expr, string)>, rest: seq<Lexeme>, d: Dialect)
    requires fs != [] && (forall f :: f in fs ==> Wf(f.0)) && ClauseEnd(rest)
    ensures ParseFields(FieldsL(fs, d) + rest) == Some((NormFields(fs, d), rest))
  {
    var f := fs[0];
    NormFieldsCons(fs, d);
    if |fs| == 1 {
      OneField(f, rest, d);
      assert NormFields(fs[1..], d) == [] && NormFields(fs, d) == [(Norm(f.0, d), f.1)];
    } else {
      var tail := FieldsL(fs[1..], d);
      FieldsRead(fs[1..], rest, d);
      OneField(f, [Comma] + (tail + rest), d);
      Behind([Comma], tail + rest);
      FieldsShape(fs, rest, d);
    }
  }

  lemma {:induction false} NormFieldsCons(fs: seq<(Expr, string)>, d: Dialect)
    requires fs != []
    ensures NormFields(fs, d) == [(Norm(fs[0].0, d), fs[0].1)] + NormFields(fs[1..], d)
  {
  }

  lemma {:induction false} FieldsShape(fs: seq<(Expr, string)>, rest: seq<Lexeme>, d: Dialect)
    requires |fs| > 1 && (forall f :: f in fs ==> Wf(f.0))
    ensures FieldsL(fs, d) + rest == FieldL(fs[0], d) + ([Comma] + (FieldsL(fs[1..], d) + rest))
  {
    var tail := FieldsL(fs[1..], d);
    Cat(FieldL(fs[0], d) + [Comma], tail, rest);
    Cat(FieldL(fs[0], d), [Comma], tail + rest);
  }

  lemma {:induction false} OneField(f: (Expr, string), rest: seq<Lexeme>, d: Dialect)
    requires Wf(f.0)
    ensures ParseFields(FieldL(f, d) + rest) ==
            if At(rest, Comma) then
              match ParseFields(rest[1..])
              case None => None
              case Some((fs, r1)) => Some(([(Norm(f.0, d), f.1)] + fs, r1))
            else Some(([(Norm(f.0, d), f.1)], rest))
  {
    var z := [K(KAs), Name(f.1)] + rest;
    Cat(T(f.0, d), [K(KAs), Name(f.1)], rest);
    ExpressionReadsBack(f.0, z, d);
    Behind([K(KAs), Name(f.1)], rest);
    assert z[0] == K(KAs) && z[1] == Name(f.1);
    assert At(rest, Comma) ==> z[3..] == rest[1..];
  }

  // ---- sources and joins ----

  lemma {:induction false} SourceReads(s: Source, rest: seq<Lexeme>)
    ensures ParseSource(SourceL(s) + rest) == Some((s, rest))
  {
    Behind(SourceL(s), rest);
  }

  lemma {:induction false} JoinHeadReads(k: JoinKind, rest: seq<Lexeme>)
    ensures JoinHead(JoinKeywords(k) + rest) == Some((k, |JoinKeywords(k)|))
    ensures ClauseEnd(JoinKeywords(k) + rest)
  {
    var ts := JoinKeywords(k) + rest;
    assert ts[0] == JoinKeywords(k)[0] && ts[1] == JoinKeywords(k)[1];
  }

  lemma {:induction false} JoinsRead(js: seq<Join>, rest: seq<Lexeme>, d: Dialect)
    requires (forall j :: j in js ==> Wf(j.on)) && ClauseEnd(rest) && JoinHead(rest) == None
    ensures ParseJoins(JoinsL(js, d) + rest) == Some((NormJoins(js, d), rest))
    ensures ClauseEnd(JoinsL(js, d) + rest)
  {
    if js == [] {
      assert JoinsL(js, d) + rest == rest;
    } else {
      var j, next := js[0], JoinsL(js[1..], d) + rest;
      JoinsRead(js[1..], rest, d);
      OneJoin(j, next, d);
      Cat(JoinL(j, d), JoinsL(js[1..], d), rest);
      NormJoinsCons(js, d);
    }
  }

  lemma {:induction false} NormJoinsCons(js: seq<Join>, d: Dialect)
    requires js != []
    ensures NormJoins(js, d) == [Join(js[0].kind, js[0].src, Norm(js[0].on, d))] + NormJoins(js[1..], d)
  {
  }

  lemma {:induction false} OneJoin(j: Join, next: seq<Lexeme>, d: Dialect)
    requires Wf(j.on) && ClauseEnd(next)
    ensures ClauseEnd(JoinL(j, d) + next)
    ensures ParseJoins(JoinL(j, d) + next) ==
            match ParseJoins(next)
            case None => None
            case Some((js, r)) => Some(([Join(j.kind, j.src, Norm(j.on, d))] + js, r))
  {
    var head, src, on := JoinKeywords(j.kind), SourceL(j.src), T(j.on, d) + next;
    var r1 := [K(KOn)] + on;
    JoinShape(head, src, T(j.on, d), next);
    JoinHeadReads(j.kind, src + r1);
    Behind(head, src + r1);
    SourceReads(j.src, r1);
    Behind([K(KOn)], on);
    ExpressionReadsBack(j.on, next, d);
  }

  lemma {:induction false} JoinShape(a: seq<Lexeme>, b: seq<Lexeme>, c: seq<Lexeme>, z: seq<Lexeme>)
    ensures a + b + [K(KOn)] + c + z == a + (b + ([K(KOn)] + (c + z)))
  {
  }

  // ---- the condition ----

  lemma {:induction false} TenantReads(t: Tenant, next: seq<Lexeme>, d: Dialect)
    requires NoTest(next)
    ensures ParseNot(TenantL(t, d) + next) == Some((TenantExpr(t, d), next))
  {
    var right := [Param(Shown(t.index, d))] + next;
    var y := [Op(Eq)] + right;
    var ts := [Name(t.alias), Dot, Name(t.col)] + y;
    assert TenantL(t, d) + next == ts;
    ColumnReads(t.alias, t.col, y);
    ParameterReads(Shown(t.index, d), next);
    ComparisonReads(ts, Col(t.alias, t.col), right, Par(Shown(t.index, d)), next);
  }

  lemma {:induction false} ColumnReads(a: string, c: string, y: seq<Lexeme>)
    requires !At(y, K(KOver))
    ensures ParsePost([Name(a), Dot, Name(c)] + y) == Some((Col(a, c), y))
  {
    var ts := [Name(a), Dot, Name(c)] + y;
    assert ts[3..] == y && At(ts[1..], Dot) && ts[2] == Name(c);
    assert ParsePrimary(ts) == Some((Col(a, c), y));
  }

  lemma {:induction false} ParameterReads(n: nat, y: seq<Lexeme>)
    requires !At(y, K(KOver))
    ensures ParsePost([Param(n)] + y) == Some((Par(n), y))
  {
    var ts := [Param(n)] + y;
    assert ts[1..] == y;
    assert ParsePrimary(ts) == Some((Par(n), y));
  }

  lemma {:induction false} ComparisonReads(ts: seq<Lexeme>, l: Expr, right: seq<Lexeme>, r: Expr, next: seq<Lexeme>)
    requires !At(ts, K(KNot)) && NoTest(next)
    requires ParsePost(ts) == Some((l, [Op(Eq)] + right)) && ParsePost(right) == Some((r, next))
    ensures ParseNot(ts) == Some((Bin(Eq, l, r), next))
  {
    var y := [Op(Eq)] + right;
    assert y[1..] == right;
    assert ParseProduct(ts) == ProductRest(l, y) == Some((l, y));
    assert ParseSum(ts) == SumRest(l, y) == Some((l, y));
    assert ParseProduct(right) == ProductRest(r, next) == Some((r, next));
    assert ParseSum(right) == SumRest(r, next) == Some((r, next));
    assert ParseNot(ts) == Test(l, y);
  }

  lemma {:induction false} TenantsHead(ts: seq<Tenant>, first: bool, rest: seq<Lexeme>, d: Dialect)
    requires ts != []
    ensures var l, more := TenantsL(ts, first, d) + rest, TenantL(ts[0], d) + (TenantsL(ts[1..], false, d) + rest);
            At(l, K(if first then KWhere else KAnd)) && l[1..] == more
  {
    var k, a, b := [K(if first then KWhere else KAnd)], TenantL(ts[0], d), TenantsL(ts[1..], false, d);
    Cat(k + a, b, rest);
    Cat(k, a, b + rest);
    Behind(k, a + (b + rest));
  }

  /** The tenant predicates join the conjunction one by one. */
  lemma {:induction false} TenantsRead(acc: seq<Expr>, ts: seq<Tenant>, rest: seq<Lexeme>, d: Dialect)
    requires acc != [] && NoOr(rest)
    ensures var l := TenantsL(ts, false, d) + rest;
            && NoTest(l) && !At(l, K(KOr))
            && AndRest(acc, l) == Some((Conjunction(acc + TenantExprs(ts, d)).value, rest))
    decreases |ts|
  {
    var l := TenantsL(ts, false, d) + rest;
    if ts == [] {
      assert l == rest;
      assert acc + TenantExprs(ts, d) == acc;
    } else {
      var next, e := TenantsL(ts[1..], false, d) + rest, TenantExpr(ts[0], d);
      TenantsHead(ts, false, rest, d);
      TenantsRead(acc + [e], ts[1..], rest, d);
      TenantReads(ts[0], next, d);
      AndStep(acc, e, l, next);
      OneMore(acc, ts, d);
    }
  }

  lemma {:induction false} OneMore(acc: seq<Expr>, ts: seq<Tenant>, d: Dialect)
    requires ts != []
    ensures acc + [TenantExpr(ts[0], d)] + TenantExprs(ts[1..], d) == acc + TenantExprs(ts, d)
  {
    assert TenantExprs(ts, d) == [TenantExpr(ts[0], d)] + TenantExprs(ts[1..], d);
  }

  lemma {:induction false} AndThenOr(ts: seq<Lexeme>, first: Expr, next: seq<Lexeme>, e: Expr, rest: seq<Lexeme>)
    requires ParseNot(ts) == Some((first, next)) && AndRest([first], next) == Some((e, rest)) && NoOr(rest)
    ensures ParseOr(ts) == Some((e, rest))
  {
    assert ParseAnd(ts) == Some((e, rest));
    assert ParseOr(ts) == OrRest([e], rest);
  }

  /** The text after WHERE is the conjunction of the user's condition and the tenant predicates. */
  lemma {:induction false} WhereReads(q: Stmt, rest: seq<Lexeme>, d: Dialect)
    requires WfStmt(q) && NoOr(rest) && !At(rest, K(KWhere))
    ensures ParseWhere(CondL(q.cond, d) + (TenantsL(q.tenants, q.cond.None?, d) + rest))
            == Some((Conjunction(Conjuncts(q, d)), rest))
  {
    if q.cond.Some? {
      UserWhereReads(q, rest, d);
    } else {
      assert CondL(q.cond, d) + (TenantsL(q.tenants, true, d) + rest) == TenantsL(q.tenants, true, d) + rest;
      TenantWhereReads(q.tenants, rest, d);
      assert Conjuncts(q, d) == TenantExprs(q.tenants, d);
    }
  }

  lemma {:induction false} UserWhereReads(q: Stmt, rest: seq<Lexeme>, d: Dialect)
    requires WfStmt(q) && NoOr(rest) && q.cond.Some?
    ensures ParseWhere(CondL(q.cond, d) + (TenantsL(q.tenants, false, d) + rest))
            == Some((Conjunction(Conjuncts(q, d)), rest))
  {
    var c, next := q.cond.value, TenantsL(q.tenants, false, d) + rest;
    Cat([K(KWhere)], T(c, d), next);
    Behind([K(KWhere)], T(c, d) + next);
    TenantsRead([Norm(c, d)], q.tenants, rest, d);
    Operand(c, next, d);
    AndThenOr(T(c, d) + next, Norm(c, d), next, Conjunction(Conjuncts(q, d)).value, rest);
  }

  lemma {:induction false} TenantWhereReads(ts: seq<Tenant>, rest: seq<Lexeme>, d: Dialect)
    requires NoOr(rest) && !At(rest, K(KWhere))
    ensures ParseWhere(TenantsL(ts, true, d) + rest) == Some((Conjunction(TenantExprs(ts, d)), rest))
  {
    if ts == [] {
      assert TenantsL(ts, true, d) + rest == rest;
    } else {
      var next := TenantsL(ts[1..], false, d) + rest;
      TenantsHead(ts, true, rest, d);
      TenantsRead([TenantExpr(ts[0], d)], ts[1..], rest, d);
      TenantReads(ts[0], next, d);
      TenantExprsCons(ts, d);
      AndThenOr(TenantL(ts[0], d) + next, TenantExpr(ts[0], d), next, Conjunction(TenantExprs(ts, d)).value, rest);
    }
  }

  lemma {:induction false} TenantExprsCons(ts: seq<Tenant>, d: Dialect)
    requires ts != []
    ensures [TenantExpr(ts[0], d)] + TenantExprs(ts[1..], d) == TenantExprs(ts, d)
  {
  }

  // ---- the clauses after it ----

  function GroupMeant(q: Stmt, d: Dialect): Option<seq<Expr>> {
    if q.group.Some? then Some(NormAll(q.group.value, d)) else None
  }

  function OrderMeant(q: Stmt, d: Dialect): Option<(Expr, bool)> {
    if q.order.Some? then Some((Norm(q.order.value.0, d), q.order.value.1)) else None
  }

  lemma {:induction false} NumberReads(n: nat, rest: seq<Lexeme>)
    ensures ParseNumber([Word(Dec(n))] + rest) == Some(n)
  {
  }

  lemma {:induction false} LimitReads(limit: Option<nat>, rest: seq<Lexeme>)
    requires End(rest)
    ensures ParseLimit(LimitL(limit) + rest) == Some((limit, rest))
    ensures End(LimitL(limit) + rest) || At(LimitL(limit) + rest, K(KLimit))
  {
    if limit.Some? {
      NumberReads(limit.value, rest);
      var w := [Word(Dec(limit.value))];
      Cat([K(KLimit)], w, rest);
      assert LimitL(limit) == [K(KLimit)] + w;
      Behind([K(KLimit)], w + rest);
      Behind(LimitL(limit), rest);
    } else {
      assert LimitL(limit) + rest == rest;
    }
  }

  lemma {:induction false} OrderReads(q: Stmt, rest: seq<Lexeme>, d: Dialect)
    requires WfStmt(q) && (End(rest) || At(rest, K(KLimit)))
    ensures var l := OrderL(q.order, d) + rest;
            ParseOrder(l) == Some((OrderMeant(q, d), rest)) && (End(l) || At(l, K(KOrder)) || At(l, K(KLimit)))
  {
    if q.order.Some? {
      var head, e, dir := [K(KOrder), K(KBy)], T(q.order.value.0, d), [K(if q.order.value.1 then KDesc else KAsc)];
      Cat(head + e, dir, rest);
      Cat(head, e, dir + rest);
      Behind(head, e + (dir + rest));
      Behind(dir, rest);
      ExpressionReadsBack(q.order.value.0, dir + rest, d);
    } else {
      assert OrderL(q.order, d) + rest == rest;
    }
  }

  /** A group-by clause without expressions is the one clause that no database can read. */
  lemma {:induction false} GroupReads(q: Stmt, rest: seq<Lexeme>, d: Dialect)
    requires WfStmt(q) && (End(rest) || At(rest, K(KOrder)) || At(rest, K(KLimit)))
    ensures var l := GroupL(q.group, d) + rest;
            && ParseGroup(l) == (if q.group == Some([]) then None else Some((GroupMeant(q, d), rest)))
            && ClauseEnd(l) && !At(l, K(KWhere)) && JoinHead(l) == None
  {
    if q.group.Some? {
      var list := TSep(q.group.value, Comma, d) + rest;
      Cat([K(KGroup), K(KBy)], TSep(q.group.value, Comma, d), rest);
      GroupStarts(list);
      if q.group.value == [] {
        assert list == rest;
        NoExpression(rest);
      } else {
        WholeList(q.group.value, rest, d);
      }
    } else {
      assert GroupL(q.group, d) + rest == rest;
    }
  }

  lemma {:induction false} GroupStarts(list: seq<Lexeme>)
    ensures var l := [K(KGroup), K(KBy)] + list;
            && ParseGroup(l) == (match ParseList(list) case None => None case Some((es, rest)) => Some((Some(es), rest)))
            && ClauseEnd(l) && !At(l, K(KWhere)) && JoinHead(l) == None
  {
    var l := [K(KGroup), K(KBy)] + list;
    Behind([K(KGroup), K(KBy)], list);
    assert l[0] == K(KGroup);
  }

  /** No expression starts with a clause keyword or a closing bracket. */
  lemma {:induction false} NoExpression(ts: seq<Lexeme>)
    requires End(ts) || At(ts, K(KOrder)) || At(ts, K(KLimit))
    ensures ParseList(ts) == None
  {
    assert ParsePrimary(ts) == None;
    assert ParsePost(ts) == None;
    assert ParseProduct(ts) == None;
    assert ParseSum(ts) == None;
    assert ParseNot(ts) == None;
    assert ParseAnd(ts) == None;
    assert ParseOr(ts) == None;
  }

  // ---- the whole statement ----

  /** Everything after the joins, and after the condition, with what follows the statement. */
  function AfterCond(q: Stmt, rest: seq<Lexeme>, d: Dialect): seq<Lexeme>
    requires WfStmt(q)
  {
    GroupL(q.group, d) + (OrderL(q.order, d) + (LimitL(q.limit) + rest))
  }

  function AfterJoins(q: Stmt, rest: seq<Lexeme>, d: Dialect): seq<Lexeme>
    requires WfStmt(q)
  {
    CondL(q.cond, d) + (TenantsL(q.tenants, q.cond.None?, d) + AfterCond(q, rest, d))
  }

  lemma {:induction false} TailReads(q: Stmt, rest: seq<Lexeme>, d: Dialect)
    requires WfStmt(q) && End(rest)
    ensures ParseTail(AfterJoins(q, rest, d)) ==
            if q.group == Some([]) then None
            else Some(((Conjunction(Conjuncts(q, d)), GroupMeant(q, d), OrderMeant(q, d), q.limit), rest))
  {
    var r3 := LimitL(q.limit) + rest;
    var r2 := OrderL(q.order, d) + r3;
    var r1 := AfterCond(q, rest, d);
    LimitReads(q.limit, rest);
    OrderReads(q, r3, d);
    GroupReads(q, r2, d);
    WhereReads(q, r1, d);
    if q.group != Some([]) {
      TailParts(AfterJoins(q, rest, d), r1, r2, r3, rest, Conjunction(Conjuncts(q, d)), GroupMeant(q, d), OrderMeant(q, d), q.limit);
    } else {
      NoTail(AfterJoins(q, rest, d), r1, Conjunction(Conjuncts(q, d)));
    }
  }

  lemma {:induction false} TailParts(ts: seq<Lexeme>, r1: seq<Lexeme>, r2: seq<Lexeme>, r3: seq<Lexeme>, rest: seq<Lexeme>,
                                     cond: Option<Expr>, group: Option<seq<Expr>>, order: Option<(Expr, bool)>, limit: Option<nat>)
    requires ParseWhere(ts) == Some((cond, r1)) && ParseGroup(r1) == Some((group, r2))
    requires ParseOrder(r2) == Some((order, r3)) && ParseLimit(r3) == Some((limit, rest))
    ensures ParseTail(ts) == Some(((cond, group, order, limit), rest))
  {
  }

  lemma {:induction false} NoTail(ts: seq<Lexeme>, r1: seq<Lexeme>, cond: Option<Expr>)
    requires ParseWhere(ts) == Some((cond, r1)) && ParseGroup(r1) == None
    ensures ParseTail(ts) == None
  {
  }

  lemma {:induction false} TailStarts(q: Stmt, rest: seq<Lexeme>, d: Dialect)
    requires WfStmt(q) && End(rest)
    ensures ClauseEnd(AfterJoins(q, rest, d)) && JoinHead(AfterJoins(q, rest, d)) == None
  {
    LimitReads(q.limit, rest);
    OrderReads(q, LimitL(q.limit) + rest, d);
    GroupReads(q, OrderL(q.order, d) + (LimitL(q.limit) + rest), d);
    AfterJoinsStart(q, rest, d);
  }

  lemma {:induction false} AfterJoinsStart(q: Stmt, rest: seq<Lexeme>, d: Dialect)
    requires WfStmt(q) && ClauseEnd(AfterCond(q, rest, d)) && JoinHead(AfterCond(q, rest, d)) == None
    ensures ClauseEnd(AfterJoins(q, rest, d)) && JoinHead(AfterJoins(q, rest, d)) == None
  {
    var l, c := AfterJoins(q, rest, d), AfterCond(q, rest, d);
    if q.cond.Some? {
      assert l[0] == K(KWhere);
    } else if q.tenants != [] {
      TenantsHead(q.tenants, true, c, d);
      assert l == TenantsL(q.tenants, true, d) + c;
      assert l[0] == K(KWhere);
    } else {
      assert l == c;
    }
  }

  lemma {:induction false} BodyReads(q: Stmt, rest: seq<Lexeme>, d: Dialect)
    requires WfStmt(q) && ClauseEnd(rest) && JoinHead(rest) == None
    ensures ParseBody(FieldsL(q.fields, d) + ([K(KFrom)] + (SourceL(q.from) + (JoinsL(q.joins, d) + rest))))
            == Some((NormFields(q.fields, d), q.from, NormJoins(q.joins, d), rest))
  {
    var joins := JoinsL(q.joins, d) + rest;
    var from := [K(KFrom)] + (SourceL(q.from) + joins);
    JoinsRead(q.joins, rest, d);
    SourceReads(q.from, joins);
    Behind([K(KFrom)], SourceL(q.from) + joins);
    FieldsRead(q.fields, from, d);
  }

  lemma {:induction false} TopReads(top: Option<nat>, rest: seq<Lexeme>)
    requires !At(rest, K(KTop))
    ensures ParseTop(TopL(top) + rest) == Some((top, rest))
  {
    if top.Some? {
      NumberReads(top.value, rest);
      assert (TopL(top) + rest)[1..] == [Word(Dec(top.value))] + rest;
      Behind(TopL(top), rest);
    } else {
      assert TopL(top) + rest == rest;
    }
  }

  lemma {:induction false} StmtShape(q: Stmt, rest: seq<Lexeme>, d: Dialect)
    requires WfStmt(q)
    ensures StmtL(q, d) + rest ==
            [K(KSelect)] + (TopL(q.top) + (FieldsL(q.fields, d)
              + ([K(KFrom)] + (SourceL(q.from) + (JoinsL(q.joins, d) + AfterJoins(q, rest, d))))))
  {
    var a := [K(KSelect)] + TopL(q.top) + FieldsL(q.fields, d) + [K(KFrom)] + SourceL(q.from) + JoinsL(q.joins, d);
    var c, t, g, o, l := CondL(q.cond, d), TenantsL(q.tenants, q.cond.None?, d), GroupL(q.group, d), OrderL(q.order, d), LimitL(q.limit);
    Cat(a + c + t + g + o, l, rest);
    Five(a, c, t, g, o, l + rest);
    Six([K(KSelect)], TopL(q.top), FieldsL(q.fields, d), [K(KFrom)], SourceL(q.from), JoinsL(q.joins, d), AfterJoins(q, rest, d));
  }

  lemma {:induction false} Five(a: seq<Lexeme>, b: seq<Lexeme>, c: seq<Lexeme>, e: seq<Lexeme>, f: seq<Lexeme>, g: seq<Lexeme>)
    ensures a + b + c + e + f + g == a + (b + (c + (e + (f + g))))
  {
    Cat(a + b + c + e, f, g);
    Cat(a + b + c, e, f + g);
    Cat(a + b, c, e + (f + g));
    Cat(a, b, c + (e + (f + g)));
  }

  lemma {:induction false} Six(a: seq<Lexeme>, b: seq<Lexeme>, c: seq<Lexeme>, e: seq<Lexeme>, f: seq<Lexeme>, g: seq<Lexeme>, h: seq<Lexeme>)
    ensures a + b + c + e + f + g + h == a + (b + (c + (e + (f + (g + h)))))
  {
    Five(a, b, c, e, f, g);
    Cat(a, b + (c + (e + (f + g))), h);
    Cat(b, c + (e + (f + g)), h);
    Cat(c, e + (f + g), h);
    Cat(e, f + g, h);
    Cat(f, g, h);
  }

  /**
    The parser finds the statement that was meant, and what follows it. Only a group-by clause
    without expressions spoils it: its text is no statement at all.
   */
  lemma {:induction false} SelectReads(q: Stmt, rest: seq<Lexeme>, d: Dialect)
    requires WfStmt(q) && End(rest)
    ensures ParseSelect(StmtL(q, d) + rest) == if q.group == Some([]) then None else Some((Meant(q, d), rest))
  {
    StmtShape(q, rest, d);
    var joins := JoinsL(q.joins, d) + AfterJoins(q, rest, d);
    var body := FieldsL(q.fields, d) + ([K(KFrom)] + (SourceL(q.from) + joins));
    Behind([K(KSelect)], TopL(q.top) + body);
    FirstOfFields(q.fields, [K(KFrom)] + (SourceL(q.from) + joins), d);
    TopReads(q.top, body);
    TailReads(q, rest, d);
    TailStarts(q, rest, d);
    BodyReads(q, AfterJoins(q, rest, d), d);
    QuerySteps(StmtL(q, d) + rest, q.top, body, AfterJoins(q, rest, d));
  }

  lemma {:induction false} LexemesRead(q: Stmt, d: Dialect)
    requires WfStmt(q)
    ensures ParseQuery(StmtL(q, d)) == if q.group == Some([]) then None else Some(Meant(q, d))
  {
    SelectReads(q, [], d);
    assert StmtL(q, d) + [] == StmtL(q, d);
  }

  lemma {:induction false} QuerySteps(ts: seq<Lexeme>, top: Option<nat>, body: seq<Lexeme>, tail: seq<Lexeme>)
    requires At(ts, K(KSelect)) && ParseTop(ts[1..]) == Some((top, body))
    requires ParseBody(body).Some? && ParseBody(body).value.3 == tail
    ensures var (fields, from, joins, _) := ParseBody(body).value;
            ParseSelect(ts) ==
            match ParseTail(tail)
            case None => None
            case Some(((cond, group, order, limit), rest)) => Some((Query(top, fields, from, joins, cond, group, order, limit), rest))
  {
  }

  lemma {:induction false} FirstOfFields(fs: seq<(Expr, string)>, rest: seq<Lexeme>, d: Dialect)
    requires fs != [] && forall f :: f in fs ==> Wf(f.0)
    ensures !At(FieldsL(fs, d) + rest, K(KTop))
  {
    FirstLexeme(fs[0].0, d);
    assert FieldsL(fs, d)[0] == T(fs[0].0, d)[0];
  }
}
