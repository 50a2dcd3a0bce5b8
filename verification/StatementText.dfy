/** The text of a statement never runs together, so it is read as the statement that was meant. */
module StatementText {
  import opened Wrappers
  import opened Decimal
  import opened Sql
  import opened SqlExpr
  import opened SqlRead
  import opened ReadBack
  import opened Lexemes
  import opened Statement
  import StatementLexemes
  import StatementRead

  /** Not cut off after an operator, so that a bracket may follow. */
  ghost predicate Complete(ps: seq<Piece>) {
    ps == [] || (ps[|ps| - 1].S? ==> ps[|ps| - 1].sym in PUNCT)
  }

  /** Pieces that may follow anything. */
  ghost predicate Clause(ps: seq<Piece>) {
    Good(ps) && Complete(ps) && (ps == [] || ps[0].Sp?)
  }

  lemma {:induction false} ThenClause(a: seq<Piece>, b: seq<Piece>)
    requires Good(a) && Complete(a) && Clause(b)
    ensures Good(a + b) && Complete(a + b) && (a == [] || (a + b)[0] == a[0])
  {
    GoodAppend(a, b);
  }

  lemma {:induction false} Clauses(a: seq<Piece>, b: seq<Piece>)
    requires Clause(a) && Clause(b)
    ensures Clause(a + b)
  {
    ThenClause(a, b);
  }

  lemma {:induction false} LeadUnit(g: seq<Piece>, u: seq<Piece>)
    requires Glue(g) && g[0].Sp? && Unit(u)
    ensures Clause(g + u)
  {
    GoodAppend(g, u);
  }

  lemma {:induction false} SpacedWordGlue(w: string)
    requires ValidPiece(W(w))
    ensures Glue([Sp, W(w), Sp]) && Good([W(w), Sp]) && Good([Sp, W(w)])
  {
  }

  lemma {:induction false} TwoWordGlue(v: string, w: string)
    requires ValidPiece(W(v)) && ValidPiece(W(w))
    ensures Glue([Sp, W(v), Sp, W(w), Sp]) && Good([W(v), Sp, W(w), Sp])
  {
  }

  lemma {:induction false} NumberWord(n: nat)
    ensures ValidPiece(W(Dec(n)))
  {
  }

  lemma {:induction false} LeadGlue()
    ensures Glue(AS) && Glue(FROM) && Glue(ON) && Glue(WHERE) && Glue(LIMIT)
  {
    SpacedWordGlue("AS");
    SpacedWordGlue("FROM");
    SpacedWordGlue("ON");
    SpacedWordGlue("WHERE");
    SpacedWordGlue("LIMIT");
  }

  lemma {:induction false} GroupGlue()
    ensures Glue(GROUP)
  {
    TwoWordGlue("GROUP", "BY");
  }

  lemma {:induction false} JoinGlue(k: JoinKind)
    ensures Glue(JoinWords(k)) && JoinWords(k)[0].Sp?
  {
    TwoWordGlue("INNER", "JOIN");
    TwoWordGlue("LEFT", "JOIN");
    TwoWordGlue("RIGHT", "JOIN");
    SpacedWordGlue("FULL");
    TwoWordGlue("OUTER", "JOIN");
    GoodAppend([Sp, W("FULL"), Sp], [W("OUTER"), Sp, W("JOIN"), Sp]);
  }

  lemma {:induction false} HeadGood(top: Option<nat>)
    ensures var h := SelectHead(top); Good(h) && h != [] && h[|h| - 1].Sp?
  {
    SpacedWordGlue("SELECT");
    SpacedWordGlue("TOP");
    if top.Some? {
      NumberWord(top.value);
      SpacedWordGlue(Dec(top.value));
      GoodAppend([W("TOP"), Sp], [W(Dec(top.value)), Sp]);
      GoodAppend([W("SELECT"), Sp], [W("TOP"), Sp] + [W(Dec(top.value)), Sp]);
    }
  }

  lemma {:induction false} FieldsUnit(fs: seq<(Expr, string)>)
    requires fs != [] && forall f :: f in fs ==> Wf(f.0) && Ident(f.1)
    ensures Unit(FieldsPieces(fs))
  {
    LeadGlue();
    Separators();
    ExprUnit(fs[0].0);
    UnitGlueUnit(Pieces(fs[0].0), AS, [Id(fs[0].1)]);
    if |fs| > 1 {
      FieldsUnit(fs[1..]);
      UnitGlueUnit(FieldPieces(fs[0]), COMMA, FieldsPieces(fs[1..]));
    }
  }

  lemma {:induction false} SourceUnit(s: Source)
    requires WfSource(s)
    ensures Unit(SourcePieces(s))
  {
    LeadGlue();
    ExprUnit(Col(s.schema, s.table));
    UnitGlueUnit([Id(s.schema), S("."), Id(s.table)], AS, [Id(s.alias)]);
  }

  lemma {:induction false} JoinsClause(js: seq<Join>)
    requires forall j :: j in js ==> WfSource(j.src) && Wf(j.on)
    ensures Clause(JoinsPieces(js))
  {
    if js != [] {
      var j := js[0];
      LeadGlue();
      JoinGlue(j.kind);
      SourceUnit(j.src);
      ExprUnit(j.on);
      UnitGlueUnit(SourcePieces(j.src), ON, Pieces(j.on));
      LeadUnit(JoinWords(j.kind), SourcePieces(j.src) + ON + Pieces(j.on));
      assert JoinPieces(j) == JoinWords(j.kind) + (SourcePieces(j.src) + ON + Pieces(j.on));
      JoinsClause(js[1..]);
      Clauses(JoinPieces(j), JoinsPieces(js[1..]));
    }
  }

  lemma {:induction false} CondClause(cond: Option<Expr>)
    requires cond.Some? ==> Wf(cond.value)
    ensures Clause(CondPieces(cond))
  {
    if cond.Some? {
      LeadGlue();
      ExprUnit(cond.value);
      LeadUnit(WHERE, Pieces(cond.value));
    }
  }

  lemma {:induction false} TenantUnit(t: Tenant)
    requires Ident(t.alias) && Ident(t.col)
    ensures Unit(TenantPieces(t))
  {
    ExprUnit(Col(t.alias, t.col));
    InfixGlue(Eq);
    assert EQ == Infix(Eq);
    UnitGlueUnit([Id(t.alias), S("."), Id(t.col)], EQ, [Ph(t.index)]);
  }

  lemma {:induction false} TenantsClause(ts: seq<Tenant>, first: bool)
    requires forall t :: t in ts ==> Ident(t.alias) && Ident(t.col)
    ensures Clause(TenantsPieces(ts, first))
  {
    if ts != [] {
      LeadGlue();
      Separators();
      TenantUnit(ts[0]);
      LeadUnit(if first then WHERE else AND, TenantPieces(ts[0]));
      TenantsClause(ts[1..], false);
      Clauses((if first then WHERE else AND) + TenantPieces(ts[0]), TenantsPieces(ts[1..], false));
    }
  }

  lemma {:induction false} GroupClause(g: Option<seq<Expr>>)
    requires g.Some? ==> forall e :: e in g.value ==> Wf(e)
    ensures Clause(GroupPieces(g))
  {
    if g.Some? {
      GroupGlue();
      Separators();
      if g.value == [] {
        assert GROUP + [] == GROUP;
      } else {
        UnitSep(g.value, COMMA);
        LeadUnit(GROUP, PiecesSep(g.value, COMMA));
      }
    }
  }

  lemma {:induction false} OrderClause(o: Option<(Expr, bool)>)
    requires o.Some? ==> Wf(o.value.0)
    ensures Clause(OrderPieces(o))
  {
    if o.Some? {
      OrderGlue();
      ExprUnit(o.value.0);
      LeadUnit(ORDER, Pieces(o.value.0));
      SpacedWordGlue("DESC");
      SpacedWordGlue("ASC");
      Clauses(ORDER + Pieces(o.value.0), Direction(o.value.1));
    }
  }

  lemma {:induction false} LimitClause(l: Option<nat>)
    ensures Clause(LimitPieces(l))
  {
    if l.Some? {
      LeadGlue();
      NumberWord(l.value);
      GoodAppend(LIMIT, [W(Dec(l.value))]);
    }
  }

  /** The pieces of a statement never run together. */
  lemma {:induction false} StmtGood(q: Stmt)
    requires WfStmt(q)
    ensures Good(StmtPieces(q)) && Complete(StmtPieces(q))
  {
    HeadGood(q.top);
    FieldsUnit(q.fields);
    GoodAppend(SelectHead(q.top), FieldsPieces(q.fields));
    var a := SelectHead(q.top) + FieldsPieces(q.fields);
    LeadGlue();
    SourceUnit(q.from);
    ThenClause(a, FROM);
    GoodAppend(a + FROM, SourcePieces(q.from));
    JoinsClause(q.joins);
    ThenClause(a + FROM + SourcePieces(q.from), JoinsPieces(q.joins));
    var b := a + FROM + SourcePieces(q.from) + JoinsPieces(q.joins);
    CondClause(q.cond);
    ThenClause(b, CondPieces(q.cond));
    TenantsClause(q.tenants, q.cond.None?);
    var c := b + CondPieces(q.cond) + TenantsPieces(q.tenants, q.cond.None?);
    ThenClause(b + CondPieces(q.cond), TenantsPieces(q.tenants, q.cond.None?));
    GroupClause(q.group);
    OrderClause(q.order);
    LimitClause(q.limit);
    ThenClause(c, GroupPieces(q.group));
    ThenClause(c + GroupPieces(q.group), OrderPieces(q.order));
    ThenClause(c + GroupPieces(q.group) + OrderPieces(q.order), LimitPieces(q.limit));
  }

  function Text(q: Stmt, d: Dialect): string {
    Spell(StmtPieces(q), d)
  }

  /**
    The text the compiler emits is read by the database as the statement that was meant, with
    the tenant predicates as conjuncts beside the whole of the user's condition. The one text
    that is no statement comes from a group-by clause without expressions.
   */
  lemma {:induction false} EmittedTextReadsBack(q: Stmt, d: Dialect)
    requires WfStmt(q)
    ensures QueryOf(Text(q, d), d) == if q.group == Some([]) then None else Some(Meant(q, d))
  {
    StmtGood(q);
    ReadPieces(StmtPieces(q), d);
    StatementLexemes.StmtLexemes(q, d);
    StatementRead.LexemesRead(q, d);
  }
}
