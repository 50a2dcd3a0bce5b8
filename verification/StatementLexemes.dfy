/** The lexemes of each clause of an emitted statement. */
module StatementLexemes {
  import opened Wrappers
  import opened Decimal
  import opened Sql
  import opened SqlExpr
  import opened SqlRead
  import opened ReadBack
  import opened Lexemes
  import opened Statement

  function TopL(top: Option<nat>): seq<Lexeme> {
    if top.Some? then [K(KTop), Word(Dec(top.value))] else []
  }

  function FieldL(f: (Expr, string), d: Dialect): seq<Lexeme>
    requires Wf(f.0)
  {
    T(f.0, d) + [K(KAs), Name(f.1)]
  }

  function FieldsL(fs: seq<(Expr, string)>, d: Dialect): seq<Lexeme>
    requires forall f :: f in fs ==> Wf(f.0)
  {
    if fs == [] then []
    else if |fs| == 1 then FieldL(fs[0], d)
    else FieldL(fs[0], d) + [Comma] + FieldsL(fs[1..], d)
  }

  function SourceL(s: Source): seq<Lexeme> {
    [Name(s.schema), Dot, Name(s.table), K(KAs), Name(s.alias)]
  }

  function JoinKeywords(k: JoinKind): seq<Lexeme> {
    match k
    case Inner => [K(KInner), K(KJoin)]
    case Left => [K(KLeft), K(KJoin)]
    case Right => [K(KRight), K(KJoin)]
    case Full => [K(KFull), K(KOuter), K(KJoin)]
  }

  function JoinL(j: Join, d: Dialect): seq<Lexeme>
    requires Wf(j.on)
  {
    JoinKeywords(j.kind) + SourceL(j.src) + [K(KOn)] + T(j.on, d)
  }

  function JoinsL(js: seq<Join>, d: Dialect): seq<Lexeme>
    requires forall j :: j in js ==> Wf(j.on)
  {
    if js == [] then [] else JoinL(js[0], d) + JoinsL(js[1..], d)
  }

  function CondL(cond: Option<Expr>, d: Dialect): seq<Lexeme>
    requires cond.Some? ==> Wf(cond.value)
  {
    if cond.Some? then [K(KWhere)] + T(cond.value, d) else []
  }

  function TenantL(t: Tenant, d: Dialect): seq<Lexeme> {
    [Name(t.alias), Dot, Name(t.col), Op(Eq), Param(Shown(t.index, d))]
  }

  function TenantsL(ts: seq<Tenant>, first: bool, d: Dialect): seq<Lexeme> {
    if ts == [] then []
    else [K(if first then KWhere else KAnd)] + TenantL(ts[0], d) + TenantsL(ts[1..], false, d)
  }

  function GroupL(g: Option<seq<Expr>>, d: Dialect): seq<Lexeme>
    requires g.Some? ==> forall e :: e in g.value ==> Wf(e)
  {
    if g.Some? then [K(KGroup), K(KBy)] + TSep(g.value, Comma, d) else []
  }

  function OrderL(o: Option<(Expr, bool)>, d: Dialect): seq<Lexeme>
    requires o.Some? ==> Wf(o.value.0)
  {
    if o.Some? then [K(KOrder), K(KBy)] + T(o.value.0, d) + [K(if o.value.1 then KDesc else KAsc)] else []
  }

  function LimitL(l: Option<nat>): seq<Lexeme> {
    if l.Some? then [K(KLimit), Word(Dec(l.value))] else []
  }

  function StmtL(q: Stmt, d: Dialect): seq<Lexeme>
    requires WfStmt(q)
  {
    [K(KSelect)] + TopL(q.top) + FieldsL(q.fields, d) + [K(KFrom)] + SourceL(q.from) + JoinsL(q.joins, d)
    + CondL(q.cond, d) + TenantsL(q.tenants, q.cond.None?, d)
    + GroupL(q.group, d) + OrderL(q.order, d) + LimitL(q.limit)
  }

  // ---- words ----

  lemma {:induction false} OneWord(w: string, k: Keyword, d: Dialect)
    requires KeywordOf(w) == Some(k)
    ensures Lx([Sp, W(w), Sp], d) == [K(k)] && Lx([W(w), Sp], d) == [K(k)]
  {
    Words(w, w, d);
  }

  lemma {:induction false} TwoWords(v: string, j: Keyword, w: string, k: Keyword, d: Dialect)
    requires KeywordOf(v) == Some(j) && KeywordOf(w) == Some(k)
    ensures Lx([Sp, W(v), Sp, W(w), Sp], d) == [K(j), K(k)] && Lx([W(v), Sp, W(w), Sp], d) == [K(j), K(k)]
  {
    Words(v, w, d);
  }

  lemma {:induction false} AsWord(d: Dialect)
    ensures Lx(AS, d) == [K(KAs)]
  {
    OneWord("AS", KAs, d);
  }

  lemma {:induction false} FromWord(d: Dialect)
    ensures Lx(FROM, d) == [K(KFrom)]
  {
    OneWord("FROM", KFrom, d);
  }

  lemma {:induction false} OnWord(d: Dialect)
    ensures Lx(ON, d) == [K(KOn)]
  {
    OneWord("ON", KOn, d);
  }

  lemma {:induction false} WhereWord(d: Dialect)
    ensures Lx(WHERE, d) == [K(KWhere)]
  {
    OneWord("WHERE", KWhere, d);
  }

  lemma {:induction false} LimitWord(d: Dialect)
    ensures Lx(LIMIT, d) == [K(KLimit)]
  {
    OneWord("LIMIT", KLimit, d);
  }

  lemma {:induction false} GroupWords(d: Dialect)
    ensures Lx(GROUP, d) == [K(KGroup), K(KBy)]
  {
    TwoWords("GROUP", KGroup, "BY", KBy, d);
  }

  lemma {:induction false} HeadWords(d: Dialect)
    ensures Lx([W("SELECT"), Sp], d) == [K(KSelect)] && Lx([W("TOP"), Sp], d) == [K(KTop)]
  {
    OneWord("SELECT", KSelect, d);
    OneWord("TOP", KTop, d);
  }

  lemma {:induction false} InnerWords(d: Dialect)
    ensures Lx(JoinWords(Inner), d) == JoinKeywords(Inner)
  {
    TwoWords("INNER", KInner, "JOIN", KJoin, d);
  }

  lemma {:induction false} LeftWords(d: Dialect)
    ensures Lx(JoinWords(Left), d) == JoinKeywords(Left)
  {
    TwoWords("LEFT", KLeft, "JOIN", KJoin, d);
  }

  lemma {:induction false} RightWords(d: Dialect)
    ensures Lx(JoinWords(Right), d) == JoinKeywords(Right)
  {
    TwoWords("RIGHT", KRight, "JOIN", KJoin, d);
  }

  lemma {:induction false} FullWords(d: Dialect)
    ensures Lx(JoinWords(Full), d) == JoinKeywords(Full)
  {
    OneWord("FULL", KFull, d);
    OuterWords(d);
    LxAppend([Sp, W("FULL"), Sp], [W("OUTER"), Sp, W("JOIN"), Sp], d);
    assert [K(KFull)] + [K(KOuter), K(KJoin)] == JoinKeywords(Full);
  }

  lemma {:induction false} OuterWords(d: Dialect)
    ensures Lx([W("OUTER"), Sp, W("JOIN"), Sp], d) == [K(KOuter), K(KJoin)]
  {
    TwoWords("OUTER", KOuter, "JOIN", KJoin, d);
  }

  lemma {:induction false} JoinWordsL(k: JoinKind, d: Dialect)
    ensures Lx(JoinWords(k), d) == JoinKeywords(k)
  {
    match k
    case Inner => InnerWords(d);
    case Left => LeftWords(d);
    case Right => RightWords(d);
    case Full => FullWords(d);
  }

  lemma {:induction false} NumberL(n: nat, d: Dialect)
    ensures Lx([W(Dec(n))], d) == [Word(Dec(n))] && Lx([W(Dec(n)), Sp], d) == [Word(Dec(n))]
  {
    var w := Dec(n);
    assert IsDigit(w[0]) && KeywordOf(w) == None;
    Words(w, "", d);
  }

  lemma {:induction false} EqL(d: Dialect)
    ensures Lx(EQ, d) == [Op(Eq)]
  {
    InfixLexemes(Eq, d);
    assert EQ == Infix(Eq);
  }

  // ---- clauses ----

  lemma {:induction false} Append3(a: seq<Piece>, b: seq<Piece>, c: seq<Piece>, d: Dialect)
    ensures Lx(a + b + c, d) == Lx(a, d) + Lx(b, d) + Lx(c, d)
  {
    LxAppend(a, b, d);
    LxAppend(a + b, c, d);
  }

  lemma {:induction false} TopIs(top: Option<nat>, d: Dialect)
    ensures Lx(SelectHead(top), d) == [K(KSelect)] + TopL(top)
  {
    HeadWords(d);
    OneLexeme(Sp, d);
    if top.Some? {
      NumberL(top.value, d);
      LxAppend([W("TOP"), Sp], [W(Dec(top.value)), Sp], d);
      LxAppend([W("SELECT"), Sp], [W("TOP"), Sp] + [W(Dec(top.value)), Sp], d);
    } else {
      LxAppend([W("SELECT"), Sp], [], d);
    }
  }

  lemma {:induction false} FieldIs(f: (Expr, string), d: Dialect)
    requires Wf(f.0)
    ensures Lx(FieldPieces(f), d) == FieldL(f, d)
  {
    ExprLexemes(f.0, d);
    AsWord(d);
    OneLexeme(Id(f.1), d);
    Append3(Pieces(f.0), AS, [Id(f.1)], d);
  }

  lemma {:induction false} FieldsAre(fs: seq<(Expr, string)>, d: Dialect)
    requires forall f :: f in fs ==> Wf(f.0)
    ensures Lx(FieldsPieces(fs), d) == FieldsL(fs, d)
  {
    if fs != [] {
      FieldIs(fs[0], d);
      if |fs| > 1 {
        FieldsAre(fs[1..], d);
        SeparatorLexemes(d);
        Append3(FieldPieces(fs[0]), COMMA, FieldsPieces(fs[1..]), d);
      }
    }
  }

  lemma {:induction false} SourceIs(s: Source, d: Dialect)
    ensures Lx(SourcePieces(s), d) == SourceL(s)
  {
    ColText(s.schema, s.table, d);
    AsWord(d);
    OneLexeme(Id(s.alias), d);
    ThreeParts([Id(s.schema), S("."), Id(s.table)], AS, [Id(s.alias)], [Name(s.schema), Dot, Name(s.table)], [K(KAs)], [Name(s.alias)], d);
  }

  lemma {:induction false} ThreeParts(a: seq<Piece>, b: seq<Piece>, c: seq<Piece>, x: seq<Lexeme>, y: seq<Lexeme>, z: seq<Lexeme>, d: Dialect)
    requires Lx(a, d) == x && Lx(b, d) == y && Lx(c, d) == z
    ensures Lx(a + b + c, d) == x + y + z
  {
    Append3(a, b, c, d);
  }

  lemma {:induction false} JoinIs(j: Join, d: Dialect)
    requires Wf(j.on)
    ensures Lx(JoinPieces(j), d) == JoinL(j, d)
  {
    JoinWordsL(j.kind, d);
    SourceIs(j.src, d);
    ExprLexemes(j.on, d);
    OnWord(d);
    Append3(JoinWords(j.kind), SourcePieces(j.src), ON, d);
    LxAppend(JoinWords(j.kind) + SourcePieces(j.src) + ON, Pieces(j.on), d);
  }

  lemma {:induction false} JoinsAre(js: seq<Join>, d: Dialect)
    requires forall j :: j in js ==> Wf(j.on)
    ensures Lx(JoinsPieces(js), d) == JoinsL(js, d)
  {
    if js != [] {
      JoinIs(js[0], d);
      JoinsAre(js[1..], d);
      LxAppend(JoinPieces(js[0]), JoinsPieces(js[1..]), d);
    }
  }

  lemma {:induction false} CondIs(cond: Option<Expr>, d: Dialect)
    requires cond.Some? ==> Wf(cond.value)
    ensures Lx(CondPieces(cond), d) == CondL(cond, d)
  {
    if cond.Some? {
      WhereWord(d);
      ExprLexemes(cond.value, d);
      LxAppend(WHERE, Pieces(cond.value), d);
    }
  }

  lemma {:induction false} TenantIs(t: Tenant, d: Dialect)
    ensures Lx(TenantPieces(t), d) == TenantL(t, d)
  {
    ColText(t.alias, t.col, d);
    EqL(d);
    OneLexeme(Ph(t.index), d);
    Append3([Id(t.alias), S("."), Id(t.col)], EQ, [Ph(t.index)], d);
    Glued(Name(t.alias), Name(t.col), Param(Shown(t.index, d)));
  }

  lemma {:induction false} Glued(a: Lexeme, b: Lexeme, c: Lexeme)
    ensures [a, Dot, b] + [Op(Eq)] + [c] == [a, Dot, b, Op(Eq), c]
  {
  }

  lemma {:induction false} TenantsAre(ts: seq<Tenant>, first: bool, d: Dialect)
    ensures Lx(TenantsPieces(ts, first), d) == TenantsL(ts, first, d)
  {
    if ts != [] {
      var lead := if first then WHERE else AND;
      WhereWord(d);
      SeparatorLexemes(d);
      TenantIs(ts[0], d);
      TenantsAre(ts[1..], false, d);
      Append3(lead, TenantPieces(ts[0]), TenantsPieces(ts[1..], false), d);
    }
  }

  lemma {:induction false} GroupIs(g: Option<seq<Expr>>, d: Dialect)
    requires g.Some? ==> forall e :: e in g.value ==> Wf(e)
    ensures Lx(GroupPieces(g), d) == GroupL(g, d)
  {
    if g.Some? {
      GroupWords(d);
      LxAppend(GROUP, PiecesSep(g.value, COMMA), d);
      if g.value != [] {
        SepLexemes(g.value, COMMA, Comma, d);
      }
    }
  }

  lemma {:induction false} OrderIs(o: Option<(Expr, bool)>, d: Dialect)
    requires o.Some? ==> Wf(o.value.0)
    ensures Lx(OrderPieces(o), d) == OrderL(o, d)
  {
    if o.Some? {
      OrderLexemes(d);
      DirectionLexemes(o.value.1, d);
      ExprLexemes(o.value.0, d);
      Append3(ORDER, Pieces(o.value.0), Direction(o.value.1), d);
    }
  }

  lemma {:induction false} LimitIs(l: Option<nat>, d: Dialect)
    ensures Lx(LimitPieces(l), d) == LimitL(l)
  {
    if l.Some? {
      LimitWord(d);
      NumberL(l.value, d);
      LxAppend(LIMIT, [W(Dec(l.value))], d);
      assert [K(KLimit)] + [Word(Dec(l.value))] == LimitL(l);
    }
  }

  lemma {:induction false} StmtLexemes(q: Stmt, d: Dialect)
    requires WfStmt(q)
    ensures Lx(StmtPieces(q), d) == StmtL(q, d)
  {
    FromWord(d);
    TopIs(q.top, d);
    FieldsAre(q.fields, d);
    SourceIs(q.from, d);
    JoinsAre(q.joins, d);
    CondIs(q.cond, d);
    TenantsAre(q.tenants, q.cond.None?, d);
    GroupIs(q.group, d);
    OrderIs(q.order, d);
    LimitIs(q.limit, d);
    var a := SelectHead(q.top) + FieldsPieces(q.fields) + FROM;
    Append3(SelectHead(q.top), FieldsPieces(q.fields), FROM, d);
    var b := a + SourcePieces(q.from) + JoinsPieces(q.joins);
    Append3(a, SourcePieces(q.from), JoinsPieces(q.joins), d);
    var c := b + CondPieces(q.cond) + TenantsPieces(q.tenants, q.cond.None?);
    Append3(b, CondPieces(q.cond), TenantsPieces(q.tenants, q.cond.None?), d);
    Append3(c, GroupPieces(q.group), OrderPieces(q.order), d);
    LxAppend(c + GroupPieces(q.group) + OrderPieces(q.order), LimitPieces(q.limit), d);
  }
}
