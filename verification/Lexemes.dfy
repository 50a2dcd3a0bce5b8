/** The lexemes the database sees in the text of an expression are the ones the parser expects. */
module Lexemes {
  import opened Wrappers
  import opened Sql
  import opened SqlExpr
  import opened SqlRead
  import opened ReadBack

  /** Pieces as the parser sees them; spaces are not seen. */
  function LxOne(p: Piece, d: Dialect): seq<Lexeme> {
    match p
    case Sp => []
    case W(w) => [Classify(TWord(w))]
    case S(s) => [Classify(TSym(s))]
    case Id(x) => [Name(x)]
    case Ph(n) => [Param(Shown(n, d))]
  }

  function Lx(ps: seq<Piece>, d: Dialect): seq<Lexeme> {
    if ps == [] then [] else LxOne(ps[0], d) + Lx(ps[1..], d)
  }

  lemma {:induction false} LxAppend(a: seq<Piece>, b: seq<Piece>, d: Dialect)
    ensures Lx(a + b, d) == Lx(a, d) + Lx(b, d)
  {
    if a == [] {
      assert a + b == b;
    } else {
      LxAppend(a[1..], b, d);
      Uncons(a, b);
      Cat(LxOne(a[0], d), Lx(a[1..], d), Lx(b, d));
    }
  }

  lemma {:induction false} LxIsClassified(ps: seq<Piece>, d: Dialect)
    ensures Lx(ps, d) == ClassifyAll(Toks(ps, d))
  {
    if ps != [] {
      LxIsClassified(ps[1..], d);
      assert ClassifyAll(ToksOne(ps[0], d)) == LxOne(ps[0], d);
    }
  }

  /** A good text is read as the lexemes of its pieces. */
  lemma {:induction false} ReadPieces(ps: seq<Piece>, d: Dialect)
    requires Good(ps)
    ensures Read(Spell(ps, d), d) == Lx(ps, d)
  {
    LexPieces(ps, d);
    LxIsClassified(ps, d);
  }

  lemma {:induction false} OneLexeme(p: Piece, d: Dialect)
    ensures Lx([p], d) == LxOne(p, d)
    ensures Lx([], d) == []
  {
    assert [p][1..] == [];
  }

  lemma {:induction false} FunctionsAreWords(f: string)
    requires f in FUNCTIONS
    ensures KeywordOf(f) == None
  {
  }

  lemma {:induction false} Two(p: Piece, q: Piece, d: Dialect)
    ensures Lx([p, q], d) == LxOne(p, d) + LxOne(q, d)
  {
    OneLexeme(p, d);
    OneLexeme(q, d);
    LxAppend([p], [q], d);
    assert [p] + [q] == [p, q];
  }

  lemma {:induction false} Three(p: Piece, q: Piece, r: Piece, d: Dialect)
    ensures Lx([p, q, r], d) == LxOne(p, d) + LxOne(q, d) + LxOne(r, d)
  {
    Two(p, q, d);
    OneLexeme(r, d);
    LxAppend([p, q], [r], d);
    assert [p, q] + [r] == [p, q, r];
  }

  lemma {:induction false} Four(p: Piece, q: Piece, r: Piece, s: Piece, d: Dialect)
    ensures Lx([p, q, r, s], d) == LxOne(p, d) + LxOne(q, d) + LxOne(r, d) + LxOne(s, d)
  {
    Three(p, q, r, d);
    OneLexeme(s, d);
    LxAppend([p, q, r], [s], d);
    assert [p, q, r] + [s] == [p, q, r, s];
  }

  /** A word between spaces, and two of them. */
  lemma {:induction false} Words(v: string, w: string, d: Dialect)
    ensures Lx([Sp, W(v), Sp], d) == Lx([Sp, W(v)], d) == Lx([W(v), Sp], d) == Lx([W(v)], d) == [Classify(TWord(v))]
    ensures Lx([Sp, W(v), Sp, W(w), Sp], d) == Lx([W(v), Sp, W(w), Sp], d) == [Classify(TWord(v)), Classify(TWord(w))]
  {
    OneLexeme(W(v), d);
    Two(Sp, W(v), d);
    Two(W(v), Sp, d);
    Two(W(w), Sp, d);
    Three(Sp, W(v), Sp, d);
    Four(W(v), Sp, W(w), Sp, d);
    LxAppend([Sp, W(v), Sp], [W(w), Sp], d);
    assert [Sp, W(v), Sp] + [W(w), Sp] == [Sp, W(v), Sp, W(w), Sp];
  }

  lemma {:induction false} SymbolLexemes(d: Dialect)
    ensures Lx([S("(")], d) == [Open] && Lx([S(")")], d) == [Close] && Lx([S(".")], d) == [Dot]
  {
    OneLexeme(S("("), d);
    OneLexeme(S(")"), d);
    OneLexeme(S("."), d);
  }

  lemma {:induction false} SeparatorLexemes(d: Dialect)
    ensures Lx(COMMA, d) == [Comma] && Lx(AND, d) == [K(KAnd)] && Lx(OR, d) == [K(KOr)]
  {
    Two(S(","), Sp, d);
    Words("AND", "", d);
    Words("OR", "", d);
  }

  lemma {:induction false} InfixLexemes(op: BinOp, d: Dialect)
    ensures Lx(Infix(op), d) == [Op(op)]
  {
    Three(Sp, S(Sym(op)), Sp, d);
    assert Classify(TSym(Sym(op))) == Op(op);
  }

  lemma {:induction false} OrderLexemes(d: Dialect)
    ensures Lx(ORDER, d) == [K(KOrder), K(KBy)]
  {
    Words("ORDER", "BY", d);
    OrderKeywords();
  }

  lemma {:induction false} OrderKeywords()
    ensures Classify(TWord("ORDER")) == K(KOrder) && Classify(TWord("BY")) == K(KBy)
  {
  }

  lemma {:induction false} DirectionLexemes(desc: bool, d: Dialect)
    ensures Lx(Direction(desc), d) == [K(if desc then KDesc else KAsc)]
  {
    Words("DESC", "", d);
    Words("ASC", "", d);
    DirectionKeywords();
  }

  lemma {:induction false} DirectionKeywords()
    ensures Classify(TWord("DESC")) == K(KDesc) && Classify(TWord("ASC")) == K(KAsc)
  {
  }

  lemma {:induction false} OverLexemes(d: Dialect)
    ensures Lx(OVER, d) == [K(KOver), Open, K(KPartition), K(KBy)]
  {
    var x, y := [Sp, W("OVER"), Sp, S("(")], [W("PARTITION"), Sp, W("BY"), Sp];
    Four(Sp, W("OVER"), Sp, S("("), d);
    Four(W("PARTITION"), Sp, W("BY"), Sp, d);
    LxAppend(x, y, d);
    OverKeywords();
  }

  lemma {:induction false} OverKeywords()
    ensures Classify(TWord("OVER")) == K(KOver) && Classify(TWord("PARTITION")) == K(KPartition)
    ensures Classify(TWord("BY")) == K(KBy) && Classify(TSym("(")) == Open
  {
  }

  lemma {:induction false} NullLexemes(negated: bool, d: Dialect)
    ensures Lx(NullTest(negated), d) ==
            (if negated then [K(KIs), K(KNot), K(KNull)] else [K(KIs), K(KNull)]) + [Close]
  {
    NullEnd(d);
    IsNotLexemes(d);
    if negated {
      LxAppend([Sp, W("IS"), Sp, W("NOT"), Sp], [W("NULL"), S(")")], d);
      assert [Sp, W("IS"), Sp, W("NOT"), Sp] + [W("NULL"), S(")")] == NullTest(true);
    } else {
      LxAppend([Sp, W("IS"), Sp], [W("NULL"), S(")")], d);
      assert [Sp, W("IS"), Sp] + [W("NULL"), S(")")] == NullTest(false);
    }
  }

  lemma {:induction false} NullEnd(d: Dialect)
    ensures Lx([W("NULL"), S(")")], d) == [K(KNull), Close]
  {
    Two(W("NULL"), S(")"), d);
  }

  lemma {:induction false} IsNotLexemes(d: Dialect)
    ensures Lx([Sp, W("IS"), Sp], d) == [K(KIs)] && Lx([Sp, W("IS"), Sp, W("NOT"), Sp], d) == [K(KIs), K(KNot)]
  {
    Words("IS", "NOT", d);
    IsNotKeywords();
  }

  lemma {:induction false} IsNotKeywords()
    ensures Classify(TWord("IS")) == K(KIs) && Classify(TWord("NOT")) == K(KNot)
  {
  }

  lemma {:induction false} CallLexemes(f: string, distinct: bool, d: Dialect)
    requires KeywordOf(f) == None
    ensures Lx(CallHead(f, distinct), d) == [Word(f), Open] + (if distinct then [K(KDistinct)] else [])
  {
    Two(W(f), S("("), d);
    Words("DISTINCT", "", d);
    LxAppend([W(f), S("(")], if distinct then [W("DISTINCT"), Sp] else [], d);
  }

  lemma {:induction false} ColText(a: string, n: string, d: Dialect)
    ensures Lx([Id(a), S("."), Id(n)], d) == [Name(a), Dot, Name(n)]
  {
    Three(Id(a), S("."), Id(n), d);
  }

  lemma {:induction false} CallText(f: string, distinct: bool, m: seq<Piece>, d: Dialect)
    requires f in FUNCTIONS
    ensures Lx(CallHead(f, distinct) + m + [S(")")], d) ==
            [Word(f), Open] + (if distinct then [K(KDistinct)] else []) + Lx(m, d) + [Close]
  {
    FunctionsAreWords(f);
    CallLexemes(f, distinct, d);
    SymbolLexemes(d);
    LxAppend(CallHead(f, distinct), m, d);
    LxAppend(CallHead(f, distinct) + m, [S(")")], d);
  }

  lemma {:induction false} BinText(op: BinOp, l: seq<Piece>, r: seq<Piece>, d: Dialect)
    ensures Lx([S("(")] + l + Infix(op) + r + [S(")")], d) == [Open] + Lx(l, d) + [Op(op)] + Lx(r, d) + [Close]
  {
    InfixLexemes(op, d);
    SymbolLexemes(d);
    LxAppend([S("(")], l, d);
    LxAppend([S("(")] + l, Infix(op), d);
    LxAppend([S("(")] + l + Infix(op), r, d);
    LxAppend([S("(")] + l + Infix(op) + r, [S(")")], d);
  }

  lemma {:induction false} BracketText(m: seq<Piece>, d: Dialect)
    ensures Lx([S("(")] + m + [S(")")], d) == [Open] + Lx(m, d) + [Close]
  {
    SymbolLexemes(d);
    LxAppend([S("(")], m, d);
    LxAppend([S("(")] + m, [S(")")], d);
  }

  lemma {:induction false} NotText(m: seq<Piece>, d: Dialect)
    ensures Lx([S("("), W("NOT"), Sp] + m + [S(")")], d) == [Open, K(KNot)] + Lx(m, d) + [Close]
  {
    var a := [S("("), W("NOT"), Sp];
    SymbolLexemes(d);
    Three(S("("), W("NOT"), Sp, d);
    LxAppend(a, m, d);
    LxAppend(a + m, [S(")")], d);
  }

  lemma {:induction false} NullText(m: seq<Piece>, negated: bool, d: Dialect)
    ensures Lx([S("(")] + m + NullTest(negated), d) ==
            [Open] + Lx(m, d) + (if negated then [K(KIs), K(KNot), K(KNull)] else [K(KIs), K(KNull)]) + [Close]
  {
    SymbolLexemes(d);
    NullLexemes(negated, d);
    LxAppend([S("(")], m, d);
    LxAppend([S("(")] + m, NullTest(negated), d);
  }

  lemma {:induction false} OverText(a: seq<Piece>, p: seq<Piece>, o: seq<Piece>, desc: bool, d: Dialect)
    ensures Lx(a + OVER + p + ORDER + o + (Direction(desc) + [S(")")]), d) ==
            Lx(a, d) + [K(KOver), Open, K(KPartition), K(KBy)] + Lx(p, d) + [K(KOrder), K(KBy)] + Lx(o, d)
            + [K(if desc then KDesc else KAsc), Close]
  {
    OverLexemes(d);
    OrderLexemes(d);
    DirectionLexemes(desc, d);
    SymbolLexemes(d);
    LxAppend(a, OVER, d);
    LxAppend(a + OVER, p, d);
    LxAppend(a + OVER + p, ORDER, d);
    LxAppend(a + OVER + p + ORDER, o, d);
    LxAppend(a + OVER + p + ORDER + o, Direction(desc) + [S(")")], d);
    LxAppend(Direction(desc), [S(")")], d);
  }

  /** From pieces to lexemes, for every expression. */
  lemma {:induction false} ExprLexemes(e: Expr, d: Dialect)
    requires Wf(e)
    ensures Lx(Pieces(e), d) == T(e, d)
    decreases e, 0
  {
    match e
    case Col(a, n) => ColText(a, n, d);
    case Par(i) => OneLexeme(Ph(i), d);
    case Ref(n) => OneLexeme(Id(n), d);
    case Call(f, distinct, args) =>
      SepLexemes(args, COMMA, Comma, d);
      CallText(f, distinct, PiecesSep(args, COMMA), d);
    case Over(a, p, o, desc) =>
      ExprLexemes(a, d);
      ExprLexemes(o, d);
      SepLexemes(p, COMMA, Comma, d);
      OverText(Pieces(a), PiecesSep(p, COMMA), Pieces(o), desc, d);
    case Bin(op, l, r) =>
      ExprLexemes(l, d);
      ExprLexemes(r, d);
      BinText(op, Pieces(l), Pieces(r), d);
    case And(es) =>
      SepLexemes(es, AND, K(KAnd), d);
      BracketText(PiecesSep(es, AND), d);
    case Or(es) =>
      SepLexemes(es, OR, K(KOr), d);
      BracketText(PiecesSep(es, OR), d);
    case Not(x) =>
      ExprLexemes(x, d);
      NotText(Pieces(x), d);
    case IsNull(x, negated) =>
      ExprLexemes(x, d);
      NullText(Pieces(x), negated, d);
  }

  lemma {:induction false} SepLexemes(es: seq<Expr>, sep: seq<Piece>, x: Lexeme, d: Dialect)
    requires es != [] && (forall y :: y in es ==> Wf(y))
    requires (sep, x) in {(COMMA, Comma), (AND, K(KAnd)), (OR, K(KOr))}
    ensures Lx(PiecesSep(es, sep), d) == TSep(es, x, d)
    decreases es, |es| + 1
  {
    SeparatorIs(sep, x, d);
    FromLexemes(es, 0, sep, x, d);
    assert es[0..] == es;
  }

  lemma {:induction false} SeparatorIs(sep: seq<Piece>, x: Lexeme, d: Dialect)
    requires (sep, x) in {(COMMA, Comma), (AND, K(KAnd)), (OR, K(KOr))}
    ensures Lx(sep, d) == [x]
  {
    SeparatorLexemes(d);
  }

  /** A separated list from its i-th element on. */
  lemma {:induction false} FromLexemes(es: seq<Expr>, i: nat, sep: seq<Piece>, x: Lexeme, d: Dialect)
    requires i < |es| && (forall y :: y in es ==> Wf(y)) && Lx(sep, d) == [x]
    ensures Lx(PiecesSep(es[i..], sep), d) == T(es[i], d) + TFrom(es, i + 1, x, d)
    decreases es, |es| - i
  {
    ExprLexemes(es[i], d);
    PiecesFrom(es, i, sep);
    if i + 1 < |es| {
      FromLexemes(es, i + 1, sep, x, d);
      SepText(Pieces(es[i]), sep, PiecesSep(es[i + 1..], sep), d);
      TFromDef(es, i + 1, x, d);
    } else {
      assert T(es[i], d) + [] == T(es[i], d);
    }
  }

  lemma {:induction false} PiecesFrom(es: seq<Expr>, i: nat, sep: seq<Piece>)
    requires i < |es|
    ensures PiecesSep(es[i..], sep) ==
            if i + 1 < |es| then Pieces(es[i]) + sep + PiecesSep(es[i + 1..], sep) else Pieces(es[i])
  {
    assert es[i..][0] == es[i] && es[i..][1..] == es[i + 1..];
  }

  lemma {:induction false} SepText(a: seq<Piece>, sep: seq<Piece>, b: seq<Piece>, d: Dialect)
    ensures Lx(a + sep + b, d) == Lx(a, d) + (Lx(sep, d) + Lx(b, d))
  {
    LxAppend(a, sep, d);
    LxAppend(a + sep, b, d);
    Cat(Lx(a, d), Lx(sep, d), Lx(b, d));
  }

  lemma {:induction false} TFromDef(es: seq<Expr>, i: nat, x: Lexeme, d: Dialect)
    requires i < |es| && (forall y :: y in es ==> Wf(y))
    ensures TFrom(es, i, x, d) == [x] + (T(es[i], d) + TFrom(es, i + 1, x, d))
  {
  }
}
