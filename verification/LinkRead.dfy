/**
  Linked text as the database parses it: a set operation is read as its two branches, WITH as its
  two queries, and each keeps the rows it selects and its tenants apart.
 */
module LinkRead {
  import opened Wrappers
  import opened Sql
  import opened SqlRead
  import opened Emit
  import Sexpr
  import Catalog
  import Compile
  import CompileProps
  import Placeholders
  import Binding
  import Positional
  import Rebase
  import Renumber
  import Lexemes
  import St = Statement
  import SL = StatementLexemes
  import StatementRead
  import StatementText
  import Link
  import LinkPositions

  // ---- the reader ----

  function ParseOp(ts: seq<Lexeme>): Option<(Link.SetOp, nat)> {
    if [Word("UNION"), Word("ALL")] <= ts then Some((Link.UnionAll, 2))
    else if At(ts, Word("UNION")) then Some((Link.Union, 1))
    else if At(ts, Word("INTERSECT")) then Some((Link.Intersect, 1))
    else if At(ts, Word("EXCEPT")) then Some((Link.Except, 1))
    else None
  }

  function ParseBracketed(ts: seq<Lexeme>): Parse<St.Query> {
    if !At(ts, Open) then None
    else match St.ParseSelect(ts[1..])
      case None => None
      case Some((q, rest)) => if At(rest, Close) then Some((q, rest[1..])) else None
  }

  /** Two statements in brackets with an operator between them. */
  function ParseSet(ts: seq<Lexeme>): Option<(St.Query, Link.SetOp, St.Query)> {
    match ParseBracketed(ts)
    case None => None
    case Some((l, r1)) =>
      match ParseOp(r1)
      case None => None
      case Some((op, n)) =>
        if n > |r1| then None
        else match ParseBracketed(r1[n..])
          case None => None
          case Some((r, r2)) => if r2 == [] then Some((l, op, r)) else None
  }

  /** A named statement in brackets and the statement that may use it. */
  function ParseWith(ts: seq<Lexeme>): Option<(St.Query, string, St.Query)> {
    if !(|ts| >= 3 && ts[0] == Word("WITH") && ts[1].Name? && ts[2] == K(KAs)) then None
    else match ParseBracketed(ts[3..])
      case None => None
      case Some((l, r1)) =>
        match St.ParseQuery(r1)
        case None => None
        case Some(r) => Some((l, ts[1].name, r))
  }

  // ---- the lexemes of linked pieces ----

  function MeantBy(q: St.Stmt, d: Dialect): Option<St.Query> {
    if q.group == Some([]) then None else Some(St.Meant(q, d))
  }

  function With<T>(x: Option<T>, rest: seq<Lexeme>): Parse<T> {
    if x.None? then None else Some((x.value, rest))
  }

  lemma {:induction false} BracketStep(body: seq<Lexeme>, x: Option<St.Query>, rest: seq<Lexeme>)
    requires St.ParseSelect(body) == With(x, [Close] + rest)
    ensures ParseBracketed([Open] + body) == With(x, rest)
  {
    StatementRead.Behind([Open], body);
    StatementRead.Behind([Close], rest);
  }

  lemma {:induction false} BracketReads(q: St.Stmt, rest: seq<Lexeme>, d: Dialect)
    requires St.WfStmt(q)
    ensures ParseBracketed([Open] + (SL.StmtL(q, d) + ([Close] + rest))) == With(MeantBy(q, d), rest)
  {
    StatementRead.SelectReads(q, [Close] + rest, d);
    BracketStep(SL.StmtL(q, d) + ([Close] + rest), MeantBy(q, d), rest);
  }

  function OpL(op: Link.SetOp): seq<Lexeme> {
    match op
    case Union => [Word("UNION")]
    case UnionAll => [Word("UNION"), Word("ALL")]
    case Intersect => [Word("INTERSECT")]
    case Except => [Word("EXCEPT")]
  }

  lemma {:induction false} OpReads(op: Link.SetOp, rest: seq<Lexeme>)
    ensures ParseOp(OpL(op) + ([Open] + rest)) == Some((op, |OpL(op)|))
  {
    var ts := OpL(op) + ([Open] + rest);
    match op
    case Union => assert ts[0] == Word("UNION") && ts[1] == Open;
    case UnionAll => assert ts[0] == Word("UNION") && ts[1] == Word("ALL");
    case Intersect => assert ts[0] == Word("INTERSECT");
    case Except => assert ts[0] == Word("EXCEPT");
  }

  lemma {:induction false} OpLexemes(op: Link.SetOp, d: Dialect)
    ensures Lexemes.Lx(Link.OpPieces(op), d) == OpL(op)
  {
    Lexemes.OneLexeme(W("UNION"), d);
    Lexemes.OneLexeme(W("INTERSECT"), d);
    Lexemes.OneLexeme(W("EXCEPT"), d);
    Lexemes.Three(W("UNION"), Sp, W("ALL"), d);
  }

  lemma {:induction false} MiddleLexemes(op: Link.SetOp, d: Dialect)
    ensures Lexemes.Lx(Link.Middle(op), d) == [Close] + OpL(op) + [Open]
  {
    OpLexemes(op, d);
    Lexemes.Two(S(")"), Sp, d);
    Lexemes.Two(Sp, S("("), d);
    Lexemes.LxAppend([S(")"), Sp], Link.OpPieces(op), d);
    Lexemes.LxAppend([S(")"), Sp] + Link.OpPieces(op), [Sp, S("(")], d);
  }

  lemma {:induction false} FourLexemes(a: seq<Piece>, b: seq<Piece>, c: seq<Piece>, e: seq<Piece>, d: Dialect)
    ensures Lexemes.Lx(a + b + c + e, d) == Lexemes.Lx(a, d) + Lexemes.Lx(b, d) + Lexemes.Lx(c, d) + Lexemes.Lx(e, d)
  {
    Lexemes.LxAppend(a, b, d);
    Lexemes.LxAppend(a + b, c, d);
    Lexemes.LxAppend(a + b + c, e, d);
  }

  lemma {:induction false} SetLexemes(a: seq<Piece>, op: Link.SetOp, b: seq<Piece>, d: Dialect)
    ensures Lexemes.Lx(Link.SetPieces(a, op, b), d) ==
            [Open] + (Lexemes.Lx(a, d) + ([Close] + (OpL(op) + ([Open] + (Lexemes.Lx(b, d) + ([Close] + []))))))
  {
    MiddleLexemes(op, d);
    Lexemes.SymbolLexemes(d);
    FourLexemes(Link.OPEN, a, Link.Middle(op), b, d);
    Lexemes.LxAppend(Link.OPEN + a + Link.Middle(op) + b, Link.SHUT, d);
    Seven([Open], Lexemes.Lx(a, d), [Close], OpL(op), Lexemes.Lx(b, d), [Close]);
  }

  lemma {:induction false} Seven(a: seq<Lexeme>, b: seq<Lexeme>, c: seq<Lexeme>, e: seq<Lexeme>, f: seq<Lexeme>, g: seq<Lexeme>)
    ensures a + b + (c + e + [Open]) + f + g == a + (b + (c + (e + ([Open] + (f + (g + []))))))
  {
    assert g + [] == g;
    Cat(a + b + (c + e + [Open]), f, g);
    Cat(a + b, c + e + [Open], f + g);
    Cat(a, b, (c + e + [Open]) + (f + g));
    Cat(c + e, [Open], f + g);
    Cat(c, e, [Open] + (f + g));
  }

  lemma {:induction false} SetParts(ts: seq<Lexeme>, x: Option<St.Query>, op: Link.SetOp, y: Option<St.Query>, r2: seq<Lexeme>)
    requires ParseBracketed(ts) == With(x, OpL(op) + r2) && ParseOp(OpL(op) + r2) == Some((op, |OpL(op)|))
    requires ParseBracketed(r2) == With(y, [])
    ensures ParseSet(ts) == Both(x, op, y)
  {
    StatementRead.Behind(OpL(op), r2);
  }

  function Both<T>(x: Option<St.Query>, t: T, y: Option<St.Query>): Option<(St.Query, T, St.Query)> {
    if x.None? || y.None? then None else Some((x.value, t, y.value))
  }

  /** The pieces of a set operation are read as its two statements, or not at all if either groups by nothing. */
  lemma {:induction false} SetPiecesRead(l: St.Stmt, op: Link.SetOp, r: St.Stmt, d: Dialect)
    requires St.WfStmt(l) && St.WfStmt(r)
    ensures ParseSet(Lexemes.Lx(Link.SetPieces(St.StmtPieces(l), op, St.StmtPieces(r)), d)) == Both(MeantBy(l, d), op, MeantBy(r, d))
  {
    var r2 := [Open] + (SL.StmtL(r, d) + ([Close] + []));
    SL.StmtLexemes(l, d);
    SL.StmtLexemes(r, d);
    SetLexemes(St.StmtPieces(l), op, St.StmtPieces(r), d);
    BracketReads(l, OpL(op) + r2, d);
    OpReads(op, SL.StmtL(r, d) + ([Close] + []));
    BracketReads(r, [], d);
    SetParts([Open] + (SL.StmtL(l, d) + ([Close] + (OpL(op) + r2))), MeantBy(l, d), op, MeantBy(r, d), r2);
  }

  lemma {:induction false} WithLexemes(name: string, a: seq<Piece>, b: seq<Piece>, d: Dialect)
    ensures Lexemes.Lx(Link.CtePieces(name, a, b), d) ==
            [Word("WITH"), Name(name), K(KAs)] + ([Open] + (Lexemes.Lx(a, d) + ([Close] + Lexemes.Lx(b, d))))
  {
    HeadLexemes(name, d);
    Lexemes.Two(S(")"), Sp, d);
    FourLexemes(Link.CteHead(name), a, [S(")"), Sp], b, d);
    Four([Word("WITH"), Name(name), K(KAs)], Lexemes.Lx(a, d), [Close], Lexemes.Lx(b, d));
  }

  lemma {:induction false} HeadLexemes(name: string, d: Dialect)
    ensures Lexemes.Lx(Link.CteHead(name), d) == [Word("WITH"), Name(name), K(KAs)] + [Open]
  {
    Lexemes.Three(W("WITH"), Sp, Id(name), d);
    Lexemes.Four(Sp, W("AS"), Sp, S("("), d);
    Lexemes.LxAppend([W("WITH"), Sp, Id(name)], [Sp, W("AS"), Sp, S("(")], d);
  }

  lemma {:induction false} Four(a: seq<Lexeme>, b: seq<Lexeme>, c: seq<Lexeme>, e: seq<Lexeme>)
    ensures a + [Open] + b + c + e == a + ([Open] + (b + (c + e)))
  {
    Cat(a + [Open] + b, c, e);
    Cat(a + [Open], b, c + e);
    Cat(a, [Open], b + (c + e));
  }

  /** The pieces of WITH are read as its two statements. */
  lemma {:induction false} WithPiecesRead(name: string, l: St.Stmt, r: St.Stmt, d: Dialect)
    requires St.WfStmt(l) && St.WfStmt(r)
    ensures ParseWith(Lexemes.Lx(Link.CtePieces(name, St.StmtPieces(l), St.StmtPieces(r)), d)) == Both(MeantBy(l, d), name, MeantBy(r, d))
  {
    SL.StmtLexemes(l, d);
    SL.StmtLexemes(r, d);
    WithLexemes(name, St.StmtPieces(l), St.StmtPieces(r), d);
    BracketReads(l, SL.StmtL(r, d), d);
    StatementRead.LexemesRead(r, d);
    WithParts(name, [Open] + (SL.StmtL(l, d) + ([Close] + SL.StmtL(r, d))), MeantBy(l, d), SL.StmtL(r, d));
  }

  lemma {:induction false} WithParts(name: string, body: seq<Lexeme>, x: Option<St.Query>, r1: seq<Lexeme>)
    requires ParseBracketed(body) == With(x, r1)
    ensures ParseWith([Word("WITH"), Name(name), K(KAs)] + body) == Both(x, name, St.ParseQuery(r1))
  {
    ThreeAhead(Word("WITH"), Name(name), K(KAs), body);
  }

  lemma {:induction false} ThreeAhead(a: Lexeme, b: Lexeme, c: Lexeme, body: seq<Lexeme>)
    ensures var ts := [a, b, c] + body; |ts| >= 3 && ts[0] == a && ts[1] == b && ts[2] == c && ts[3..] == body
  {
  }

  // ---- the tokens of linked requests ----

  /** A request and what compiling it gives; MySQL's are those that repeat no parameter. */
  datatype Request = Request(root: Sexpr.Tree, s: Catalog.Schema, p: Catalog.Policy, lim: Compile.Limits) {
    ghost predicate Gives(c: Compile.Compiled, d: Dialect) {
      Compile.CompileTree(root, s, p, lim, d) == Compile.Ok(c) && (d == MySql ==> Positional.NoRepeats(root, s, p, lim))
    }
  }

  function Shift(d: Dialect, k: nat): Renumber.Numbering { (n: nat) => Rebase.NewIndex(n, d, k) }

  /** The right-hand statement with its placeholders moved behind k others. */
  function Behind(q: St.Stmt, d: Dialect, k: nat): St.Stmt { Renumber.RenamedStmt(q, Shift(Positional.Numbering(d), k)) }

  lemma {:induction false} MovedIsRenamed(q: St.Stmt, d: Dialect, k: nat)
    requires d != MySql
    ensures Rebase.Moved(St.StmtPieces(q), d, k) == St.StmtPieces(Renumber.RenamedStmt(q, Shift(d, k)))
  {
    Renumber.StmtRenamed(q, Shift(d, k));
    SamePieces(St.StmtPieces(q), d, k);
  }

  lemma {:induction false} SamePieces(ks: seq<Piece>, d: Dialect, k: nat)
    requires d != MySql
    ensures Rebase.Moved(ks, d, k) == Renumber.InPieces(ks, Shift(d, k))
  {
  }

  lemma {:induction false} RequestFacts(x: Request, c: Compile.Compiled, d: Dialect)
    requires x.Gives(c, d)
    ensures Link.Compiled(c, d) && St.WfStmt(c.stmt) && (c.stmt.group == Some([]) <==> CompileProps.HasEmptyGroup(x.root))
    ensures |c.params| <= MAX_PARAMS
    ensures var ks := Placeholders.Marks(St.StmtPieces(c.stmt));
            d == MySql ==> Positional.RunsFrom(ks, 1) && |ks| == |c.params|
  {
    CompileProps.AcceptedIsWf(x.root, x.s, x.p, x.lim, d);
    CompileProps.GroupIsEmpty(x.root, x.s, x.p, x.lim, d);
    Link.CompiledFacts(c, d);
    if d == MySql {
      Positional.MarksRun(x.root, x.s, x.p, x.lim, d);
      LinkPositions.OneEach(x.root, x.s, x.p, x.lim);
      Binding.HolesOfStmt(x.root, x.s, x.p, x.lim, d);
    }
  }

  lemma {:induction false} HiddenMove(ks: seq<Piece>, k: nat)
    ensures Toks(Rebase.Moved(ks, Postgres, k), MySql) == Toks(ks, MySql)
  {
    if ks != [] {
      HiddenMove(ks[1..], k);
      Rebase.MovedTail(ks, Postgres, k);
    }
  }

  lemma {:induction false} RunsOn(a: seq<nat>, b: seq<nat>, k: nat)
    requires Positional.RunsFrom(a, k) && Positional.RunsFrom(b, k + |a|)
    ensures Positional.RunsFrom(a + b, k)
  {
  }

  lemma {:induction false} MovedRuns(ks: seq<Piece>, k: nat)
    requires Positional.RunsFrom(Placeholders.Marks(ks), 1) && |Placeholders.Marks(ks)| <= MAX_PARAMS && k <= MAX_PARAMS
    ensures Positional.RunsFrom(Placeholders.Marks(Rebase.Moved(ks, Postgres, k)), 1 + k)
  {
    var marks := Placeholders.Marks(ks);
    Link.MarksMoved(ks, Postgres, k);
    forall i | 0 <= i < |marks|
      ensures Link.NewIndices(marks, Postgres, k)[i] == 1 + k + i
    {
      Rebase.NumberedMoves(marks[i], Postgres, k);
    }
  }

  lemma {:induction false} PartMarks(h: seq<Piece>, a: seq<Piece>, m: seq<Piece>, b: seq<Piece>, z: seq<Piece>)
    requires Placeholders.Marks(h) == Placeholders.Marks(m) == Placeholders.Marks(z) == []
    ensures Placeholders.Marks(h + a + m + b + z) == Placeholders.Marks(a) + Placeholders.Marks(b)
  {
    Placeholders.MarksAppend(h, a);
    Placeholders.MarksAppend(h + a, m);
    Placeholders.MarksAppend(h + a + m, b);
    Placeholders.MarksAppend(h + a + m + b, z);
  }

  lemma {:induction false} PartTokens(h: seq<Piece>, a: seq<Piece>, m: seq<Piece>, b: seq<Piece>, z: seq<Piece>, d: Dialect)
    ensures Toks(h + a + m + b + z, d) == Toks(h, d) + Toks(a, d) + Toks(m, d) + Toks(b, d) + Toks(z, d)
  {
    ToksAppend(h, a, d);
    ToksAppend(h + a, m, d);
    ToksAppend(h + a + m, b, d);
    ToksAppend(h + a + m + b, z, d);
  }

  /** Counting over both sides gives the numbers that moving the right side would have written. */
  lemma {:induction false} CountedLink(h: seq<Piece>, a: seq<Piece>, m: seq<Piece>, b: seq<Piece>, z: seq<Piece>)
    requires Placeholders.Marks(h) == Placeholders.Marks(m) == Placeholders.Marks(z) == []
    requires Positional.RunsFrom(Placeholders.Marks(a), 1) && |Placeholders.Marks(a)| <= MAX_PARAMS
    requires Positional.RunsFrom(Placeholders.Marks(b), 1) && |Placeholders.Marks(b)| <= MAX_PARAMS
    ensures Positional.Counted(Toks(h + a + m + b + z, MySql), 1)
            == Toks(h + a + m + Rebase.Moved(b, Postgres, |Placeholders.Marks(a)|) + z, Postgres)
  {
    var k := |Placeholders.Marks(a)|;
    var moved := Rebase.Moved(b, Postgres, k);
    MovedRuns(b, k);
    PartMarks(h, a, m, moved, z);
    RunsOn(Placeholders.Marks(a), Placeholders.Marks(moved), 1);
    Positional.CountedPieces(h + a + m + moved + z, 1);
    PartTokens(h, a, m, moved, z, MySql);
    PartTokens(h, a, m, b, z, MySql);
    HiddenMove(b, k);
  }

  lemma {:induction false} FrameMarks(op: Link.SetOp, name: string)
    ensures Placeholders.Marks(Link.OPEN) == Placeholders.Marks(Link.Middle(op)) == Placeholders.Marks(Link.SHUT) == []
    ensures Placeholders.Marks(Link.CteHead(name)) == Placeholders.Marks([S(")"), Sp]) == []
  {
    Link.MiddlePlain(op);
    Placeholders.NoMarks(Link.OPEN);
    Placeholders.NoMarks(Link.Middle(op));
    Placeholders.NoMarks(Link.SHUT);
    Placeholders.NoMarks(Link.CteHead(name));
    Placeholders.NoMarks([S(")"), Sp]);
  }

  function SetText(l: Compile.Compiled, op: Link.SetOp, r: Compile.Compiled, d: Dialect): string {
    Link.SetText(StatementText.Text(l.stmt, d), op, StatementText.Text(r.stmt, d), d, |l.params|)
  }

  function WithText(name: string, l: Compile.Compiled, r: Compile.Compiled, d: Dialect): string {
    Link.CteText(name, StatementText.Text(l.stmt, d), StatementText.Text(r.stmt, d), d, |l.params|)
  }

  lemma {:induction false} SetTokens(x: Request, y: Request, l: Compile.Compiled, op: Link.SetOp, r: Compile.Compiled, d: Dialect)
    requires x.Gives(l, d) && y.Gives(r, d)
    ensures Positional.Tokens(SetText(l, op, r, d), d) ==
            Toks(Link.SetPieces(St.StmtPieces(l.stmt), op, St.StmtPieces(Behind(r.stmt, d, |l.params|))), Positional.Numbering(d))
  {
    var a, b := St.StmtPieces(l.stmt), St.StmtPieces(r.stmt);
    RequestFacts(x, l, d);
    RequestFacts(y, r, d);
    Link.SetTextPieces(l, op, r, d);
    MovedIsRenamed(r.stmt, Positional.Numbering(d), |l.params|);
    if d == MySql {
      LinkPositions.NotMoved(b, |l.params|);
      FrameMarks(op, "");
      CountedLink(Link.OPEN, a, Link.Middle(op), b, Link.SHUT);
    }
  }

  lemma {:induction false} WithTokens(x: Request, y: Request, name: string, l: Compile.Compiled, r: Compile.Compiled, d: Dialect)
    requires x.Gives(l, d) && y.Gives(r, d) && Ident(name)
    ensures Positional.Tokens(WithText(name, l, r, d), d) ==
            Toks(Link.CtePieces(name, St.StmtPieces(l.stmt), St.StmtPieces(Behind(r.stmt, d, |l.params|))), Positional.Numbering(d))
  {
    var a, b := St.StmtPieces(l.stmt), St.StmtPieces(r.stmt);
    RequestFacts(x, l, d);
    RequestFacts(y, r, d);
    Link.CteTextPieces(name, l, r, d);
    MovedIsRenamed(r.stmt, Positional.Numbering(d), |l.params|);
    if d == MySql {
      LinkPositions.NotMoved(b, |l.params|);
      FrameMarks(Link.Union, name);
      WithCounted(Link.CteHead(name), a, [S(")"), Sp], b);
    }
  }

  lemma {:induction false} WithCounted(h: seq<Piece>, a: seq<Piece>, m: seq<Piece>, b: seq<Piece>)
    requires Placeholders.Marks(h) == Placeholders.Marks(m) == []
    requires Positional.RunsFrom(Placeholders.Marks(a), 1) && |Placeholders.Marks(a)| <= MAX_PARAMS
    requires Positional.RunsFrom(Placeholders.Marks(b), 1) && |Placeholders.Marks(b)| <= MAX_PARAMS
    ensures Positional.Counted(Toks(h + a + m + b, MySql), 1)
            == Toks(h + a + m + Rebase.Moved(b, Postgres, |Placeholders.Marks(a)|), Postgres)
  {
    var moved := Rebase.Moved(b, Postgres, |Placeholders.Marks(a)|);
    CountedLink(h, a, m, b, []);
    assert h + a + m + b + [] == h + a + m + b && h + a + m + moved + [] == h + a + m + moved;
  }

  // ---- what a database finds ----

  function ReadSet(s: string, d: Dialect): Option<(St.Query, Link.SetOp, St.Query)> {
    ParseSet(ClassifyAll(Positional.Tokens(s, d)))
  }

  function ReadWith(s: string, d: Dialect): Option<(St.Query, string, St.Query)> {
    ParseWith(ClassifyAll(Positional.Tokens(s, d)))
  }

  /** The right-hand query as it stands in linked text. */
  function Moved(r: Compile.Compiled, d: Dialect, k: nat): St.Query {
    Renumber.RenamedQuery(St.Meant(r.stmt, Positional.Numbering(d)), Shift(Positional.Numbering(d), k))
  }

  /** q, unless the request groups by nothing: then no statement is found. */
  function Found(x: Request, q: St.Query): Option<St.Query> {
    if CompileProps.HasEmptyGroup(x.root) then None else Some(q)
  }

  lemma {:induction false} LeftReads(x: Request, l: Compile.Compiled, d: Dialect)
    requires x.Gives(l, d)
    ensures St.WfStmt(l.stmt)
    ensures MeantBy(l.stmt, Positional.Numbering(d)) == Found(x, St.Meant(l.stmt, Positional.Numbering(d)))
  {
    RequestFacts(x, l, d);
  }

  lemma {:induction false} RightReads(y: Request, r: Compile.Compiled, d: Dialect, k: nat)
    requires y.Gives(r, d)
    ensures St.WfStmt(Behind(r.stmt, d, k))
    ensures MeantBy(Behind(r.stmt, d, k), Positional.Numbering(d)) == Found(y, Moved(r, d, k))
  {
    RequestFacts(y, r, d);
    Renumber.StmtStaysWf(r.stmt, Shift(Positional.Numbering(d), k));
    Renumber.MeantRenamed(r.stmt, Shift(Positional.Numbering(d), k), Positional.Numbering(d));
  }

  /** A set operation is read as its two branches, the right one renumbered, unless one groups by nothing. */
  lemma {:induction false} SetReads(x: Request, y: Request, l: Compile.Compiled, op: Link.SetOp, r: Compile.Compiled, d: Dialect)
    requires x.Gives(l, d) && y.Gives(r, d)
    ensures ReadSet(SetText(l, op, r, d), d)
            == Both(Found(x, St.Meant(l.stmt, Positional.Numbering(d))), op, Found(y, Moved(r, d, |l.params|)))
  {
    var right := Behind(r.stmt, d, |l.params|);
    LeftReads(x, l, d);
    RightReads(y, r, d, |l.params|);
    SetTokens(x, y, l, op, r, d);
    SetFound(SetText(l, op, r, d), l.stmt, op, right, d);
  }

  lemma {:induction false} SetFound(text: string, l: St.Stmt, op: Link.SetOp, r: St.Stmt, d: Dialect)
    requires St.WfStmt(l) && St.WfStmt(r)
    requires Positional.Tokens(text, d) == Toks(Link.SetPieces(St.StmtPieces(l), op, St.StmtPieces(r)), Positional.Numbering(d))
    ensures ReadSet(text, d) == Both(MeantBy(l, Positional.Numbering(d)), op, MeantBy(r, Positional.Numbering(d)))
  {
    Lexemes.LxIsClassified(Link.SetPieces(St.StmtPieces(l), op, St.StmtPieces(r)), Positional.Numbering(d));
    SetPiecesRead(l, op, r, Positional.Numbering(d));
  }

  /** So is WITH. */
  lemma {:induction false} WithReads(x: Request, y: Request, name: string, l: Compile.Compiled, r: Compile.Compiled, d: Dialect)
    requires x.Gives(l, d) && y.Gives(r, d) && Ident(name)
    ensures ReadWith(WithText(name, l, r, d), d)
            == Both(Found(x, St.Meant(l.stmt, Positional.Numbering(d))), name, Found(y, Moved(r, d, |l.params|)))
  {
    var right := Behind(r.stmt, d, |l.params|);
    LeftReads(x, l, d);
    RightReads(y, r, d, |l.params|);
    WithTokens(x, y, name, l, r, d);
    WithFound(WithText(name, l, r, d), name, l.stmt, right, d);
  }

  lemma {:induction false} WithFound(text: string, name: string, l: St.Stmt, r: St.Stmt, d: Dialect)
    requires St.WfStmt(l) && St.WfStmt(r)
    requires Positional.Tokens(text, d) == Toks(Link.CtePieces(name, St.StmtPieces(l), St.StmtPieces(r)), Positional.Numbering(d))
    ensures ReadWith(text, d) == Both(MeantBy(l, Positional.Numbering(d)), name, MeantBy(r, Positional.Numbering(d)))
  {
    Lexemes.LxIsClassified(Link.CtePieces(name, St.StmtPieces(l), St.StmtPieces(r)), Positional.Numbering(d));
    WithPiecesRead(name, l, r, Positional.Numbering(d));
  }
}
