/**
  Splicing two finished statements into one: set operations and WITH. The right-hand text is
  renumbered character by character and the two parameter lists are put end to end.
 */
module Link {
  import opened Wrappers
  import opened Sexpr
  import opened Decimal
  import opened Sql
  import opened Rebase
  import opened Buffer
  import opened Emit
  import Catalog
  import Compile
  import E = SqlExpr
  import St = Statement
  import StatementText
  import CompileProps
  import Placeholders
  import Binding
  import Samples

  datatype SetOp = Union | UnionAll | Intersect | Except

  function OpText(op: SetOp): string {
    match op
    case Union => "UNION"
    case UnionAll => "UNION ALL"
    case Intersect => "INTERSECT"
    case Except => "EXCEPT"
  }

  function OpPieces(op: SetOp): seq<Piece> {
    match op
    case Union => [W("UNION")]
    case UnionAll => [W("UNION"), Sp, W("ALL")]
    case Intersect => [W("INTERSECT")]
    case Except => [W("EXCEPT")]
  }

  /** The combined text of a set operation; n is the number of parameters on the left. */
  function SetText(l: string, op: SetOp, r: string, d: Dialect, n: nat): string {
    "(" + l + ") " + OpText(op) + " (" + Rebased(r, d, n) + ")"
  }

  function CteText(name: string, l: string, r: string, d: Dialect, n: nat): string {
    "WITH " + SpellOne(Id(name), d) + " AS (" + l + ") " + Rebased(r, d, n)
  }

  // ---- what a text with its parameters means ----

  /** A token with its placeholder looked up in the parameter list. */
  datatype Bound = Lit(t: Tok) | To(p: Param) | Loose

  function BindOne(t: Tok, ps: seq<Param>): Bound {
    if !t.TPar? then Lit(t) else if 1 <= t.n <= |ps| then To(ps[t.n - 1]) else Loose
  }

  function Bind(ts: seq<Tok>, ps: seq<Param>): (r: seq<Bound>)
    ensures |r| == |ts|
  {
    seq(|ts|, i requires 0 <= i < |ts| => BindOne(ts[i], ps))
  }

  lemma {:induction false} BindAppend(a: seq<Tok>, b: seq<Tok>, ps: seq<Param>)
    ensures Bind(a + b, ps) == Bind(a, ps) + Bind(b, ps)
  {
  }

  /** Every number written is one of the table's. */
  ghost predicate InRange(ks: seq<Piece>, n: nat) {
    forall i :: 0 <= i < |ks| && ks[i].Ph? ==> 1 <= ks[i].n <= n
  }

  lemma {:induction false} ToksInRange(ks: seq<Piece>, d: Dialect, n: nat)
    requires InRange(ks, n) && d != MySql
    ensures forall i :: 0 <= i < |Toks(ks, d)| && Toks(ks, d)[i].TPar? ==> 1 <= Toks(ks, d)[i].n <= n
  {
    if ks != [] {
      assert forall i :: 0 <= i < |ks| - 1 ==> ks[1..][i] == ks[i + 1];
      ToksInRange(ks[1..], d, n);
    }
  }

  lemma {:induction false} BindLeft(ts: seq<Tok>, l: seq<Param>, r: seq<Param>)
    requires forall i :: 0 <= i < |ts| && ts[i].TPar? ==> 1 <= ts[i].n <= |l|
    ensures Bind(ts, l + r) == Bind(ts, l) && Loose !in Bind(ts, l)
  {
  }

  /** Placeholder n, moved, is looked up as it was in its own list. */
  predicate Lands(n: nat, d: Dialect, k: nat, all: seq<Param>, own: seq<Param>) {
    BindOne(TPar(NewIndex(n, d, k)), all) == BindOne(TPar(n), own)
  }

  ghost predicate AllLand(ks: seq<Piece>, d: Dialect, k: nat, all: seq<Param>, own: seq<Param>) {
    forall n :: n in Placeholders.Marks(ks) ==> Lands(n, d, k, all, own)
  }

  /** Moved pieces mean what they meant exactly when every placeholder among them lands. */
  lemma {:induction false} BindMoved(ks: seq<Piece>, d: Dialect, k: nat, all: seq<Param>, own: seq<Param>)
    requires d != MySql
    ensures |Toks(Moved(ks, d, k), d)| == |Toks(ks, d)|
    ensures Bind(Toks(Moved(ks, d, k), d), all) == Bind(Toks(ks, d), own) <==> AllLand(ks, d, k, all, own)
  {
    if ks != [] {
      BindMoved(ks[1..], d, k, all, own);
      BindMovedCons(ks, d, k, all, own);
      AllLandCons(ks, d, k, all, own);
    }
  }

  lemma {:induction false} AllLandCons(ks: seq<Piece>, d: Dialect, k: nat, all: seq<Param>, own: seq<Param>)
    requires ks != []
    ensures AllLand(ks, d, k, all, own) <==> (ks[0].Ph? ==> Lands(ks[0].n, d, k, all, own)) && AllLand(ks[1..], d, k, all, own)
  {
    assert forall n :: n in Placeholders.Marks(ks) <==> (ks[0].Ph? && n == ks[0].n) || n in Placeholders.Marks(ks[1..]);
  }

  lemma {:induction false} BindMovedCons(ks: seq<Piece>, d: Dialect, k: nat, all: seq<Param>, own: seq<Param>)
    requires d != MySql && ks != [] && |Toks(Moved(ks[1..], d, k), d)| == |Toks(ks[1..], d)|
    ensures |Toks(Moved(ks, d, k), d)| == |Toks(ks, d)|
    ensures Bind(Toks(Moved(ks, d, k), d), all) == Bind(Toks(ks, d), own) <==>
            (ks[0].Ph? ==> Lands(ks[0].n, d, k, all, own))
            && Bind(Toks(Moved(ks[1..], d, k), d), all) == Bind(Toks(ks[1..], d), own)
  {
    var x := if ks[0].Ph? then Ph(NewIndex(ks[0].n, d, k)) else ks[0];
    var a, b := ToksOne(x, d), Toks(Moved(ks[1..], d, k), d);
    var u, v := ToksOne(ks[0], d), Toks(ks[1..], d);
    MovedTail(ks, d, k);
    assert Toks(Moved(ks, d, k), d) == a + b && Toks(ks, d) == u + v;
    BindAppend(a, b, all);
    BindAppend(u, v, own);
    SameParts(Bind(a, all), Bind(b, all), Bind(u, own), Bind(v, own));
    BindMovedOne(ks[0], d, k, all, own);
  }

  lemma {:induction false} BindMovedOne(p: Piece, d: Dialect, k: nat, all: seq<Param>, own: seq<Param>)
    requires d != MySql
    ensures var m := if p.Ph? then Ph(NewIndex(p.n, d, k)) else p;
            && |ToksOne(m, d)| == |ToksOne(p, d)|
            && (Bind(ToksOne(m, d), all) == Bind(ToksOne(p, d), own) <==> (p.Ph? ==> Lands(p.n, d, k, all, own)))
  {
    if p.Ph? {
      var m := Ph(NewIndex(p.n, d, k));
      assert Bind(ToksOne(m, d), all) == [BindOne(TPar(m.n), all)];
      assert Bind(ToksOne(p, d), own) == [BindOne(TPar(p.n), own)];
      assert [BindOne(TPar(m.n), all)][0] == BindOne(TPar(m.n), all);
      assert [BindOne(TPar(p.n), own)][0] == BindOne(TPar(p.n), own);
    }
  }

  /** The placeholders of ?n lose their first digit, so those below 10 all become ?k. */
  lemma {:induction false} OneDigit(n: nat, k: nat)
    requires n < 10 && k < WORD
    ensures NewIndex(n, Sqlite, k) == k
  {
    assert |Dec(n)| == 1 && Dec(n)[1..] == "";
  }

  /**
    When the right-hand parameters still land after renumbering: always for $n and @pn; for ?n
    without parameters, or with a single one that is also the last on the left.
   */
  predicate KeepsBindings(l: seq<Param>, r: seq<Param>, d: Dialect) {
    Numbered(d) || r == [] || (|r| == 1 && l != [] && r[0] == l[|l| - 1])
  }

  lemma {:induction false} NumberedLands(l: seq<Param>, r: seq<Param>, d: Dialect, n: nat)
    requires Numbered(d) && 1 <= n <= |r| && |l| + |r| < WORD
    ensures Lands(n, d, |l|, l + r, r)
  {
    NumberedMoves(n, d, |l|);
    assert (l + r)[n + |l| - 1] == r[n - 1];
  }

  lemma {:induction false} DigitLands(l: seq<Param>, r: seq<Param>, n: nat)
    requires 1 <= n <= |r| && n < 10 && |l| + |r| < WORD
    ensures Lands(n, Sqlite, |l|, l + r, r) <==> l != [] && r[n - 1] == l[|l| - 1]
  {
    var k := |l|;
    OneDigit(n, k);
    assert BindOne(TPar(n), r) == To(r[n - 1]);
    if k > 0 {
      assert (l + r)[k - 1] == l[k - 1];
      assert BindOne(TPar(k), l + r) == To(l[k - 1]);
    } else {
      assert BindOne(TPar(0), l + r) == Loose;
    }
  }

  lemma {:induction false} SqliteLands(l: seq<Param>, r: seq<Param>)
    requires Placeholders.Distinct(r) && |l| + |r| < WORD
    ensures (forall n :: 1 <= n <= |r| ==> Lands(n, Sqlite, |l|, l + r, r)) <==> KeepsBindings(l, r, Sqlite)
  {
    if |r| == 1 {
      DigitLands(l, r, 1);
    } else if |r| > 1 {
      DigitLands(l, r, 1);
      DigitLands(l, r, 2);
      assert r[0].name != r[1].name;
      assert !(Lands(1, Sqlite, |l|, l + r, r) && Lands(2, Sqlite, |l|, l + r, r));
    }
  }

  // ---- the pieces of the combined text ----

  const OPEN: seq<Piece> := [S("(")]
  const SHUT: seq<Piece> := [S(")")]

  function Middle(op: SetOp): seq<Piece> { [S(")"), Sp] + OpPieces(op) + [Sp, S("(")] }

  function SetPieces(l: seq<Piece>, op: SetOp, r: seq<Piece>): seq<Piece> {
    OPEN + l + Middle(op) + r + SHUT
  }

  function CteHead(name: string): seq<Piece> { [W("WITH"), Sp, Id(name)] + [Sp, W("AS"), Sp, S("(")] }

  function CtePieces(name: string, l: seq<Piece>, r: seq<Piece>): seq<Piece> {
    CteHead(name) + l + [S(")"), Sp] + r
  }

  lemma {:induction false} MiddleGood(op: SetOp)
    ensures Good(Middle(op))
  {
    E.GoodAppend([S(")"), Sp], OpPieces(op));
    E.GoodAppend([S(")"), Sp] + OpPieces(op), [Sp, S("(")]);
  }

  lemma {:induction false} OpSpelling(op: SetOp, d: Dialect)
    ensures Spell(OpPieces(op), d) == OpText(op)
  {
    if op.UnionAll? {
      assert Spell([W("ALL")], d) == "ALL";
      assert [W("UNION"), Sp, W("ALL")][1..] == [Sp, W("ALL")] && [Sp, W("ALL")][1..] == [W("ALL")];
    }
  }

  lemma {:induction false} MiddleSpelling(op: SetOp, d: Dialect)
    ensures Spell(Middle(op), d) == ") " + OpText(op) + " ("
  {
    OpSpelling(op, d);
    SpellAppend([S(")"), Sp], OpPieces(op), d);
    SpellAppend([S(")"), Sp] + OpPieces(op), [Sp, S("(")], d);
    SpellWord(S(")"), Sp, Sp, d);
    SpellWord(Sp, S("("), Sp, d);
  }

  lemma {:induction false} SpellFive(a: seq<Piece>, b: seq<Piece>, c: seq<Piece>, e: seq<Piece>, f: seq<Piece>, d: Dialect)
    ensures Spell(a + b + c + e + f, d) == Spell(a, d) + Spell(b, d) + Spell(c, d) + Spell(e, d) + Spell(f, d)
  {
    SpellAppend(a, b, d);
    SpellAppend(a + b, c, d);
    SpellAppend(a + b + c, e, d);
    SpellAppend(a + b + c + e, f, d);
  }

  lemma {:induction false} SetSpelling(l: seq<Piece>, op: SetOp, r: seq<Piece>, d: Dialect)
    ensures Spell(SetPieces(l, op, r), d) == "(" + Spell(l, d) + ") " + OpText(op) + " (" + Spell(r, d) + ")"
  {
    SpellFive(OPEN, l, Middle(op), r, SHUT, d);
    SpellWord(S("("), S(")"), Sp, d);
    SpellWord(S(")"), S("("), Sp, d);
    MiddleSpelling(op, d);
    Regroup("(" + Spell(l, d), ") ", OpText(op), " (", Spell(r, d), ")");
  }

  lemma {:induction false} Regroup(a: string, b: string, c: string, e: string, f: string, g: string)
    ensures a + (b + c + e) + f + g == a + b + c + e + f + g
  {
  }

  lemma {:induction false} SetGood(l: seq<Piece>, op: SetOp, r: seq<Piece>)
    requires Good(l) && StatementText.Complete(l) && Good(r) && StatementText.Complete(r)
    ensures Good(SetPieces(l, op, r))
  {
    MiddleGood(op);
    E.GoodAppend(OPEN, l);
    E.GoodAppend(OPEN + l, Middle(op));
    E.GoodAppend(OPEN + l + Middle(op), r);
    E.GoodAppend(OPEN + l + Middle(op) + r, SHUT);
  }

  lemma {:induction false} CteHeadGood(name: string)
    requires Ident(name)
    ensures Good(CteHead(name))
  {
    E.GoodAppend([W("WITH"), Sp, Id(name)], [Sp, W("AS"), Sp, S("(")]);
  }

  lemma {:induction false} CteGood(name: string, l: seq<Piece>, r: seq<Piece>)
    requires Ident(name) && Good(l) && StatementText.Complete(l) && Good(r)
    ensures Good(CtePieces(name, l, r))
  {
    CteHeadGood(name);
    E.GoodAppend(CteHead(name), l);
    E.GoodAppend(CteHead(name) + l, [S(")"), Sp]);
    E.GoodAppend(CteHead(name) + l + [S(")"), Sp], r);
  }

  lemma {:induction false} CteHeadSpelling(name: string, d: Dialect)
    ensures Spell(CteHead(name), d) == "WITH " + SpellOne(Id(name), d) + " AS ("
  {
    SpellWord(W("WITH"), Sp, Id(name), d);
    assert "WITH" + " " == "WITH ";
    AsOpenSpelling(d);
    SpellAppend([W("WITH"), Sp, Id(name)], [Sp, W("AS"), Sp, S("(")], d);
  }

  lemma {:induction false} AsOpenSpelling(d: Dialect)
    ensures Spell([Sp, W("AS"), Sp, S("(")], d) == " AS ("
  {
    SpellWord(Sp, W("AS"), Sp, d);
    SpellWord(Sp, S("("), Sp, d);
    SpellAppend([Sp, W("AS")], [Sp, S("(")], d);
    assert [Sp, W("AS"), Sp, S("(")] == [Sp, W("AS")] + [Sp, S("(")];
    assert " " + "AS" + (" " + "(") == " AS (";
  }

  lemma {:induction false} CteSpelling(name: string, l: seq<Piece>, r: seq<Piece>, d: Dialect)
    ensures Spell(CtePieces(name, l, r), d)
            == "WITH " + SpellOne(Id(name), d) + " AS (" + Spell(l, d) + ") " + Spell(r, d)
  {
    CteHeadSpelling(name, d);
    SpellWord(S(")"), Sp, Sp, d);
    assert ")" + " " == ") ";
    FramedText(CteHead(name), l, [S(")"), Sp], d);
    SpellAppend(CteHead(name) + l + [S(")"), Sp], r, d);
  }

  // ---- compiled statements ----

  /** The outcome of some accepted query. */
  ghost predicate Compiled(c: Compile.Compiled, d: Dialect) {
    exists root: Tree, s: Catalog.Schema, p: Catalog.Policy, lim: Compile.Limits ::
      Compile.CompileTree(root, s, p, lim, d) == Compile.Ok(c)
  }

  lemma {:induction false} MarksInRange(ks: seq<Piece>, n: nat)
    requires forall k :: k in Placeholders.Marks(ks) ==> 1 <= k <= n
    ensures InRange(ks, n)
  {
    if ks != [] {
      assert forall k :: k in Placeholders.Marks(ks[1..]) ==> k in Placeholders.Marks(ks);
      MarksInRange(ks[1..], n);
      forall i | 0 <= i < |ks| && ks[i].Ph?
        ensures 1 <= ks[i].n <= n
      {
        if i == 0 {
          assert ks[0].n in Placeholders.Marks(ks);
        } else {
          assert ks[1..][i - 1] == ks[i];
        }
      }
    }
  }

  lemma {:induction false} CompiledFacts(c: Compile.Compiled, d: Dialect)
    requires Compiled(c, d)
    ensures var ks := St.StmtPieces(c.stmt);
            && Good(ks) && StatementText.Complete(ks) && InRange(ks, |c.params|) && |c.params| <= MAX_PARAMS
            && Placeholders.Known(0, Placeholders.Marks(ks)) == Some(|c.params|) && Placeholders.Distinct(c.params)
  {
    var root: Tree, s: Catalog.Schema, p: Catalog.Policy, lim: Compile.Limits :|
      Compile.CompileTree(root, s, p, lim, d) == Compile.Ok(c);
    var r := CompileProps.TakeApart(root, s, p, lim, d);
    CompileProps.AcceptedIsWf(root, s, p, lim, d);
    StatementText.StmtGood(c.stmt);
    CompileProps.AcceptedInStep(root, s, p, lim, d, c, r);
    Binding.KnownInOrder(Placeholders.Marks(St.StmtPieces(c.stmt)), |c.params|);
    MarksInRange(St.StmtPieces(c.stmt), |c.params|);
  }

  lemma {:induction false} MovedComplete(ks: seq<Piece>, d: Dialect, k: nat)
    requires StatementText.Complete(ks)
    ensures StatementText.Complete(Moved(ks, d, k))
  {
  }

  lemma {:induction false} BindSet(l: seq<Piece>, op: SetOp, r: seq<Piece>, d: Dialect, ps: seq<Param>)
    ensures Bind(Toks(SetPieces(l, op, r), d), ps) ==
            Bind(Toks(OPEN, d), ps) + Bind(Toks(l, d), ps) + Bind(Toks(Middle(op), d), ps) + Bind(Toks(r, d), ps)
            + Bind(Toks(SHUT, d), ps)
  {
    var a, m := OPEN + l, OPEN + l + Middle(op);
    ToksAppend(OPEN, l, d);
    ToksAppend(a, Middle(op), d);
    ToksAppend(m, r, d);
    ToksAppend(m + r, SHUT, d);
    BindAppend(Toks(OPEN, d), Toks(l, d), ps);
    BindAppend(Toks(a, d), Toks(Middle(op), d), ps);
    BindAppend(Toks(m, d), Toks(r, d), ps);
    BindAppend(Toks(m + r, d), Toks(SHUT, d), ps);
  }

  lemma {:induction false} BindCte(name: string, l: seq<Piece>, r: seq<Piece>, d: Dialect, ps: seq<Param>)
    ensures Bind(Toks(CtePieces(name, l, r), d), ps) ==
            Bind(Toks(CteHead(name), d), ps) + Bind(Toks(l, d), ps) + Bind(Toks([S(")"), Sp], d), ps) + Bind(Toks(r, d), ps)
  {
    var a, m := CteHead(name) + l, CteHead(name) + l + [S(")"), Sp];
    ToksAppend(CteHead(name), l, d);
    ToksAppend(a, [S(")"), Sp], d);
    ToksAppend(m, r, d);
    BindAppend(Toks(CteHead(name), d), Toks(l, d), ps);
    BindAppend(Toks(a, d), Toks([S(")"), Sp], d), ps);
    BindAppend(Toks(m, d), Toks(r, d), ps);
  }

  /** The tokens of text that holds no placeholders. */
  function Words(s: string, d: Dialect): seq<Bound> { Bind(LexSql(s, d), []) }

  lemma {:induction false} WordsOf(ks: seq<Piece>, d: Dialect, ps: seq<Param>)
    requires Good(ks) && d != MySql && forall i :: 0 <= i < |ks| ==> !ks[i].Ph?
    ensures Bind(Toks(ks, d), ps) == Words(Spell(ks, d), d)
  {
    LexPieces(ks, d);
    ToksInRange(ks, d, 0);
  }

  lemma {:induction false} MiddlePlain(op: SetOp)
    ensures forall i :: 0 <= i < |Middle(op)| ==> !Middle(op)[i].Ph?
  {
  }

  lemma {:induction false} SetWords(op: SetOp, d: Dialect, ps: seq<Param>)
    requires d != MySql
    ensures Bind(Toks(OPEN, d), ps) == Words("(", d) && Bind(Toks(SHUT, d), ps) == Words(")", d)
    ensures Bind(Toks(Middle(op), d), ps) == Words(") " + OpText(op) + " (", d)
  {
    SpellWord(S("("), S(")"), Sp, d);
    SpellWord(S(")"), S("("), Sp, d);
    WordsOf(OPEN, d, ps);
    WordsOf(SHUT, d, ps);
    MiddleGood(op);
    MiddlePlain(op);
    MiddleSpelling(op, d);
    WordsOf(Middle(op), d, ps);
  }

  lemma {:induction false} CteWords(name: string, d: Dialect, ps: seq<Param>)
    requires d != MySql && Ident(name)
    ensures Bind(Toks(CteHead(name), d), ps) == Words("WITH " + SpellOne(Id(name), d) + " AS (", d)
    ensures Bind(Toks([S(")"), Sp], d), ps) == Words(") ", d)
  {
    CteHeadGood(name);
    CteHeadSpelling(name, d);
    WordsOf(CteHead(name), d, ps);
    SpellWord(S(")"), Sp, Sp, d);
    assert ")" + " " == ") ";
    WordsOf([S(")"), Sp], d, ps);
  }

  /** What a compiled text means with its own parameters: nothing in it is left unbound. */
  function Meaning(c: Compile.Compiled, d: Dialect): seq<Bound> {
    Bind(LexSql(StatementText.Text(c.stmt, d), d), c.params)
  }

  lemma {:induction false} LeftMeaning(c: Compile.Compiled, d: Dialect, more: seq<Param>)
    requires Compiled(c, d) && d != MySql
    ensures Bind(Toks(St.StmtPieces(c.stmt), d), c.params + more) == Meaning(c, d) && Loose !in Meaning(c, d)
  {
    CompiledFacts(c, d);
    LexPieces(St.StmtPieces(c.stmt), d);
    ToksInRange(St.StmtPieces(c.stmt), d, |c.params|);
    BindLeft(Toks(St.StmtPieces(c.stmt), d), c.params, more);
  }

  /** The right-hand text, renumbered and read with both lists, means what it meant exactly under that condition. */
  lemma {:induction false} RightMeaning(c: Compile.Compiled, d: Dialect, before: seq<Param>)
    requires Compiled(c, d) && d != MySql && |before| <= MAX_PARAMS
    ensures |Toks(Moved(St.StmtPieces(c.stmt), d, |before|), d)| == |Meaning(c, d)|
    ensures Bind(Toks(Moved(St.StmtPieces(c.stmt), d, |before|), d), before + c.params) == Meaning(c, d)
            <==> KeepsBindings(before, c.params, d)
  {
    var ks := St.StmtPieces(c.stmt);
    CompiledFacts(c, d);
    LexPieces(ks, d);
    BindMoved(ks, d, |before|, before + c.params, c.params);
    Binding.KnownInOrder(Placeholders.Marks(ks), |c.params|);
    if Numbered(d) {
      forall n | n in Placeholders.Marks(ks)
        ensures Lands(n, d, |before|, before + c.params, c.params)
      {
        NumberedLands(before, c.params, d, n);
      }
    } else {
      SqliteLands(before, c.params);
    }
  }

  lemma {:induction false} SetTextPieces(l: Compile.Compiled, op: SetOp, r: Compile.Compiled, d: Dialect)
    requires Compiled(l, d) && Compiled(r, d)
    ensures var ks := SetPieces(St.StmtPieces(l.stmt), op, Moved(St.StmtPieces(r.stmt), d, |l.params|));
            && SetText(StatementText.Text(l.stmt, d), op, StatementText.Text(r.stmt, d), d, |l.params|) == Spell(ks, d)
            && LexSql(Spell(ks, d), d) == Toks(ks, d)
  {
    CompiledFacts(l, d);
    CompiledFacts(r, d);
    var a, b := St.StmtPieces(l.stmt), St.StmtPieces(r.stmt);
    RebasePieces(b, d, |l.params|);
    MovedGood(b, d, |l.params|);
    MovedComplete(b, d, |l.params|);
    SetSpelling(a, op, Moved(b, d, |l.params|), d);
    SetGood(a, op, Moved(b, d, |l.params|));
    LexPieces(SetPieces(a, op, Moved(b, d, |l.params|)), d);
  }

  /**
    A set operation keeps every binding, that is, read with the joined parameter list the combined
    text is the left branch as it was, the operator, and the right branch as it was, in brackets,
    exactly when KeepsBindings says so of the two lists.
   */
  lemma {:induction false} SetKeepsBindings(l: Compile.Compiled, op: SetOp, r: Compile.Compiled, d: Dialect)
    requires Compiled(l, d) && Compiled(r, d) && d != MySql
    ensures SetMeaning(l, op, r, d) == BothMeanings(l, op, r, d) <==> KeepsBindings(l.params, r.params, d)
  {
    var ps := l.params + r.params;
    var moved := Bind(Toks(Moved(St.StmtPieces(r.stmt), d, |l.params|), d), ps);
    CompiledFacts(l, d);
    SetTextPieces(l, op, r, d);
    BindSet(St.StmtPieces(l.stmt), op, Moved(St.StmtPieces(r.stmt), d, |l.params|), d, ps);
    SetWords(op, d, ps);
    LeftMeaning(l, d, r.params);
    RightMeaning(r, d, l.params);
    OnlyMiddle(Words("(", d) + Meaning(l, d) + Words(") " + OpText(op) + " (", d), moved, Meaning(r, d), Words(")", d));
  }

  /** The combined text, read with the joined parameter list. */
  function SetMeaning(l: Compile.Compiled, op: SetOp, r: Compile.Compiled, d: Dialect): seq<Bound> {
    Bind(LexSql(SetText(StatementText.Text(l.stmt, d), op, StatementText.Text(r.stmt, d), d, |l.params|), d), l.params + r.params)
  }

  /** Each branch with its own parameters, in brackets around the operator. */
  function BothMeanings(l: Compile.Compiled, op: SetOp, r: Compile.Compiled, d: Dialect): seq<Bound> {
    Words("(", d) + Meaning(l, d) + Words(") " + OpText(op) + " (", d) + Meaning(r, d) + Words(")", d)
  }

  lemma {:induction false} OnlyMiddle(a: seq<Bound>, x: seq<Bound>, y: seq<Bound>, z: seq<Bound>)
    requires |x| == |y|
    ensures a + x + z == a + y + z <==> x == y
    ensures a + x == a + y <==> x == y
  {
    SameParts(a, x, a, y);
    SameParts(a + x, z, a + y, z);
  }

  lemma {:induction false} CteTextPieces(name: string, l: Compile.Compiled, r: Compile.Compiled, d: Dialect)
    requires Compiled(l, d) && Compiled(r, d) && Ident(name)
    ensures var ks := CtePieces(name, St.StmtPieces(l.stmt), Moved(St.StmtPieces(r.stmt), d, |l.params|));
            && CteText(name, StatementText.Text(l.stmt, d), StatementText.Text(r.stmt, d), d, |l.params|) == Spell(ks, d)
            && LexSql(Spell(ks, d), d) == Toks(ks, d)
  {
    CompiledFacts(l, d);
    CompiledFacts(r, d);
    var a, b := St.StmtPieces(l.stmt), St.StmtPieces(r.stmt);
    RebasePieces(b, d, |l.params|);
    MovedGood(b, d, |l.params|);
    CteSpelling(name, a, Moved(b, d, |l.params|), d);
    CteGood(name, a, Moved(b, d, |l.params|));
    LexPieces(CtePieces(name, a, Moved(b, d, |l.params|)), d);
  }

  function CteMeaning(name: string, l: Compile.Compiled, r: Compile.Compiled, d: Dialect): seq<Bound> {
    Bind(LexSql(CteText(name, StatementText.Text(l.stmt, d), StatementText.Text(r.stmt, d), d, |l.params|), d), l.params + r.params)
  }

  /** So does WITH, under the same condition, whatever scopes the two queries were compiled in. */
  lemma {:induction false} CteKeepsBindings(name: string, l: Compile.Compiled, r: Compile.Compiled, d: Dialect)
    requires Compiled(l, d) && Compiled(r, d) && d != MySql && Ident(name)
    ensures CteMeaning(name, l, r, d) ==
            Words("WITH " + SpellOne(Id(name), d) + " AS (", d) + Meaning(l, d) + Words(") ", d) + Meaning(r, d)
            <==> KeepsBindings(l.params, r.params, d)
  {
    var ps := l.params + r.params;
    var moved := Bind(Toks(Moved(St.StmtPieces(r.stmt), d, |l.params|), d), ps);
    CompiledFacts(l, d);
    CteTextPieces(name, l, r, d);
    BindCte(name, St.StmtPieces(l.stmt), Moved(St.StmtPieces(r.stmt), d, |l.params|), d, ps);
    CteWords(name, d, ps);
    LeftMeaning(l, d, r.params);
    RightMeaning(r, d, l.params);
    OnlyMiddle(Words("WITH " + SpellOne(Id(name), d) + " AS (", d) + Meaning(l, d) + Words(") ", d), moved, Meaning(r, d), []);
  }

  /** Two texts with one parameter each, and not the same one, are linked wrongly for SQLite. */
  lemma {:induction false} TwoParametersSlip(l: Compile.Compiled, op: SetOp, r: Compile.Compiled)
    requires Compiled(l, Sqlite) && Compiled(r, Sqlite) && |l.params| == |r.params| == 1 && l.params != r.params
    ensures SetMeaning(l, op, r, Sqlite) != BothMeanings(l, op, r, Sqlite)
  {
    OtherParameter(l.params, r.params);
    SetKeepsBindings(l, op, r, Sqlite);
  }

  lemma {:induction false} OtherParameter(l: seq<Param>, r: seq<Param>)
    requires |l| == |r| == 1 && l != r
    ensures !KeepsBindings(l, r, Sqlite)
  {
    assert l[0] == r[0] ==> l == r;
  }

  /** The outcome of an accepted query with the one parameter name. */
  lemma {:induction false} OneParameter(name: string, s: Catalog.Schema, p: Catalog.Policy, lim: Compile.Limits) returns (c: Compile.Compiled)
    requires Samples.Plain(s, p, lim) && Ident(name)
    ensures Compile.CompileTree(Samples.Query([Samples.ParamField(name, "x")], []), s, p, lim, Sqlite) == Compile.Ok(c)
    ensures Compiled(c, Sqlite) && c.params == [Samples.Entry(name)]
  {
    Samples.ParamQuery(name, false, s, p, lim, Sqlite);
    c := Compile.CompileTree(Samples.Query([Samples.ParamField(name, "x")], []), s, p, lim, Sqlite).value;
  }

  /** Two such queries are accepted, so SQLite has a request that is linked wrongly. */
  lemma {:induction false} SqliteSlips(op: SetOp, s: Catalog.Schema, p: Catalog.Policy, lim: Compile.Limits)
    returns (l: Compile.Compiled, r: Compile.Compiled)
    requires Samples.Plain(s, p, lim)
    ensures Compile.CompileTree(Samples.Query([Samples.ParamField("a", "x")], []), s, p, lim, Sqlite) == Compile.Ok(l)
    ensures Compile.CompileTree(Samples.Query([Samples.ParamField("b", "x")], []), s, p, lim, Sqlite) == Compile.Ok(r)
    ensures SetMeaning(l, op, r, Sqlite) != BothMeanings(l, op, r, Sqlite)
  {
    Samples.ShortNames();
    l := OneParameter("a", s, p, lim);
    r := OneParameter("b", s, p, lim);
    assert l.params[0].name != r.params[0].name;
    TwoParametersSlip(l, op, r);
  }

  // ---- when renumbering is right ----

  function Raised(ks: seq<nat>, k: nat): (r: seq<nat>)
    ensures |r| == |ks|
  {
    seq(|ks|, i requires 0 <= i < |ks| => ks[i] + k)
  }

  function NewIndices(ms: seq<nat>, d: Dialect, k: nat): (r: seq<nat>)
    ensures |r| == |ms| && forall i :: 0 <= i < |ms| ==> r[i] == NewIndex(ms[i], d, k)
  {
    if ms == [] then [] else [NewIndex(ms[0], d, k)] + NewIndices(ms[1..], d, k)
  }

  lemma {:induction false} MarksMoved(ks: seq<Piece>, d: Dialect, k: nat)
    requires d != MySql
    ensures Placeholders.Marks(Moved(ks, d, k)) == NewIndices(Placeholders.Marks(ks), d, k)
  {
    if ks != [] {
      var rest := Placeholders.Marks(ks[1..]);
      MarksMoved(ks[1..], d, k);
      MovedTail(ks, d, k);
      if ks[0].Ph? {
        assert ([ks[0].n] + rest)[1..] == rest;
      }
    }
  }

  lemma {:induction false} HasMember(ks: seq<nat>)
    ensures ks != [] ==> exists k :: k in ks
  {
    if ks != [] {
      assert ks[0] in ks;
    }
  }

  lemma {:induction false} NumberedRises(ks: seq<Piece>, d: Dialect, k: nat, n: nat)
    requires Numbered(d) && n <= MAX_PARAMS && k <= MAX_PARAMS && Binding.InOrder(Placeholders.Marks(ks), n)
    ensures Placeholders.Marks(Moved(ks, d, k)) == Raised(Placeholders.Marks(ks), k)
  {
    var marks, moved := Placeholders.Marks(ks), Placeholders.Marks(Moved(ks, d, k));
    MarksMoved(ks, d, k);
    forall i | 0 <= i < |marks|
      ensures moved[i] == Raised(marks, k)[i]
    {
      assert marks[i] in marks;
      NumberedMoves(marks[i], d, k);
    }
  }

  lemma {:induction false} SqliteRises(ks: seq<Piece>, k: nat, n: nat)
    requires n <= MAX_PARAMS && k <= MAX_PARAMS && Binding.InOrder(Placeholders.Marks(ks), n)
    ensures Placeholders.Marks(Moved(ks, Sqlite, k)) == Raised(Placeholders.Marks(ks), k) <==> n == 0
  {
    var marks, moved := Placeholders.Marks(ks), Placeholders.Marks(Moved(ks, Sqlite, k));
    MarksMoved(ks, Sqlite, k);
    HasMember(marks);
    if n > 0 {
      assert 1 in marks;
      assert marks[0] in marks;
      SqliteMovesOnlyZero(marks[0], k);
      assert moved[0] != Raised(marks, k)[0];
    }
  }

  /**
    Moving a compiled text by k raises all its placeholders by k exactly when the dialect writes
    $n or @pn, or the text has no parameters at all: ?n loses its first digit on the way.
   */
  lemma {:induction false} RenumberingExactly(c: Compile.Compiled, d: Dialect, k: nat)
    requires Compiled(c, d) && d != MySql && k <= MAX_PARAMS
    ensures var text := StatementText.Text(c.stmt, d);
            Binding.Holes(LexSql(Rebased(text, d, k), d)) == Raised(Binding.Holes(LexSql(text, d)), k)
            <==> Numbered(d) || c.params == []
  {
    CompiledFacts(c, d);
    PiecesRise(St.StmtPieces(c.stmt), d, k, |c.params|);
  }

  lemma {:induction false} PiecesRise(ks: seq<Piece>, d: Dialect, k: nat, n: nat)
    requires Good(ks) && Placeholders.Known(0, Placeholders.Marks(ks)) == Some(n)
    requires d != MySql && n <= MAX_PARAMS && k <= MAX_PARAMS
    ensures Binding.Holes(LexSql(Rebased(Spell(ks, d), d, k), d)) == Raised(Binding.Holes(LexSql(Spell(ks, d), d)), k)
            <==> Numbered(d) || n == 0
  {
    HolesMoved(ks, d, k);
    Binding.KnownInOrder(Placeholders.Marks(ks), n);
    if d == Sqlite {
      SqliteRises(ks, k, n);
    } else {
      NumberedRises(ks, d, k, n);
    }
  }

  lemma {:induction false} HolesMoved(ks: seq<Piece>, d: Dialect, k: nat)
    requires Good(ks) && d != MySql
    ensures Binding.Holes(LexSql(Spell(ks, d), d)) == Placeholders.Marks(ks)
    ensures Binding.Holes(LexSql(Rebased(Spell(ks, d), d, k), d)) == Placeholders.Marks(Moved(ks, d, k))
  {
    RebasePieces(ks, d, k);
    MovedGood(ks, d, k);
    LexPieces(ks, d);
    LexPieces(Moved(ks, d, k), d);
    Binding.HolesOfPieces(ks, d);
    Binding.HolesOfPieces(Moved(ks, d, k), d);
  }

  // ---- the linker ----

  /** Undefined where the C code itself has no defined behaviour. */
  datatype Linked = Combined(sql: string, params: seq<Param>) | Refused | Undefined

  /** nlsql_compile_set from the point where both sides have been compiled. */
  method CompileSet(l: string, lp: seq<Param>, op: SetOp, r: string, rp: seq<Param>, d: Dialect, maxBytes: nat) returns (x: Linked)
    ensures var text := SetText(l, op, r, d, |lp|);
            x == if |lp| + |rp| <= MAX_PARAMS && |text| + 1 <= maxBytes && |text| + 1 <= TOP
                 then Combined(text, lp + rp) else Refused
  {
    if |lp| + |rp| > MAX_PARAMS {
      return Refused;
    }
    var b := new Buf(maxBytes);
    var parts := ["(", l, ") ", OpText(op), " ("];
    JoinedFive("(", l, ") ", OpText(op), " (");
    var ok := PutText(b, parts, r, d, |lp|);
    if ok {
      ok := b.Put(")");
    }
    x := Finish(b, ok, lp, rp);
  }

  /**
    nlsql_compile_cte from the same point. It does not count the parameters, so two queries with
    more than 128 in all make it write past the end of the list.
   */
  method CompileCte(name: string, l: string, lp: seq<Param>, r: string, rp: seq<Param>, d: Dialect, maxBytes: nat) returns (x: Linked)
    ensures var text := CteText(name, l, r, d, |lp|);
            x == if |text| + 1 > maxBytes || |text| + 1 > TOP then Refused
                 else if |lp| + |rp| > MAX_PARAMS then Undefined else Combined(text, lp + rp)
  {
    var b := new Buf(maxBytes);
    var parts := ["WITH ", SpellOne(Id(name), d), " AS (", l, ") "];
    JoinedFive("WITH ", SpellOne(Id(name), d), " AS (", l, ") ");
    var ok := PutText(b, parts, r, d, |lp|);
    x := Finish(b, ok, lp, rp);
  }

  function Joined(ts: seq<string>): string {
    if ts == [] then "" else ts[0] + Joined(ts[1..])
  }

  lemma {:induction false} JoinedCons(a: string, ts: seq<string>)
    ensures Joined([a] + ts) == a + Joined(ts)
  {
    assert ([a] + ts)[1..] == ts;
  }

  lemma {:induction false} JoinedFive(a: string, b: string, c: string, e: string, f: string)
    ensures Joined([a, b, c, e, f]) == a + b + c + e + f
  {
    JoinedCons(e, [f]);
    JoinedCons(c, [e, f]);
    JoinedCons(b, [c, e, f]);
    JoinedCons(a, [b, c, e, f]);
  }

  lemma {:induction false} JoinedTake(ts: seq<string>, i: nat)
    requires i < |ts|
    ensures Joined(ts[..i + 1]) == Joined(ts[..i]) + ts[i]
    ensures |Joined(ts[..i + 1])| <= |Joined(ts)|
  {
    if i == 0 {
      assert ts[..1][1..] == [];
    } else {
      JoinedTake(ts[1..], i - 1);
      assert ts[..i + 1][1..] == ts[1..][..i] && ts[..i][1..] == ts[1..][..i - 1];
    }
  }

  /** A chain of puts, given up at the first that fails. */
  method PutAll(b: Buf, ts: seq<string>) returns (ok: bool)
    requires b.Valid() && ts != []
    modifies b, b.s
    ensures b.Valid() && (b.s == old(b.s) || fresh(b.s))
    ensures ok <==> |old(b.text)| + |Joined(ts)| + 1 <= b.Ceiling()
    ensures ok ==> b.text == old(b.text) + Joined(ts)
  {
    ok := true;
    for i := 0 to |ts|
      invariant b.Valid() && (b.s == old(b.s) || fresh(b.s))
      invariant b.text == old(b.text) + Joined(ts[..i]) && (i > 0 ==> |b.text| + 1 <= b.Ceiling())
    {
      JoinedTake(ts, i);
      Cat(old(b.text), Joined(ts[..i]), ts[i]);
      ok := b.Put(ts[i]);
      if !ok { return; }
    }
    assert ts[..|ts|] == ts;
    ok := true;
  }

  /** The left part and then the renumbered right-hand text, into an empty buffer. */
  method PutText(b: Buf, parts: seq<string>, r: string, d: Dialect, n: nat) returns (ok: bool)
    requires b.Valid() && b.text == "" && parts != []
    modifies b, b.s
    ensures b.Valid() && (b.s == old(b.s) || fresh(b.s))
    ensures ok <==> |Joined(parts) + Rebased(r, d, n)| + 1 <= b.Ceiling()
    ensures ok ==> b.text == Joined(parts) + Rebased(r, d, n)
  {
    Empty(Joined(parts));
    ok := PutAll(b, parts);
    if ok {
      RebasedHead(r, d, n);
      ok := AppendRebased(b, r, d, n);
    }
  }

  lemma {:induction false} Empty(s: string)
    ensures "" + s == s
  {
  }

  /** The combined parameter list: both sides' entries, copied in order into a list of 128. */
  method Finish(b: Buf, ok: bool, lp: seq<Param>, rp: seq<Param>) returns (x: Linked)
    requires ok ==> b.Valid()
    ensures x == if !ok then Refused else if |lp| + |rp| > MAX_PARAMS then Undefined else Combined(b.text, lp + rp)
  {
    if !ok {
      return Refused;
    }
    var ps: seq<Param> := [];
    for i := 0 to |lp|
      invariant ps == lp[..i] && i <= MAX_PARAMS
    {
      if |ps| == MAX_PARAMS { return Undefined; }
      ps := ps + [lp[i]];
    }
    for i := 0 to |rp|
      invariant ps == lp + rp[..i] && |lp| + i <= MAX_PARAMS
    {
      if |ps| == MAX_PARAMS { return Undefined; }
      ps := ps + [rp[i]];
    }
    return Combined(b.s[..b.n], ps);
  }

  /**
    The guard that nlsql_compile_cte lacks, on two accepted queries: 80 parameters on each side are
    refused by a set operation and undefined under WITH.
   */
  lemma {:induction false} WideSlips(s: Catalog.Schema, p: Catalog.Policy, lim: Compile.Limits, d: Dialect) returns (c: Compile.Compiled)
    requires Samples.Plain(s, p, lim)
    ensures Compile.CompileTree(Samples.Query(Samples.WIDE, []), s, p, lim, d) == Compile.Ok(c)
    ensures |c.params| <= MAX_PARAMS && |c.params| + |c.params| > MAX_PARAMS
  {
    Samples.WideQuery(s, p, lim, d);
    c := Compile.CompileTree(Samples.Query(Samples.WIDE, []), s, p, lim, d).value;
  }
}
