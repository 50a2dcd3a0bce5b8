/**
  Linked text whose placeholders carry no numbers. The right-hand side is always found where it
  was; the left-hand side runs over into the right-hand parameters if it has a repeated one.
 */
module LinkPositions {
  import opened Wrappers
  import opened Sql
  import opened Emit
  import Catalog
  import Sexpr
  import Compile
  import CompileProps
  import Binding
  import Placeholders
  import Positional
  import Rebase
  import St = Statement
  import StatementText
  import Link

  /** The tokens with the k-th placeholder looked up as the k-th entry, the first one counting as number k. */
  function ByPosition(ts: seq<Tok>, k: nat, ps: seq<Param>): seq<Link.Bound> {
    Link.Bind(Positional.Counted(ts, k), ps)
  }

  lemma {:induction false} ByPositionCons(ts: seq<Tok>, k: nat, ps: seq<Param>)
    requires ts != []
    ensures ts[0].TPar? ==> ByPosition(ts, k, ps) == [Link.BindOne(TPar(k), ps)] + ByPosition(ts[1..], k + 1, ps)
    ensures !ts[0].TPar? ==> ByPosition(ts, k, ps) == [Link.Lit(ts[0])] + ByPosition(ts[1..], k, ps)
    ensures Binding.Holes(ts) == (if ts[0].TPar? then [ts[0].n] else []) + Binding.Holes(ts[1..])
  {
  }

  lemma {:induction false} ByPositionLength(ts: seq<Tok>, k: nat, ps: seq<Param>)
    ensures |ByPosition(ts, k, ps)| == |ts|
  {
    if ts != [] {
      ByPositionCons(ts, k, ps);
      ByPositionLength(ts[1..], if ts[0].TPar? then k + 1 else k, ps);
    }
  }

  lemma {:induction false} ByPositionAppend(a: seq<Tok>, b: seq<Tok>, k: nat, ps: seq<Param>)
    ensures ByPosition(a + b, k, ps) == ByPosition(a, k, ps) + ByPosition(b, k + |Binding.Holes(a)|, ps)
  {
    if a == [] {
      assert a + b == b;
    } else {
      var k' := if a[0].TPar? then k + 1 else k;
      var x := [if a[0].TPar? then Link.BindOne(TPar(k), ps) else Link.Lit(a[0])];
      assert (a + b)[1..] == a[1..] + b && (a + b)[0] == a[0];
      ByPositionCons(a, k, ps);
      ByPositionCons(a + b, k, ps);
      ByPositionAppend(a[1..], b, k', ps);
      assert k' + |Binding.Holes(a[1..])| == k + |Binding.Holes(a)|;
      Cat(x, ByPosition(a[1..], k', ps), ByPosition(b, k + |Binding.Holes(a)|, ps));
    }
  }

  lemma {:induction false} HolesAppend(a: seq<Tok>, b: seq<Tok>)
    ensures Binding.Holes(a + b) == Binding.Holes(a) + Binding.Holes(b)
  {
    if a == [] {
      assert a + b == b;
    } else {
      assert (a + b)[1..] == a[1..] + b && (a + b)[0] == a[0];
      HolesAppend(a[1..], b);
    }
  }

  /** Words without placeholders mean the same anywhere. */
  lemma {:induction false} PlainWords(ts: seq<Tok>, k: nat, ps: seq<Param>)
    requires Binding.Holes(ts) == []
    ensures ByPosition(ts, k, ps) == Link.Bind(ts, [])
  {
    if ts != [] {
      ByPositionCons(ts, k, ps);
      PlainWords(ts[1..], k, ps);
      assert ts == [ts[0]] + ts[1..];
      Link.BindAppend([ts[0]], ts[1..], []);
    }
  }

  /** Behind |l| placeholders the entries of r are found where they were in r alone. */
  lemma {:induction false} RightKept(ts: seq<Tok>, k: nat, l: seq<Param>, r: seq<Param>)
    requires k >= 1
    ensures ByPosition(ts, k + |l|, l + r) == ByPosition(ts, k, r)
  {
    if ts != [] {
      ByPositionCons(ts, k + |l|, l + r);
      ByPositionCons(ts, k, r);
      RightKept(ts[1..], if ts[0].TPar? then k + 1 else k, l, r);
    }
  }

  /** In front they are kept exactly when there are not too many, or nothing follows. */
  lemma {:induction false} LeftKept(ts: seq<Tok>, k: nat, l: seq<Param>, r: seq<Param>)
    requires 1 <= k <= |l| + 1
    ensures ByPosition(ts, k, l + r) == ByPosition(ts, k, l) <==> r == [] || k + |Binding.Holes(ts)| <= |l| + 1
  {
    if r == [] {
      assert l + r == l;
    } else if ts != [] {
      var k' := if ts[0].TPar? then k + 1 else k;
      var x := if ts[0].TPar? then Link.BindOne(TPar(k), l + r) else Link.Lit(ts[0]);
      var y := if ts[0].TPar? then Link.BindOne(TPar(k), l) else Link.Lit(ts[0]);
      ByPositionCons(ts, k, l + r);
      ByPositionCons(ts, k, l);
      SameParts([x], ByPosition(ts[1..], k', l + r), [y], ByPosition(ts[1..], k', l));
      assert [x] == [y] <==> x == y by {
        assert [x][0] == x && [y][0] == y;
      }
      if ts[0].TPar? && k > |l| {
        assert x == Link.To(r[0]) && y == Link.Loose;
      } else {
        assert x == y;
        LeftKept(ts[1..], k', l, r);
      }
    }
  }

  lemma {:induction false} FourParts(h: seq<Tok>, a: seq<Tok>, m: seq<Tok>, b: seq<Tok>, ps: seq<Param>)
    requires Binding.Holes(h) == Binding.Holes(m) == []
    ensures ByPosition(h + a + m + b, 1, ps) ==
            Link.Bind(h, []) + ByPosition(a, 1, ps) + Link.Bind(m, []) + ByPosition(b, 1 + |Binding.Holes(a)|, ps)
  {
    HolesAppend(h, a);
    HolesAppend(h + a, m);
    ByPositionAppend(h + a + m, b, 1, ps);
    ByPositionAppend(h + a, m, 1, ps);
    ByPositionAppend(h, a, 1, ps);
    PlainWords(h, 1, ps);
    PlainWords(m, 1 + |Binding.Holes(h + a)|, ps);
  }


  /** Two texts put one behind the other, with words before and between them. */
  lemma {:induction false} PartsKept(h: seq<Tok>, a: seq<Tok>, m: seq<Tok>, b: seq<Tok>, l: seq<Param>, r: seq<Param>)
    requires Binding.Holes(h) == Binding.Holes(m) == []
    requires |Binding.Holes(a)| >= |l| && (r == [] ==> Binding.Holes(b) == [])
    ensures ByPosition(h + a + m + b, 1, l + r) ==
            Link.Bind(h, []) + ByPosition(a, 1, l) + Link.Bind(m, []) + ByPosition(b, 1, r)
            <==> r == [] || |Binding.Holes(a)| == |l|
  {
    FourParts(h, a, m, b, l + r);
    LeftKept(a, 1, l, r);
    ByPositionLength(a, 1, l);
    ByPositionLength(a, 1, l + r);
    if r == [] {
      PlainWords(b, 1 + |Binding.Holes(a)|, l + r);
      PlainWords(b, 1, r);
    } else if |Binding.Holes(a)| == |l| {
      RightKept(b, 1, l, r);
    } else {
      WrongLeft(Link.Bind(h, []), ByPosition(a, 1, l + r), ByPosition(a, 1, l), Link.Bind(m, []),
        ByPosition(b, 1 + |Binding.Holes(a)|, l + r), ByPosition(b, 1, r));
    }
  }

  lemma {:induction false} WrongLeft(h: seq<Link.Bound>, x: seq<Link.Bound>, y: seq<Link.Bound>, m: seq<Link.Bound>,
                                     b: seq<Link.Bound>, e: seq<Link.Bound>)
    requires |x| == |y| && x != y
    ensures h + x + m + b != h + y + m + e
  {
    SameParts(h + x + m, b, h + y + m, e);
    SameParts(h + x, m, h + y, m);
    SameParts(h, x, h, y);
  }

  // ---- compiled statements ----

  /** The placeholders of an accepted text are as many as its parameters exactly when none repeats. */
  lemma {:induction false} OneEach(root: Sexpr.Tree, s: Catalog.Schema, p: Catalog.Policy, lim: Compile.Limits)
    requires Compile.CompileTree(root, s, p, lim, MySql).Ok?
    ensures var c := Compile.CompileTree(root, s, p, lim, MySql).value;
            && |c.params| <= |Binding.HolesOf(c.stmt, MySql)|
            && (|Binding.HolesOf(c.stmt, MySql)| == |c.params| <==> Positional.NoRepeats(root, s, p, lim))
  {
    var c := Compile.CompileTree(root, s, p, lim, MySql).value;
    var r := CompileProps.TakeApart(root, s, p, lim, MySql);
    Binding.HolesOfStmt(root, s, p, lim, MySql);
    OneEachOfRun(root, s, p, lim, c, r);
  }

  lemma {:induction false} OneEachOfRun(root: Sexpr.Tree, s: Catalog.Schema, p: Catalog.Policy, lim: Compile.Limits,
                                        c: Compile.Compiled, r: CompileProps.Run)
    requires CompileProps.Accepted(root, s, p, lim, MySql, c, r)
    ensures var ks := Placeholders.Marks(St.StmtPieces(c.stmt));
            |c.params| <= |ks| && (|ks| == |c.params| <==> Binding.NoneRepeated(CompileProps.AllSites(r, p)))
  {
    CompileProps.AcceptedInStep(root, s, p, lim, MySql, c, r);
    Enough(Placeholders.Marks(St.StmtPieces(c.stmt)), CompileProps.AllSites(r, p), c.params);
  }

  lemma {:induction false} Enough(ks: seq<nat>, sites: seq<Param>, ps: seq<Param>)
    requires Placeholders.Known(0, ks) == Some(|ps|) && Placeholders.Denote(ks, sites, ps) && Placeholders.Distinct(ps)
    ensures |ps| <= |ks| && (|ks| == |ps| <==> Binding.NoneRepeated(sites))
  {
    Binding.KnownLength(0, ks);
    Binding.PositionsMatch(ks, sites, ps);
    if |ks| == |ps| {
      InPlace(ks, sites, ps);
    }
  }

  lemma {:induction false} InPlace(ks: seq<nat>, sites: seq<Param>, ps: seq<Param>)
    requires Placeholders.Denote(ks, sites, ps) && |ks| == |ps| && forall i :: 0 <= i < |ks| ==> ks[i] == i + 1
    ensures ps == sites
  {
  }

  lemma {:induction false} NoHoles(c: Compile.Compiled)
    requires Link.Compiled(c, MySql) && c.params == []
    ensures Binding.HolesOf(c.stmt, MySql) == []
  {
    var ks := St.StmtPieces(c.stmt);
    Link.CompiledFacts(c, MySql);
    Binding.KnownInOrder(Placeholders.Marks(ks), 0);
    Link.HasMember(Placeholders.Marks(ks));
    LexPieces(ks, MySql);
    Binding.HolesOfPieces(ks, MySql);
  }

  /** What a text without numbers means with its own parameters. */
  function Meaning(c: Compile.Compiled): seq<Link.Bound> {
    ByPosition(LexSql(StatementText.Text(c.stmt, MySql), MySql), 1, c.params)
  }

  lemma {:induction false} PlainPieces(ks: seq<Piece>)
    requires forall i :: 0 <= i < |ks| ==> !ks[i].Ph?
    ensures Binding.Holes(Toks(ks, MySql)) == []
  {
    Placeholders.NoMarks(ks);
    Binding.HolesOfPieces(ks, MySql);
  }

  /** Words that hold no placeholder are the tokens of their text. */
  lemma {:induction false} WordsAre(ks: seq<Piece>)
    requires Good(ks) && forall i :: 0 <= i < |ks| ==> !ks[i].Ph?
    ensures Binding.Holes(Toks(ks, MySql)) == [] && Link.Bind(Toks(ks, MySql), []) == Link.Words(Spell(ks, MySql), MySql)
  {
    PlainPieces(ks);
    LexPieces(ks, MySql);
  }

  /** The combined text of two requests, read by position with the joined parameter list. */
  function SetMeaning(l: Compile.Compiled, op: Link.SetOp, r: Compile.Compiled): seq<Link.Bound> {
    var text := Link.SetText(StatementText.Text(l.stmt, MySql), op, StatementText.Text(r.stmt, MySql), MySql, |l.params|);
    ByPosition(LexSql(text, MySql), 1, l.params + r.params)
  }

  function CteMeaning(name: string, l: Compile.Compiled, r: Compile.Compiled): seq<Link.Bound> {
    var text := Link.CteText(name, StatementText.Text(l.stmt, MySql), StatementText.Text(r.stmt, MySql), MySql, |l.params|);
    ByPosition(LexSql(text, MySql), 1, l.params + r.params)
  }

  lemma {:induction false} NotMoved(ks: seq<Piece>, k: nat)
    ensures Rebase.Moved(ks, MySql, k) == ks
  {
  }

  lemma {:induction false} TextTokens(c: Compile.Compiled)
    requires Link.Compiled(c, MySql)
    ensures LexSql(StatementText.Text(c.stmt, MySql), MySql) == Toks(St.StmtPieces(c.stmt), MySql)
  {
    Link.CompiledFacts(c, MySql);
    LexPieces(St.StmtPieces(c.stmt), MySql);
  }

  lemma {:induction false} SetTokens(l: Compile.Compiled, op: Link.SetOp, r: Compile.Compiled)
    requires Link.Compiled(l, MySql) && Link.Compiled(r, MySql)
    ensures var a, b := LexSql(StatementText.Text(l.stmt, MySql), MySql), LexSql(StatementText.Text(r.stmt, MySql), MySql);
            LexSql(Link.SetText(StatementText.Text(l.stmt, MySql), op, StatementText.Text(r.stmt, MySql), MySql, |l.params|), MySql)
            == Toks(Link.OPEN, MySql) + a + Toks(Link.Middle(op), MySql) + (b + Toks(Link.SHUT, MySql))
  {
    var a, b := St.StmtPieces(l.stmt), St.StmtPieces(r.stmt);
    Link.SetTextPieces(l, op, r, MySql);
    NotMoved(b, |l.params|);
    TextTokens(l);
    TextTokens(r);
    ToksAppend(Link.OPEN, a, MySql);
    ToksAppend(Link.OPEN + a, Link.Middle(op), MySql);
    ToksAppend(Link.OPEN + a + Link.Middle(op), b, MySql);
    ToksAppend(Link.OPEN + a + Link.Middle(op) + b, Link.SHUT, MySql);
    Cat(Toks(Link.OPEN + a + Link.Middle(op), MySql), Toks(b, MySql), Toks(Link.SHUT, MySql));
  }

  lemma {:induction false} CteTokens(name: string, l: Compile.Compiled, r: Compile.Compiled)
    requires Link.Compiled(l, MySql) && Link.Compiled(r, MySql) && Ident(name)
    ensures var a, b := LexSql(StatementText.Text(l.stmt, MySql), MySql), LexSql(StatementText.Text(r.stmt, MySql), MySql);
            LexSql(Link.CteText(name, StatementText.Text(l.stmt, MySql), StatementText.Text(r.stmt, MySql), MySql, |l.params|), MySql)
            == Toks(Link.CteHead(name), MySql) + a + Toks([S(")"), Sp], MySql) + b
  {
    var h, a, b := Link.CteHead(name), St.StmtPieces(l.stmt), St.StmtPieces(r.stmt);
    Link.CteTextPieces(name, l, r, MySql);
    NotMoved(b, |l.params|);
    TextTokens(l);
    TextTokens(r);
    ToksAppend(h, a, MySql);
    ToksAppend(h + a, [S(")"), Sp], MySql);
    ToksAppend(h + a + [S(")"), Sp], b, MySql);
  }

  lemma {:induction false} ClosedRight(b: seq<Tok>, z: seq<Tok>, r: seq<Param>)
    requires Binding.Holes(z) == []
    ensures ByPosition(b + z, 1, r) == ByPosition(b, 1, r) + Link.Bind(z, []) && Binding.Holes(b + z) == Binding.Holes(b)
  {
    ByPositionAppend(b, z, 1, r);
    PlainWords(z, 1 + |Binding.Holes(b)|, r);
    HolesAppend(b, z);
  }

  /**
    For MySQL a set operation keeps every binding, that is, the combined text read by position is
    both branches as they were, exactly when no parameter repeats on the left or there is none on
    the right. Repeated parameters on the right do no more harm than they did alone.
   */
  lemma {:induction false} SetKeepsPositions(root: Sexpr.Tree, s: Catalog.Schema, p: Catalog.Policy, lim: Compile.Limits,
                                             l: Compile.Compiled, op: Link.SetOp, r: Compile.Compiled)
    requires Compile.CompileTree(root, s, p, lim, MySql) == Compile.Ok(l) && Link.Compiled(r, MySql)
    ensures SetMeaning(l, op, r) ==
            Link.Words("(", MySql) + Meaning(l) + Link.Words(") " + Link.OpText(op) + " (", MySql)
            + (Meaning(r) + Link.Words(")", MySql))
            <==> Positional.NoRepeats(root, s, p, lim) || r.params == []
  {
    var z := Toks(Link.SHUT, MySql);
    var a, b := LexSql(StatementText.Text(l.stmt, MySql), MySql), LexSql(StatementText.Text(r.stmt, MySql), MySql);
    SetTokens(l, op, r);
    SetFrame(op);
    ClosedRight(b, z, r.params);
    OneEach(root, s, p, lim);
    if r.params == [] {
      NoHoles(r);
    }
    PartsKept(Toks(Link.OPEN, MySql), a, Toks(Link.Middle(op), MySql), b + z, l.params, r.params);
  }

  lemma {:induction false} SetFrame(op: Link.SetOp)
    ensures Binding.Holes(Toks(Link.OPEN, MySql)) == Binding.Holes(Toks(Link.Middle(op), MySql)) == Binding.Holes(Toks(Link.SHUT, MySql)) == []
    ensures Link.Bind(Toks(Link.OPEN, MySql), []) == Link.Words("(", MySql)
    ensures Link.Bind(Toks(Link.Middle(op), MySql), []) == Link.Words(") " + Link.OpText(op) + " (", MySql)
    ensures Link.Bind(Toks(Link.SHUT, MySql), []) == Link.Words(")", MySql)
  {
    Link.MiddleGood(op);
    Link.MiddlePlain(op);
    Link.MiddleSpelling(op, MySql);
    SpellWord(S("("), S(")"), Sp, MySql);
    SpellWord(S(")"), S("("), Sp, MySql);
    WordsAre(Link.OPEN);
    WordsAre(Link.Middle(op));
    WordsAre(Link.SHUT);
  }

  /** So does WITH. */
  lemma {:induction false} CteKeepsPositions(root: Sexpr.Tree, s: Catalog.Schema, p: Catalog.Policy, lim: Compile.Limits,
                                             name: string, l: Compile.Compiled, r: Compile.Compiled)
    requires Compile.CompileTree(root, s, p, lim, MySql) == Compile.Ok(l) && Link.Compiled(r, MySql) && Ident(name)
    ensures CteMeaning(name, l, r) ==
            Link.Words("WITH " + SpellOne(Id(name), MySql) + " AS (", MySql) + Meaning(l) + Link.Words(") ", MySql) + Meaning(r)
            <==> Positional.NoRepeats(root, s, p, lim) || r.params == []
  {
    var a, b := LexSql(StatementText.Text(l.stmt, MySql), MySql), LexSql(StatementText.Text(r.stmt, MySql), MySql);
    CteTokens(name, l, r);
    CteFrame(name);
    OneEach(root, s, p, lim);
    if r.params == [] {
      NoHoles(r);
    }
    PartsKept(Toks(Link.CteHead(name), MySql), a, Toks([S(")"), Sp], MySql), b, l.params, r.params);
  }

  lemma {:induction false} CteFrame(name: string)
    requires Ident(name)
    ensures Binding.Holes(Toks(Link.CteHead(name), MySql)) == Binding.Holes(Toks([S(")"), Sp], MySql)) == []
    ensures Link.Bind(Toks(Link.CteHead(name), MySql), []) == Link.Words("WITH " + SpellOne(Id(name), MySql) + " AS (", MySql)
    ensures Link.Bind(Toks([S(")"), Sp], MySql), []) == Link.Words(") ", MySql)
  {
    Link.CteHeadGood(name);
    Link.CteHeadSpelling(name, MySql);
    SpellWord(S(")"), Sp, Sp, MySql);
    assert ")" + " " == ") ";
    WordsAre(Link.CteHead(name));
    WordsAre([S(")"), Sp]);
  }
}
