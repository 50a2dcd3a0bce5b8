/**
  emit_expr as it runs: text goes into a bounded buffer, placeholders are numbered in a table of
  fixed size, and the first step that fails stops the rest.
 */
module Emitter {
  import opened Wrappers
  import opened Sexpr
  import opened Decimal
  import opened Catalog
  import opened Emit
  import opened Buffer
  import opened Sql
  import E = SqlExpr

  class ParamTable {
    const slots: array<Param>
    var n: nat
    ghost var items: seq<Param>

    ghost predicate Valid()
      reads this, slots
    {
      slots.Length == MAX_PARAMS && n <= MAX_PARAMS && items == slots[..n]
    }

    constructor ()
      ensures Valid() && fresh(slots) && items == []
    {
      slots := new Param[MAX_PARAMS](_ => Param("", UnknownT, User));
      n, items := 0, [];
    }

    /** The number of p, entered if it is new; 0 on a clash or when the table is full. */
    method ParamIndex(p: Param) returns (idx: nat)
      requires Valid()
      modifies this, slots
      ensures Valid()
      ensures match Index(old(items), p)
              case None => idx == 0 && items == old(items)
              case Some((i, qs)) => idx == i && items == qs
    {
      var i := 0;
      while i < n
        invariant i <= n && forall k :: 0 <= k < i ==> items[k].name != p.name
      {
        if slots[i].name == p.name {
          return if slots[i] == p then i + 1 else 0;
        }
        i := i + 1;
      }
      if n >= MAX_PARAMS {
        return 0;
      }
      slots[n] := p;
      n := n + 1;
      items := items + [p];
      return n;
    }
  }

  // ---- what a step may write ----

  /** The text a step writes and the table after it; None where it gives up. */
  type Out = Option<(string, seq<Param>)>

  function After(a: Out, ps: seq<Param>): seq<Param> { if a.Some? then a.value.1 else ps }

  function Then(a: Out, b: Out): Out {
    if a.Some? && b.Some? then Some((a.value.0 + b.value.0, b.value.1)) else None
  }

  /** A step succeeds exactly when it has something to write and that fits. */
  ghost predicate Done(ok: bool, before: string, text: string, items: seq<Param>, ceiling: nat, out: Out) {
    && (ok <==> out.Some? && |before| + |out.value.0| + 1 <= ceiling)
    && (ok ==> text == before + out.value.0 && items == out.value.1)
  }

  lemma {:induction false} Stopped(before: string, text: string, items: seq<Param>, ceiling: nat, a: Out, b: Out)
    requires Done(false, before, text, items, ceiling, a)
    ensures Done(false, before, text, items, ceiling, Then(a, b))
  {
  }

  lemma {:induction false} WentOn(ok: bool, before: string, text: string, items: seq<Param>, text': string, items': seq<Param>,
                                  ceiling: nat, a: Out, b: Out)
    requires Done(true, before, text, items, ceiling, a) && Done(ok, text, text', items', ceiling, b)
    ensures Done(ok, before, text', items', ceiling, Then(a, b))
  {
    if a.Some? && b.Some? {
      assert before + a.value.0 + b.value.0 == before + (a.value.0 + b.value.0);
    }
  }

  lemma {:induction false} ThenAssoc(a: Out, b: Out, c: Out)
    ensures Then(Then(a, b), c) == Then(a, Then(b, c))
  {
    if a.Some? && b.Some? && c.Some? {
      assert a.value.0 + b.value.0 + c.value.0 == a.value.0 + (b.value.0 + c.value.0);
    }
  }

  function Lit(s: string, ps: seq<Param>): Out { Some((s, ps)) }

  lemma {:induction false} ThenEmpty(a: Out, ps: seq<Param>)
    ensures Then(a, Lit("", After(a, ps))) == a && Then(Lit("", ps), a) == a
  {
    if a.Some? {
      assert a.value.0 + "" == a.value.0 && "" + a.value.0 == a.value.0;
    }
  }

  /** Literal text, if all went well so far. */
  method PutNext(b: Buf, t: ParamTable, s: string, so: bool, ghost before: string, ghost a: Out, ghost ps: seq<Param>) returns (ok: bool)
    requires b.Valid() && t.Valid()
    requires Done(so, before, b.text, t.items, b.Ceiling(), a)
    modifies b, b.s
    ensures b.Valid() && t.Valid() && (b.s == old(b.s) || fresh(b.s))
    ensures Done(ok, before, b.text, t.items, b.Ceiling(), Then(a, Lit(s, After(a, ps))))
  {
    if !so {
      Stopped(before, b.text, t.items, b.Ceiling(), a, Lit(s, After(a, ps)));
      return false;
    }
    ghost var mid := b.text;
    ok := b.Put(s);
    WentOn(ok, before, mid, t.items, b.text, t.items, b.Ceiling(), a, Lit(s, t.items));
  }

  // ---- what each node writes ----

  function Target(x: Tree, src: seq<Source>, s: Schema, d: Dialect, ps: seq<Param>): Out {
    match Number(x, src, s, ps)
    case None => None
    case Some((e, qs)) => Some((Spell(E.Pieces(e), d), qs))
  }

  /** The nodes from the i-th on, each but the first of all after a separator. */
  function ListOut(xs: seq<Tree>, i: nat, sep: string, src: seq<Source>, s: Schema, d: Dialect, ps: seq<Param>): Out
    requires i <= |xs|
    decreases |xs| - i
  {
    if i == |xs| then Lit("", ps)
    else
      var x := Target(xs[i], src, s, d, ps);
      Then(Then(Lit(if i > 0 then sep else "", ps), x), ListOut(xs, i + 1, sep, src, s, d, After(x, ps)))
  }

  /** The same from the expressions: those that follow a first one. */
  function TailText(es: seq<E.Expr>, sep: string, d: Dialect): string {
    if es == [] then "" else sep + Spell(E.Pieces(es[0]), d) + TailText(es[1..], sep, d)
  }

  lemma {:induction false} SepText(es: seq<E.Expr>, sep: seq<Piece>, d: Dialect)
    requires es != []
    ensures Spell(E.PiecesSep(es, sep), d) == Spell(E.Pieces(es[0]), d) + TailText(es[1..], Spell(sep, d), d)
  {
    var x := Spell(E.Pieces(es[0]), d);
    if |es| == 1 {
      assert es[1..] == [] && x + "" == x;
    } else {
      var rest := es[1..];
      SepText(rest, sep, d);
      SpellAppend(E.Pieces(es[0]), sep, d);
      SpellAppend(E.Pieces(es[0]) + sep, E.PiecesSep(rest, sep), d);
      Regroup(x, Spell(sep, d), Spell(E.Pieces(rest[0]), d), TailText(rest[1..], Spell(sep, d), d));
    }
  }

  lemma {:induction false} Regroup(a: string, b: string, c: string, e: string)
    ensures a + b + (c + e) == a + (b + c + e)
  {
  }

  lemma {:induction false} ListOutTail(xs: seq<Tree>, i: nat, sep: string, src: seq<Source>, s: Schema, d: Dialect, ps: seq<Param>)
    requires 0 < i <= |xs|
    ensures ListOut(xs, i, sep, src, s, d, ps) ==
            match NumberAll(xs[i..], src, s, ps) case None => None case Some((es, qs)) => Some((TailText(es, sep, d), qs))
    decreases |xs| - i
  {
    if i < |xs| {
      assert xs[i..][0] == xs[i] && xs[i..][1..] == xs[i + 1..];
      var n := Number(xs[i], src, s, ps);
      if n.Some? {
        ListOutTail(xs, i + 1, sep, src, s, d, n.value.1);
        var more := NumberAll(xs[i + 1..], src, s, n.value.1);
        if more.Some? {
          TailCons(n.value.0, more.value.0, sep, d);
        }
      }
    }
  }

  lemma {:induction false} TailCons(e: E.Expr, es: seq<E.Expr>, sep: string, d: Dialect)
    ensures TailText([e] + es, sep, d) == sep + Spell(E.Pieces(e), d) + TailText(es, sep, d)
  {
    assert ([e] + es)[1..] == es;
  }

  /** A list of nodes writes its expressions with separators between them. */
  lemma {:induction false} ListTarget(xs: seq<Tree>, sep: seq<Piece>, src: seq<Source>, s: Schema, d: Dialect, ps: seq<Param>)
    ensures ListOut(xs, 0, Spell(sep, d), src, s, d, ps) ==
            match NumberAll(xs, src, s, ps)
            case None => None
            case Some((es, qs)) => Some((Spell(E.PiecesSep(es, sep), d), qs))
  {
    if xs != [] {
      var n := Number(xs[0], src, s, ps);
      if n.Some? {
        ListOutTail(xs, 1, Spell(sep, d), src, s, d, n.value.1);
        var more := NumberAll(xs[1..], src, s, n.value.1);
        if more.Some? {
          assert ([n.value.0] + more.value.0)[1..] == more.value.0;
          SepText([n.value.0] + more.value.0, sep, d);
          var x := Spell(E.Pieces(n.value.0), d);
          assert "" + x == x;
        }
      }
    }
  }

  // ---- literal parts ----

  function BinText(op: E.BinOp): string { " " + E.Sym(op) + " " }

  lemma {:induction false} Literals(d: Dialect)
    ensures Spell([S("(")], d) == "(" && Spell([S(")")], d) == ")"
    ensures Spell(E.COMMA, d) == ", " && Spell(E.AND, d) == " AND " && Spell(E.OR, d) == " OR "
  {
    SpellWord(S("("), Sp, Sp, d);
    SpellWord(S(")"), Sp, Sp, d);
    SpellWord(S(","), Sp, Sp, d);
    SpellWord(Sp, W("AND"), Sp, d);
    SpellWord(Sp, W("OR"), Sp, d);
    assert "," + " " == ", " && " " + "AND" + " " == " AND " && " " + "OR" + " " == " OR ";
  }

  lemma {:induction false} CommaText(d: Dialect)
    ensures Spell(E.COMMA, d) == ", "
  {
    Literals(d);
  }

  lemma {:induction false} BinSpelling(op: E.BinOp, l: E.Expr, r: E.Expr, d: Dialect)
    ensures Spell(E.Pieces(E.Bin(op, l, r)), d) == "(" + Spell(E.Pieces(l), d) + BinText(op) + Spell(E.Pieces(r), d) + ")"
  {
    Literals(d);
    SpellWord(Sp, S(E.Sym(op)), Sp, d);
    SpellAppend([S("(")], E.Pieces(l), d);
    SpellAppend([S("(")] + E.Pieces(l), E.Infix(op), d);
    SpellAppend([S("(")] + E.Pieces(l) + E.Infix(op), E.Pieces(r), d);
    SpellAppend([S("(")] + E.Pieces(l) + E.Infix(op) + E.Pieces(r), [S(")")], d);
  }

  lemma {:induction false} ColSpelling(a: string, c: string, d: Dialect)
    ensures Spell(E.Pieces(E.Col(a, c)), d) == SpellOne(Id(a), d) + "." + SpellOne(Id(c), d)
  {
    SpellWord(Id(a), S("."), Id(c), d);
  }

  lemma {:induction false} NotSpelling(e: E.Expr, d: Dialect)
    ensures Spell(E.Pieces(E.Not(e)), d) == "(NOT " + Spell(E.Pieces(e), d) + ")"
  {
    Literals(d);
    SpellWord(S("("), W("NOT"), Sp, d);
    assert "(" + "NOT" + " " == "(NOT ";
    FramedText([S("("), W("NOT"), Sp], E.Pieces(e), [S(")")], d);
  }

  function NullText(negated: bool): string { if negated then " IS NOT NULL)" else " IS NULL)" }

  lemma {:induction false} IsText(d: Dialect)
    ensures Spell([Sp, W("IS"), Sp], d) == " IS " && Spell([W("NOT"), Sp], d) == "NOT " && Spell([W("NULL"), S(")")], d) == "NULL)"
  {
    SpellWord(Sp, W("IS"), Sp, d);
    SpellWord(W("NOT"), Sp, Sp, d);
    SpellWord(W("NULL"), S(")"), Sp, d);
    assert " " + "IS" + " " == " IS " && "NOT" + " " == "NOT " && "NULL" + ")" == "NULL)";
  }

  lemma {:induction false} NullTextIs(negated: bool, d: Dialect)
    ensures Spell(E.NullTest(negated), d) == NullText(negated)
  {
    var a, b, z := [Sp, W("IS"), Sp], [W("NOT"), Sp], [W("NULL"), S(")")];
    IsText(d);
    if negated {
      FramedText(a, b, z, d);
      assert a + b + z == E.NullTest(true);
      assert " IS " + "NOT " + "NULL)" == " IS NOT NULL)";
    } else {
      SpellAppend(a, z, d);
      assert a + z == E.NullTest(false);
      assert " IS " + "NULL)" == " IS NULL)";
    }
  }

  lemma {:induction false} NullSpelling(e: E.Expr, negated: bool, d: Dialect)
    ensures Spell(E.Pieces(E.IsNull(e, negated)), d) == "(" + Spell(E.Pieces(e), d) + NullText(negated)
  {
    Literals(d);
    NullTextIs(negated, d);
    FramedText([S("(")], E.Pieces(e), E.NullTest(negated), d);
  }

  function CallText(f: string, distinct: bool): string { f + "(" + if distinct then "DISTINCT " else "" }

  lemma {:induction false} CallHeadSpelling(f: string, distinct: bool, d: Dialect)
    ensures Spell(E.CallHead(f, distinct), d) == CallText(f, distinct)
  {
    SpellWord(W(f), S("("), Sp, d);
    SpellWord(W("DISTINCT"), Sp, Sp, d);
    SpellAppend([W(f), S("(")], [W("DISTINCT"), Sp], d);
    assert "DISTINCT" + " " == "DISTINCT ";
    assert distinct ==> E.CallHead(f, distinct) == [W(f), S("(")] + [W("DISTINCT"), Sp];
    assert !distinct ==> E.CallHead(f, distinct) == [W(f), S("(")];
  }

  lemma {:induction false} CallSpelling(f: string, distinct: bool, es: seq<E.Expr>, d: Dialect)
    ensures Spell(E.Pieces(E.Call(f, distinct, es)), d) == CallText(f, distinct) + Spell(E.PiecesSep(es, E.COMMA), d) + ")"
  {
    Literals(d);
    CallHeadSpelling(f, distinct, d);
    FramedText(E.CallHead(f, distinct), E.PiecesSep(es, E.COMMA), [S(")")], d);
  }

  lemma {:induction false} JunctionSpelling(es: seq<E.Expr>, d: Dialect)
    ensures Spell(E.Pieces(E.And(es)), d) == "(" + Spell(E.PiecesSep(es, E.AND), d) + ")"
    ensures Spell(E.Pieces(E.Or(es)), d) == "(" + Spell(E.PiecesSep(es, E.OR), d) + ")"
  {
    Literals(d);
    FramedText([S("(")], E.PiecesSep(es, E.AND), [S(")")], d);
    FramedText([S("(")], E.PiecesSep(es, E.OR), [S(")")], d);
  }

  function DirText(desc: bool): string { if desc then " DESC" else " ASC" }

  lemma {:induction false} OverHead(d: Dialect)
    ensures Spell([Sp, W("OVER"), Sp, S("(")], d) == " OVER ("
  {
    SpellWord(Sp, W("OVER"), Sp, d);
    SpellWord(S("("), Sp, Sp, d);
    SpellAppend([Sp, W("OVER"), Sp], [S("(")], d);
    assert [Sp, W("OVER"), Sp] + [S("(")] == [Sp, W("OVER"), Sp, S("(")];
    assert " " + "OVER" + " " + "(" == " OVER (";
  }

  lemma {:induction false} PartitionText(d: Dialect)
    ensures Spell([W("PARTITION"), Sp, W("BY"), Sp], d) == "PARTITION BY "
  {
    SpellWord(W("PARTITION"), Sp, W("BY"), d);
    SpellWord(Sp, Sp, Sp, d);
    SpellAppend([W("PARTITION"), Sp, W("BY")], [Sp], d);
    assert [W("PARTITION"), Sp, W("BY")] + [Sp] == [W("PARTITION"), Sp, W("BY"), Sp];
    assert "PARTITION" + " " + "BY" + " " == "PARTITION BY ";
  }

  lemma {:induction false} OrderText(d: Dialect)
    ensures Spell(E.ORDER, d) == " ORDER BY "
  {
    SpellWord(Sp, W("ORDER"), Sp, d);
    SpellWord(W("BY"), Sp, Sp, d);
    SpellAppend([Sp, W("ORDER"), Sp], [W("BY"), Sp], d);
    assert [Sp, W("ORDER"), Sp] + [W("BY"), Sp] == E.ORDER;
    assert " " + "ORDER" + " " + ("BY" + " ") == " ORDER BY ";
  }

  lemma {:induction false} OverText(d: Dialect)
    ensures Spell(E.OVER, d) == " OVER (" + "PARTITION BY "
  {
    OverHead(d);
    PartitionText(d);
    SpellAppend([Sp, W("OVER"), Sp, S("(")], [W("PARTITION"), Sp, W("BY"), Sp], d);
  }

  lemma {:induction false} DirSpelling(desc: bool, d: Dialect)
    ensures Spell(E.Direction(desc), d) == DirText(desc)
    ensures Spell(E.Direction(desc) + [S(")")], d) == DirText(desc) + ")"
  {
    SpellWord(Sp, W(if desc then "DESC" else "ASC"), Sp, d);
    SpellWord(S(")"), Sp, Sp, d);
    SpellAppend(E.Direction(desc), [S(")")], d);
    assert " " + "DESC" == " DESC" && " " + "ASC" == " ASC";
  }

  lemma {:induction false} OverSpelling(a: E.Expr, part: seq<E.Expr>, o: E.Expr, desc: bool, d: Dialect)
    ensures Spell(E.Pieces(E.Over(a, part, o, desc)), d) ==
            Spell(E.Pieces(a), d) + (" OVER (" + "PARTITION BY ") + Spell(E.PiecesSep(part, E.COMMA), d) + " ORDER BY "
            + Spell(E.Pieces(o), d) + (DirText(desc) + ")")
  {
    OverText(d);
    OrderText(d);
    DirSpelling(desc, d);
    var x, p, y, z := E.Pieces(a), E.PiecesSep(part, E.COMMA), E.Pieces(o), E.Direction(desc) + [S(")")];
    FramedText(x, E.OVER, p, d);
    FramedText(x + E.OVER + p, E.ORDER, y, d);
    SpellAppend(x + E.OVER + p + E.ORDER + y, z, d);
  }

  // ---- the chain of each kind of node ----

  /** a, then literal text. */
  function AndLit(a: Out, s: string, ps: seq<Param>): Out { Then(a, Lit(s, After(a, ps))) }

  /** a, then a node. */
  function AndNode(a: Out, x: Tree, src: seq<Source>, s: Schema, d: Dialect, ps: seq<Param>): Out {
    Then(a, Target(x, src, s, d, After(a, ps)))
  }

  /** a, then a list of nodes. */
  function AndList(a: Out, xs: seq<Tree>, sep: string, src: seq<Source>, s: Schema, d: Dialect, ps: seq<Param>): Out {
    Then(a, ListOut(xs, 0, sep, src, s, d, After(a, ps)))
  }

  lemma {:induction false} BinaryChain(x: Tree, src: seq<Source>, s: Schema, d: Dialect, ps: seq<Param>)
    requires ShapeOf(x).BinaryS?
    ensures var (op, l, r) := (ShapeOf(x).op, ShapeOf(x).l, ShapeOf(x).r);
            Target(x, src, s, d, ps) ==
            AndLit(AndNode(AndLit(AndNode(Lit("(", ps), l, src, s, d, ps), BinText(op), ps), r, src, s, d, ps), ")", ps)
  {
    ShapeSmaller(x);
    var op, l, r := ShapeOf(x).op, ShapeOf(x).l, ShapeOf(x).r;
    var n := Number(l, src, s, ps);
    if n.Some? {
      var m := Number(r, src, s, n.value.1);
      if m.Some? {
        BinSpelling(op, n.value.0, m.value.0, d);
      }
    }
  }

  lemma {:induction false} JunctionChain(x: Tree, src: seq<Source>, s: Schema, d: Dialect, ps: seq<Param>)
    requires ShapeOf(x).JunctionS?
    ensures Target(x, src, s, d, ps) ==
            AndLit(AndList(Lit("(", ps), ShapeOf(x).args, if ShapeOf(x).and then " AND " else " OR ", src, s, d, ps), ")", ps)
  {
    ShapeSmaller(x);
    Literals(d);
    var args := ShapeOf(x).args;
    ListTarget(args, if ShapeOf(x).and then E.AND else E.OR, src, s, d, ps);
    var n := NumberAll(args, src, s, ps);
    if n.Some? {
      JunctionSpelling(n.value.0, d);
    }
  }

  lemma {:induction false} ListChain(x: Tree, src: seq<Source>, s: Schema, d: Dialect, ps: seq<Param>)
    requires ShapeOf(x).ListS?
    ensures Target(x, src, s, d, ps) ==
            AndLit(AndList(Lit(CallText(ShapeOf(x).fn, false), ps), ShapeOf(x).args, ", ", src, s, d, ps), ")", ps)
  {
    ShapeSmaller(x);
    Literals(d);
    ListTarget(ShapeOf(x).args, E.COMMA, src, s, d, ps);
    var n := NumberAll(ShapeOf(x).args, src, s, ps);
    if n.Some? {
      CallSpelling(ShapeOf(x).fn, false, n.value.0, d);
    }
  }

  lemma {:induction false} UnaryChain(x: Tree, src: seq<Source>, s: Schema, d: Dialect, ps: seq<Param>)
    requires ShapeOf(x).UnaryS?
    ensures Target(x, src, s, d, ps) ==
            AndLit(AndNode(Lit(CallText(ShapeOf(x).fn, ShapeOf(x).distinct), ps), ShapeOf(x).arg, src, s, d, ps), ")", ps)
  {
    ShapeSmaller(x);
    var n := Number(ShapeOf(x).arg, src, s, ps);
    if n.Some? {
      CallSpelling(ShapeOf(x).fn, ShapeOf(x).distinct, [n.value.0], d);
    }
  }

  lemma {:induction false} NotChain(x: Tree, src: seq<Source>, s: Schema, d: Dialect, ps: seq<Param>)
    requires ShapeOf(x).NotS?
    ensures Target(x, src, s, d, ps) == AndLit(AndNode(Lit("(NOT ", ps), ShapeOf(x).arg, src, s, d, ps), ")", ps)
  {
    ShapeSmaller(x);
    var n := Number(ShapeOf(x).arg, src, s, ps);
    if n.Some? {
      NotSpelling(n.value.0, d);
    }
  }

  lemma {:induction false} NullChain(x: Tree, src: seq<Source>, s: Schema, d: Dialect, ps: seq<Param>)
    requires ShapeOf(x).NullS?
    ensures Target(x, src, s, d, ps) ==
            AndLit(AndNode(Lit("(", ps), ShapeOf(x).arg, src, s, d, ps), NullText(ShapeOf(x).negated), ps)
  {
    ShapeSmaller(x);
    var n := Number(ShapeOf(x).arg, src, s, ps);
    if n.Some? {
      NullSpelling(n.value.0, ShapeOf(x).negated, d);
    }
  }

  lemma {:induction false} WindowChain(x: Tree, src: seq<Source>, s: Schema, d: Dialect, ps: seq<Param>)
    requires ShapeOf(x).WindowS?
    ensures var w := ShapeOf(x);
            var head := AndLit(Target(w.arg, src, s, d, ps), " OVER (" + "PARTITION BY ", ps);
            Target(x, src, s, d, ps) ==
            AndLit(AndNode(AndLit(AndList(head, w.part, ", ", src, s, d, ps), " ORDER BY ", ps), w.order, src, s, d, ps),
                   DirText(w.desc) + ")", ps)
  {
    ShapeSmaller(x);
    CommaText(d);
    var w := ShapeOf(x);
    var n := Number(w.arg, src, s, ps);
    if n.Some? {
      ListTarget(w.part, E.COMMA, src, s, d, n.value.1);
      var m := NumberAll(w.part, src, s, n.value.1);
      if m.Some? {
        var o := Number(w.order, src, s, m.value.1);
        if o.Some? {
          OverSpelling(n.value.0, m.value.0, o.value.0, w.desc, d);
        }
      }
    }
  }

  // ---- the emitter ----

  /** A node, if all went well so far. */
  method NodeNext(b: Buf, t: ParamTable, x: Tree, src: seq<Source>, s: Schema, d: Dialect,
                  so: bool, ghost before: string, ghost a: Out, ghost ps: seq<Param>) returns (ok: bool)
    requires b.Valid() && t.Valid()
    requires Done(so, before, b.text, t.items, b.Ceiling(), a)
    modifies b, b.s, t, t.slots
    ensures b.Valid() && t.Valid() && (b.s == old(b.s) || fresh(b.s))
    ensures Done(ok, before, b.text, t.items, b.Ceiling(), AndNode(a, x, src, s, d, ps))
    decreases Weight(x), 5
  {
    if !so {
      Stopped(before, b.text, t.items, b.Ceiling(), a, Target(x, src, s, d, After(a, ps)));
      return false;
    }
    ghost var mid, items := b.text, t.items;
    ok := EmitExpr(b, t, x, src, s, d);
    WentOn(ok, before, mid, items, b.text, t.items, b.Ceiling(), a, Target(x, src, s, d, items));
  }

  function AndItem(acc: Out, xs: seq<Tree>, i: nat, sep: string, src: seq<Source>, s: Schema, d: Dialect, ps: seq<Param>): Out
    requires i < |xs|
  {
    AndNode(AndLit(acc, if i > 0 then sep else "", ps), xs[i], src, s, d, ps)
  }

  lemma {:induction false} ListStep(acc: Out, xs: seq<Tree>, i: nat, sep: string, src: seq<Source>, s: Schema, d: Dialect, ps: seq<Param>)
    requires i < |xs|
    ensures var now := AndItem(acc, xs, i, sep, src, s, d, ps);
            Then(now, ListOut(xs, i + 1, sep, src, s, d, After(now, ps))) == Then(acc, ListOut(xs, i, sep, src, s, d, After(acc, ps)))
  {
    var q := After(acc, ps);
    var lit, x := Lit(if i > 0 then sep else "", q), Target(xs[i], src, s, d, q);
    var rest := ListOut(xs, i + 1, sep, src, s, d, After(x, q));
    ThenAssoc(acc, lit, x);
    ThenAssoc(acc, Then(lit, x), rest);
  }

  /** The nodes of xs with separators between them, if all went well so far. */
  method ListNext(b: Buf, t: ParamTable, xs: seq<Tree>, sep: string, src: seq<Source>, s: Schema, d: Dialect,
                  so: bool, ghost before: string, ghost a: Out, ghost ps: seq<Param>) returns (ok: bool)
    requires b.Valid() && t.Valid()
    requires Done(so, before, b.text, t.items, b.Ceiling(), a)
    modifies b, b.s, t, t.slots
    ensures b.Valid() && t.Valid() && (b.s == old(b.s) || fresh(b.s))
    ensures Done(ok, before, b.text, t.items, b.Ceiling(), AndList(a, xs, sep, src, s, d, ps))
    decreases WeightAll(xs), 7
  {
    ok := so;
    var i := 0;
    ghost var acc := a;
    while ok && i < |xs|
      invariant 0 <= i <= |xs|
      invariant b.Valid() && t.Valid() && (b.s == old(b.s) || fresh(b.s))
      invariant Done(ok, before, b.text, t.items, b.Ceiling(), acc)
      invariant Then(acc, ListOut(xs, i, sep, src, s, d, After(acc, ps))) == AndList(a, xs, sep, src, s, d, ps)
      decreases |xs| - i
    {
      ListStep(acc, xs, i, sep, src, s, d, ps);
      ok := ListItem(b, t, xs, i, sep, src, s, d, before, acc, ps);
      acc := AndItem(acc, xs, i, sep, src, s, d, ps);
      i := i + 1;
    }
    ListEnds(ok, before, b.text, t.items, b.Ceiling(), acc, xs, i, sep, src, s, d, ps);
  }

  lemma {:induction false} ListEnds(ok: bool, before: string, text: string, items: seq<Param>, ceiling: nat, acc: Out,
                                    xs: seq<Tree>, i: nat, sep: string, src: seq<Source>, s: Schema, d: Dialect, ps: seq<Param>)
    requires i <= |xs| && (ok ==> i == |xs|) && Done(ok, before, text, items, ceiling, acc)
    ensures Done(ok, before, text, items, ceiling, Then(acc, ListOut(xs, i, sep, src, s, d, After(acc, ps))))
  {
    if ok {
      ThenEmpty(acc, ps);
    } else {
      Stopped(before, text, items, ceiling, acc, ListOut(xs, i, sep, src, s, d, After(acc, ps)));
    }
  }

  /** One turn of the loop: a separator except before the first node, and the node. */
  method ListItem(b: Buf, t: ParamTable, xs: seq<Tree>, i: nat, sep: string, src: seq<Source>, s: Schema, d: Dialect,
                  ghost before: string, ghost acc: Out, ghost ps: seq<Param>) returns (ok: bool)
    requires b.Valid() && t.Valid() && i < |xs|
    requires Done(true, before, b.text, t.items, b.Ceiling(), acc)
    modifies b, b.s, t, t.slots
    ensures b.Valid() && t.Valid() && (b.s == old(b.s) || fresh(b.s))
    ensures Done(ok, before, b.text, t.items, b.Ceiling(), AndItem(acc, xs, i, sep, src, s, d, ps))
    decreases WeightAll(xs), 6
  {
    WeightMember(xs, i);
    ok := true;
    if i > 0 {
      ok := PutNext(b, t, sep, ok, before, acc, ps);
    } else {
      ThenEmpty(acc, ps);
    }
    ok := NodeNext(b, t, xs[i], src, s, d, ok, before, AndLit(acc, if i > 0 then sep else "", ps), ps);
  }

  /** The first thing a node writes. */
  method PutFirst(b: Buf, t: ParamTable, text: string) returns (ok: bool)
    requires b.Valid() && t.Valid()
    modifies b, b.s
    ensures b.Valid() && t.Valid() && (b.s == old(b.s) || fresh(b.s))
    ensures Done(ok, old(b.text), b.text, t.items, b.Ceiling(), Lit(text, t.items))
  {
    ok := b.Put(text);
  }

  /**
    Writes the text of a node and enters its parameters. Succeeds exactly when the node has a
    meaning and its text fits; then the text is that of the numbered expression and the table is
    the one that numbering leaves.
   */
  method EmitExpr(b: Buf, t: ParamTable, x: Tree, src: seq<Source>, s: Schema, d: Dialect) returns (ok: bool)
    requires b.Valid() && t.Valid()
    modifies b, b.s, t, t.slots
    ensures b.Valid() && t.Valid() && (b.s == old(b.s) || fresh(b.s))
    ensures Done(ok, old(b.text), b.text, t.items, b.Ceiling(), Target(x, src, s, d, old(t.items)))
    decreases Weight(x), 4
  {
    match ShapeOf(x) {
      case NoShape => ok := false;
      case ColumnS(_, _) => ok := EmitColumn(b, t, x, src, s, d);
      case ParamS(_, _) => ok := EmitParam(b, t, x, src, s, d);
      case RefS(_) => ok := EmitRef(b, t, x, src, s, d);
      case WindowS(_, _, _, _) => ok := EmitWindow(b, t, x, src, s, d);
      case UnaryS(_, _, _) => ok := EmitUnary(b, t, x, src, s, d);
      case BinaryS(_, _, _) => ok := EmitBinary(b, t, x, src, s, d);
      case JunctionS(_, _) => ok := EmitJunction(b, t, x, src, s, d);
      case NotS(_) => ok := EmitNot(b, t, x, src, s, d);
      case NullS(_, _) => ok := EmitNullTest(b, t, x, src, s, d);
      case ListS(_, _) => ok := EmitList(b, t, x, src, s, d);
    }
  }

  method EmitColumn(b: Buf, t: ParamTable, x: Tree, src: seq<Source>, s: Schema, d: Dialect) returns (ok: bool)
    requires b.Valid() && t.Valid() && ShapeOf(x).ColumnS?
    modifies b, b.s
    ensures b.Valid() && t.Valid() && (b.s == old(b.s) || fresh(b.s))
    ensures Done(ok, old(b.text), b.text, t.items, b.Ceiling(), Target(x, src, s, d, t.items))
  {
    var a, c := ShapeOf(x).alias, ShapeOf(x).col;
    var i := 0;
    while i < |src| && src[i].alias != a
      invariant 0 <= i <= |src| && forall k :: 0 <= k < i ==> src[k].alias != a
    {
      i := i + 1;
    }
    assert i == SourceIndex(src, a);
    if i == |src| || ColFind(s, src[i].schema, src[i].table, c).None? {
      return false;
    }
    ColSpelling(a, c, d);
    ghost var ps := t.items;
    ghost var out := Lit(SpellOne(Id(a), d), ps);
    ok := PutFirst(b, t, SpellOne(Id(a), d));
    ok := PutNext(b, t, ".", ok, old(b.text), out, ps);
    ok := PutNext(b, t, SpellOne(Id(c), d), ok, old(b.text), AndLit(out, ".", ps), ps);
  }

  /** emit_param: the mark and the number, or a bare mark. */
  function ParamText(idx: nat, d: Dialect): string { SpellOne(Ph(idx), d) }

  lemma {:induction false} ParSpelling(i: nat, d: Dialect)
    ensures Spell(E.Pieces(E.Par(i)), d) == ParamText(i, d)
  {
    SpellWord(Ph(i), Sp, Sp, d);
  }

  method EmitParam(b: Buf, t: ParamTable, x: Tree, src: seq<Source>, s: Schema, d: Dialect) returns (ok: bool)
    requires b.Valid() && t.Valid() && ShapeOf(x).ParamS?
    modifies b, b.s, t, t.slots
    ensures b.Valid() && t.Valid() && (b.s == old(b.s) || fresh(b.s))
    ensures Done(ok, old(b.text), b.text, t.items, b.Ceiling(), Target(x, src, s, d, old(t.items)))
  {
    var idx := t.ParamIndex(Param(ShapeOf(x).name, ShapeOf(x).ty, User));
    if idx == 0 {
      return false;
    }
    ParSpelling(idx, d);
    ok := PutFirst(b, t, ParamText(idx, d));
  }

  method EmitRef(b: Buf, t: ParamTable, x: Tree, src: seq<Source>, s: Schema, d: Dialect) returns (ok: bool)
    requires b.Valid() && t.Valid() && ShapeOf(x).RefS?
    modifies b, b.s
    ensures b.Valid() && t.Valid() && (b.s == old(b.s) || fresh(b.s))
    ensures Done(ok, old(b.text), b.text, t.items, b.Ceiling(), Target(x, src, s, d, t.items))
  {
    SpellWord(Id(ShapeOf(x).name), Sp, Sp, d);
    ok := PutFirst(b, t, SpellOne(Id(ShapeOf(x).name), d));
  }

  method EmitBinary(b: Buf, t: ParamTable, x: Tree, src: seq<Source>, s: Schema, d: Dialect) returns (ok: bool)
    requires b.Valid() && t.Valid() && ShapeOf(x).BinaryS?
    modifies b, b.s, t, t.slots
    ensures b.Valid() && t.Valid() && (b.s == old(b.s) || fresh(b.s))
    ensures Done(ok, old(b.text), b.text, t.items, b.Ceiling(), Target(x, src, s, d, old(t.items)))
    decreases Weight(x), 3
  {
    ShapeSmaller(x);
    BinaryChain(x, src, s, d, t.items);
    var op, l, r := ShapeOf(x).op, ShapeOf(x).l, ShapeOf(x).r;
    ghost var ps, before := t.items, b.text;
    ghost var a1 := Lit("(", ps);
    ok := PutFirst(b, t, "(");
    ok := NodeNext(b, t, l, src, s, d, ok, before, a1, ps);
    ghost var a2 := AndNode(a1, l, src, s, d, ps);
    ok := PutNext(b, t, BinText(op), ok, before, a2, ps);
    ghost var a3 := AndLit(a2, BinText(op), ps);
    ok := NodeNext(b, t, r, src, s, d, ok, before, a3, ps);
    ok := PutNext(b, t, ")", ok, before, AndNode(a3, r, src, s, d, ps), ps);
  }

  method EmitJunction(b: Buf, t: ParamTable, x: Tree, src: seq<Source>, s: Schema, d: Dialect) returns (ok: bool)
    requires b.Valid() && t.Valid() && ShapeOf(x).JunctionS?
    modifies b, b.s, t, t.slots
    ensures b.Valid() && t.Valid() && (b.s == old(b.s) || fresh(b.s))
    ensures Done(ok, old(b.text), b.text, t.items, b.Ceiling(), Target(x, src, s, d, old(t.items)))
    decreases Weight(x), 3
  {
    ShapeSmaller(x);
    JunctionChain(x, src, s, d, t.items);
    var sep := if ShapeOf(x).and then " AND " else " OR ";
    ghost var ps, before := t.items, b.text;
    ok := PutFirst(b, t, "(");
    ok := ListNext(b, t, ShapeOf(x).args, sep, src, s, d, ok, before, Lit("(", ps), ps);
    ok := PutNext(b, t, ")", ok, before, AndList(Lit("(", ps), ShapeOf(x).args, sep, src, s, d, ps), ps);
  }

  method EmitList(b: Buf, t: ParamTable, x: Tree, src: seq<Source>, s: Schema, d: Dialect) returns (ok: bool)
    requires b.Valid() && t.Valid() && ShapeOf(x).ListS?
    modifies b, b.s, t, t.slots
    ensures b.Valid() && t.Valid() && (b.s == old(b.s) || fresh(b.s))
    ensures Done(ok, old(b.text), b.text, t.items, b.Ceiling(), Target(x, src, s, d, old(t.items)))
    decreases Weight(x), 3
  {
    ShapeSmaller(x);
    ListChain(x, src, s, d, t.items);
    var head := CallText(ShapeOf(x).fn, false);
    ghost var ps, before := t.items, b.text;
    ok := PutFirst(b, t, head);
    ok := ListNext(b, t, ShapeOf(x).args, ", ", src, s, d, ok, before, Lit(head, ps), ps);
    ok := PutNext(b, t, ")", ok, before, AndList(Lit(head, ps), ShapeOf(x).args, ", ", src, s, d, ps), ps);
  }

  method EmitUnary(b: Buf, t: ParamTable, x: Tree, src: seq<Source>, s: Schema, d: Dialect) returns (ok: bool)
    requires b.Valid() && t.Valid() && ShapeOf(x).UnaryS?
    modifies b, b.s, t, t.slots
    ensures b.Valid() && t.Valid() && (b.s == old(b.s) || fresh(b.s))
    ensures Done(ok, old(b.text), b.text, t.items, b.Ceiling(), Target(x, src, s, d, old(t.items)))
    decreases Weight(x), 3
  {
    ShapeSmaller(x);
    UnaryChain(x, src, s, d, t.items);
    var head := CallText(ShapeOf(x).fn, ShapeOf(x).distinct);
    ghost var ps, before := t.items, b.text;
    ok := PutFirst(b, t, head);
    ok := NodeNext(b, t, ShapeOf(x).arg, src, s, d, ok, before, Lit(head, ps), ps);
    ok := PutNext(b, t, ")", ok, before, AndNode(Lit(head, ps), ShapeOf(x).arg, src, s, d, ps), ps);
  }

  method EmitNot(b: Buf, t: ParamTable, x: Tree, src: seq<Source>, s: Schema, d: Dialect) returns (ok: bool)
    requires b.Valid() && t.Valid() && ShapeOf(x).NotS?
    modifies b, b.s, t, t.slots
    ensures b.Valid() && t.Valid() && (b.s == old(b.s) || fresh(b.s))
    ensures Done(ok, old(b.text), b.text, t.items, b.Ceiling(), Target(x, src, s, d, old(t.items)))
    decreases Weight(x), 3
  {
    ShapeSmaller(x);
    NotChain(x, src, s, d, t.items);
    ghost var ps, before := t.items, b.text;
    ok := PutFirst(b, t, "(NOT ");
    ok := NodeNext(b, t, ShapeOf(x).arg, src, s, d, ok, before, Lit("(NOT ", ps), ps);
    ok := PutNext(b, t, ")", ok, before, AndNode(Lit("(NOT ", ps), ShapeOf(x).arg, src, s, d, ps), ps);
  }

  method EmitNullTest(b: Buf, t: ParamTable, x: Tree, src: seq<Source>, s: Schema, d: Dialect) returns (ok: bool)
    requires b.Valid() && t.Valid() && ShapeOf(x).NullS?
    modifies b, b.s, t, t.slots
    ensures b.Valid() && t.Valid() && (b.s == old(b.s) || fresh(b.s))
    ensures Done(ok, old(b.text), b.text, t.items, b.Ceiling(), Target(x, src, s, d, old(t.items)))
    decreases Weight(x), 3
  {
    ShapeSmaller(x);
    NullChain(x, src, s, d, t.items);
    var tail := NullText(ShapeOf(x).negated);
    ghost var ps, before := t.items, b.text;
    ok := PutFirst(b, t, "(");
    ok := NodeNext(b, t, ShapeOf(x).arg, src, s, d, ok, before, Lit("(", ps), ps);
    ok := PutNext(b, t, tail, ok, before, AndNode(Lit("(", ps), ShapeOf(x).arg, src, s, d, ps), ps);
  }

  method EmitWindow(b: Buf, t: ParamTable, x: Tree, src: seq<Source>, s: Schema, d: Dialect) returns (ok: bool)
    requires b.Valid() && t.Valid() && ShapeOf(x).WindowS?
    modifies b, b.s, t, t.slots
    ensures b.Valid() && t.Valid() && (b.s == old(b.s) || fresh(b.s))
    ensures Done(ok, old(b.text), b.text, t.items, b.Ceiling(), Target(x, src, s, d, old(t.items)))
    decreases Weight(x), 3
  {
    ShapeSmaller(x);
    WindowChain(x, src, s, d, t.items);
    var over := " OVER (" + "PARTITION BY ";
    var tail := DirText(ShapeOf(x).desc) + ")";
    ghost var ps, before := t.items, b.text;
    ghost var a1 := Target(ShapeOf(x).arg, src, s, d, ps);
    ok := EmitExpr(b, t, ShapeOf(x).arg, src, s, d);
    ok := PutNext(b, t, over, ok, before, a1, ps);
    ghost var a2 := AndLit(a1, over, ps);
    ok := ListNext(b, t, ShapeOf(x).part, ", ", src, s, d, ok, before, a2, ps);
    ghost var a3 := AndList(a2, ShapeOf(x).part, ", ", src, s, d, ps);
    ok := PutNext(b, t, " ORDER BY ", ok, before, a3, ps);
    ghost var a4 := AndLit(a3, " ORDER BY ", ps);
    ok := NodeNext(b, t, ShapeOf(x).order, src, s, d, ok, before, a4, ps);
    ok := PutNext(b, t, tail, ok, before, AndNode(a4, ShapeOf(x).order, src, s, d, ps), ps);
  }
}
