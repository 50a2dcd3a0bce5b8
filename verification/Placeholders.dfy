/**
  Placeholder discipline: the numbers written in the text and the parameter table stay in step.
 */
module Placeholders {
  import opened Wrappers
  import opened Sexpr
  import opened Catalog
  import opened Emit
  import Sql
  import E = SqlExpr

  /** The placeholder numbers of a text, in reading order. */
  function Marks(ps: seq<Sql.Piece>): seq<nat> {
    if ps == [] then [] else if ps[0].Ph? then [ps[0].n] + Marks(ps[1..]) else Marks(ps[1..])
  }

  lemma {:induction false} MarksAppend(a: seq<Sql.Piece>, b: seq<Sql.Piece>)
    ensures Marks(a + b) == Marks(a) + Marks(b)
  {
    if a == [] {
      assert a + b == b;
    } else {
      MarksAppend(a[1..], b);
      assert (a + b)[1..] == a[1..] + b && (a + b)[0] == a[0];
    }
  }

  lemma {:induction false} NoMarks(ps: seq<Sql.Piece>)
    requires forall i :: 0 <= i < |ps| ==> !ps[i].Ph?
    ensures Marks(ps) == []
  {
    if ps != [] {
      assert forall i :: 0 <= i < |ps| - 1 ==> ps[1..][i] == ps[i + 1];
      NoMarks(ps[1..]);
    }
  }

  /**
    Reading numbers from left to right with m known so far: each is known already or is the
    next one. Some(n) gives how many are known in the end.
   */
  function Known(m: nat, ks: seq<nat>): Option<nat>
    decreases |ks|
  {
    if ks == [] then Some(m)
    else if 1 <= ks[0] <= m then Known(m, ks[1..])
    else if ks[0] == m + 1 then Known(m + 1, ks[1..])
    else None
  }

  lemma {:induction false} KnownAppend(m: nat, a: seq<nat>, b: seq<nat>)
    ensures Known(m, a + b) == match Known(m, a) case None => None case Some(n) => Known(n, b)
    decreases |a|
  {
    if a == [] {
      assert a + b == b;
    } else {
      assert (a + b)[1..] == a[1..] + b && (a + b)[0] == a[0];
      KnownAppend(if 1 <= a[0] <= m then m else m + 1, a[1..], b);
    }
  }

  ghost predicate Distinct(ps: seq<Param>) {
    forall i, j :: 0 <= i < j < |ps| ==> ps[i].name != ps[j].name
  }

  /** Each number denotes the entry asked for at its site. */
  ghost predicate Denote(ks: seq<nat>, sites: seq<Param>, ps: seq<Param>) {
    |ks| == |sites| && forall i :: 0 <= i < |ks| ==> 1 <= ks[i] <= |ps| && ps[ks[i] - 1] == sites[i]
  }

  lemma {:induction false} DenoteAppend(a: seq<nat>, x: seq<Param>, b: seq<nat>, y: seq<Param>, ps: seq<Param>, qs: seq<Param>)
    requires Denote(a, x, ps) && Denote(b, y, qs) && ps <= qs
    ensures Denote(a + b, x + y, qs)
  {
  }

  /** The parameters a node asks for, in the order in which it is written. */
  function Sites(x: Tree): seq<Param>
    decreases Weight(x), 0
  {
    ShapeSmaller(x);
    match ShapeOf(x)
    case NoShape => []
    case ColumnS(_, _) => []
    case ParamS(n, ty) => [Param(n, ty, User)]
    case RefS(_) => []
    case WindowS(a, part, o, _) => Sites(a) + SitesAll(part) + Sites(o)
    case UnaryS(_, _, a) => Sites(a)
    case BinaryS(_, l, r) => Sites(l) + Sites(r)
    case JunctionS(_, args) => SitesAll(args)
    case NotS(a) => Sites(a)
    case NullS(_, a) => Sites(a)
    case ListS(_, args) => SitesAll(args)
  }

  function SitesAll(xs: seq<Tree>): seq<Param>
    decreases WeightAll(xs), 1
  {
    if xs == [] then [] else Sites(xs[0]) + SitesAll(xs[1..])
  }

  /** What writing ks with the table going from ps to qs must satisfy, given the sites. */
  ghost predicate InStep(ps: seq<Param>, qs: seq<Param>, ks: seq<nat>, sites: seq<Param>) {
    && ps <= qs && |qs| <= MAX_PARAMS && Distinct(qs)
    && Known(|ps|, ks) == Some(|qs|)
    && Denote(ks, sites, qs)
  }

  lemma {:induction false} Nothing(ps: seq<Param>)
    requires Distinct(ps) && |ps| <= MAX_PARAMS
    ensures InStep(ps, ps, [], [])
  {
  }

  lemma {:induction false} Steps(ps: seq<Param>, qs: seq<Param>, rs: seq<Param>, a: seq<nat>, b: seq<nat>, x: seq<Param>, y: seq<Param>)
    requires InStep(ps, qs, a, x) && InStep(qs, rs, b, y)
    ensures InStep(ps, rs, a + b, x + y)
  {
    KnownAppend(|ps|, a, b);
    DenoteAppend(a, x, b, y, qs, rs);
  }

  /** Asking for one parameter. */
  lemma {:induction false} IndexInStep(ps: seq<Param>, p: Param)
    requires Distinct(ps) && |ps| <= MAX_PARAMS && Index(ps, p).Some?
    ensures var (i, qs) := Index(ps, p).value; InStep(ps, qs, [i], [p])
  {
    var (i, qs) := Index(ps, p).value;
    assert [i][1..] == [];
    assert Known(|ps|, [i]) == Some(|qs|);
  }

  // ---- the marks of each kind of expression ----

  lemma {:induction false} Framed(a: seq<Sql.Piece>, m: seq<Sql.Piece>, z: seq<Sql.Piece>)
    requires (forall i :: 0 <= i < |a| ==> !a[i].Ph?) && (forall i :: 0 <= i < |z| ==> !z[i].Ph?)
    ensures Marks(a + m + z) == Marks(m)
  {
    MarksAppend(a, m);
    MarksAppend(a + m, z);
    NoMarks(a);
    NoMarks(z);
  }

  lemma {:induction false} Parted(a: seq<Sql.Piece>, g: seq<Sql.Piece>, b: seq<Sql.Piece>)
    requires forall i :: 0 <= i < |g| ==> !g[i].Ph?
    ensures Marks(a + g + b) == Marks(a) + Marks(b)
  {
    MarksAppend(a, g);
    MarksAppend(a + g, b);
    NoMarks(g);
  }

  function MarksEach(es: seq<E.Expr>): seq<nat> {
    if es == [] then [] else Marks(E.Pieces(es[0])) + MarksEach(es[1..])
  }

  lemma {:induction false} SepMarks(es: seq<E.Expr>, sep: seq<Sql.Piece>)
    requires forall i :: 0 <= i < |sep| ==> !sep[i].Ph?
    ensures Marks(E.PiecesSep(es, sep)) == MarksEach(es)
  {
    if |es| == 1 {
      assert es[1..] == [];
    } else if |es| > 1 {
      SepMarks(es[1..], sep);
      Parted(E.Pieces(es[0]), sep, E.PiecesSep(es[1..], sep));
    }
  }

  lemma {:induction false} CallMarks(f: string, distinct: bool, es: seq<E.Expr>)
    ensures Marks(E.Pieces(E.Call(f, distinct, es))) == MarksEach(es)
  {
    SepMarks(es, E.COMMA);
    Framed(E.CallHead(f, distinct), E.PiecesSep(es, E.COMMA), [Sql.S(")")]);
  }

  lemma {:induction false} SingleCallMarks(f: string, distinct: bool, e: E.Expr)
    ensures Marks(E.Pieces(E.Call(f, distinct, [e]))) == Marks(E.Pieces(e))
  {
    CallMarks(f, distinct, [e]);
    assert [e][1..] == [] && Marks(E.Pieces(e)) + [] == Marks(E.Pieces(e));
  }

  lemma {:induction false} OverMarks(a: E.Expr, part: seq<E.Expr>, o: E.Expr, desc: bool)
    ensures Marks(E.Pieces(E.Over(a, part, o, desc))) == Marks(E.Pieces(a)) + MarksEach(part) + Marks(E.Pieces(o))
  {
    var x, p, y := E.Pieces(a), E.PiecesSep(part, E.COMMA), E.Pieces(o);
    SepMarks(part, E.COMMA);
    Parted(x, E.OVER, p);
    Parted(x + E.OVER + p, E.ORDER, y);
    var z := E.Direction(desc) + [Sql.S(")")];
    Framed([], x + E.OVER + p + E.ORDER + y, z);
    assert [] + (x + E.OVER + p + E.ORDER + y) + z == x + E.OVER + p + E.ORDER + y + z;
  }

  lemma {:induction false} BinMarks(op: E.BinOp, l: E.Expr, r: E.Expr)
    ensures Marks(E.Pieces(E.Bin(op, l, r))) == Marks(E.Pieces(l)) + Marks(E.Pieces(r))
  {
    var x, y := E.Pieces(l), E.Pieces(r);
    Parted(x, E.Infix(op), y);
    Framed([Sql.S("(")], x + E.Infix(op) + y, [Sql.S(")")]);
    assert [Sql.S("(")] + (x + E.Infix(op) + y) + [Sql.S(")")] == [Sql.S("(")] + x + E.Infix(op) + y + [Sql.S(")")];
  }

  lemma {:induction false} JunctionMarks(es: seq<E.Expr>)
    ensures Marks(E.Pieces(E.And(es))) == MarksEach(es) && Marks(E.Pieces(E.Or(es))) == MarksEach(es)
  {
    SepMarks(es, E.AND);
    SepMarks(es, E.OR);
    Framed([Sql.S("(")], E.PiecesSep(es, E.AND), [Sql.S(")")]);
    Framed([Sql.S("(")], E.PiecesSep(es, E.OR), [Sql.S(")")]);
  }

  lemma {:induction false} PrefixMarks(e: E.Expr, negated: bool)
    ensures Marks(E.Pieces(E.Not(e))) == Marks(E.Pieces(e))
    ensures Marks(E.Pieces(E.IsNull(e, negated))) == Marks(E.Pieces(e))
  {
    Framed([Sql.S("("), Sql.W("NOT"), Sql.Sp], E.Pieces(e), [Sql.S(")")]);
    Framed([Sql.S("(")], E.Pieces(e), E.NullTest(negated));
  }

  lemma {:induction false} LeafMarks(a: string, n: string, i: nat)
    ensures Marks(E.Pieces(E.Col(a, n))) == [] && Marks(E.Pieces(E.Ref(n))) == []
    ensures Marks(E.Pieces(E.Par(i))) == [i]
  {
    NoMarks(E.Pieces(E.Col(a, n)));
    NoMarks(E.Pieces(E.Ref(n)));
    assert [Sql.Ph(i)][1..] == [];
  }

  // ---- the discipline ----

  /** Writing a node keeps text and table in step. */
  lemma {:induction false} NumberInStep(x: Tree, src: seq<Source>, s: Schema, ps: seq<Param>)
    requires Number(x, src, s, ps).Some? && Distinct(ps) && |ps| <= MAX_PARAMS
    ensures var (e, qs) := Number(x, src, s, ps).value; InStep(ps, qs, Marks(E.Pieces(e)), Sites(x))
    decreases Weight(x), 1
  {
    match ShapeOf(x)
    case NoShape =>
    case ColumnS(a, c) =>
      LeafMarks(a, c, 0);
      Nothing(ps);
    case ParamS(n, ty) =>
      LeafMarks("", "", Index(ps, Param(n, ty, User)).value.0);
      IndexInStep(ps, Param(n, ty, User));
    case RefS(n) =>
      LeafMarks("", n, 0);
      Nothing(ps);
    case WindowS(_, _, _, _) => WindowInStep(x, src, s, ps);
    case BinaryS(_, _, _) => BinaryInStep(x, src, s, ps);
    case JunctionS(_, _) => ListInStep(x, src, s, ps);
    case ListS(_, _) => ListInStep(x, src, s, ps);
    case _ => UnaryInStep(x, src, s, ps);
  }

  lemma {:induction false} UnaryInStep(x: Tree, src: seq<Source>, s: Schema, ps: seq<Param>)
    requires ShapeOf(x).UnaryS? || ShapeOf(x).NotS? || ShapeOf(x).NullS?
    requires Number(x, src, s, ps).Some? && Distinct(ps) && |ps| <= MAX_PARAMS
    ensures var (e, qs) := Number(x, src, s, ps).value; InStep(ps, qs, Marks(E.Pieces(e)), Sites(x))
    decreases Weight(x), 0
  {
    ShapeSmaller(x);
    var a := ShapeOf(x).arg;
    NumberInStep(a, src, s, ps);
    var e := Number(a, src, s, ps).value.0;
    PrefixMarks(e, ShapeOf(x).NullS? && ShapeOf(x).negated);
    if ShapeOf(x).UnaryS? {
      SingleCallMarks(ShapeOf(x).fn, ShapeOf(x).distinct, e);
    }
  }

  lemma {:induction false} BinaryInStep(x: Tree, src: seq<Source>, s: Schema, ps: seq<Param>)
    requires ShapeOf(x).BinaryS?
    requires Number(x, src, s, ps).Some? && Distinct(ps) && |ps| <= MAX_PARAMS
    ensures var (e, qs) := Number(x, src, s, ps).value; InStep(ps, qs, Marks(E.Pieces(e)), Sites(x))
    decreases Weight(x), 0
  {
    ShapeSmaller(x);
    var l, r := ShapeOf(x).l, ShapeOf(x).r;
    var (e1, p1) := Number(l, src, s, ps).value;
    var (e2, p2) := Number(r, src, s, p1).value;
    NumberInStep(l, src, s, ps);
    NumberInStep(r, src, s, p1);
    BinMarks(ShapeOf(x).op, e1, e2);
    Steps(ps, p1, p2, Marks(E.Pieces(e1)), Marks(E.Pieces(e2)), Sites(l), Sites(r));
  }

  lemma {:induction false} ListInStep(x: Tree, src: seq<Source>, s: Schema, ps: seq<Param>)
    requires ShapeOf(x).JunctionS? || ShapeOf(x).ListS?
    requires Number(x, src, s, ps).Some? && Distinct(ps) && |ps| <= MAX_PARAMS
    ensures var (e, qs) := Number(x, src, s, ps).value; InStep(ps, qs, Marks(E.Pieces(e)), Sites(x))
    decreases Weight(x), 0
  {
    ShapeSmaller(x);
    NumberAllInStep(ShapeOf(x).args, src, s, ps);
    var es := NumberAll(ShapeOf(x).args, src, s, ps).value.0;
    JunctionMarks(es);
    if ShapeOf(x).ListS? {
      CallMarks(ShapeOf(x).fn, false, es);
    }
  }

  lemma {:induction false} WindowInStep(x: Tree, src: seq<Source>, s: Schema, ps: seq<Param>)
    requires ShapeOf(x).WindowS?
    requires Number(x, src, s, ps).Some? && Distinct(ps) && |ps| <= MAX_PARAMS
    ensures var (e, qs) := Number(x, src, s, ps).value; InStep(ps, qs, Marks(E.Pieces(e)), Sites(x))
    decreases Weight(x), 0
  {
    ShapeSmaller(x);
    var (e, qs) := Number(x, src, s, ps).value;
    var a, part, o := ShapeOf(x).arg, ShapeOf(x).part, ShapeOf(x).order;
    var p1 := Number(a, src, s, ps).value.1;
    var p2 := NumberAll(part, src, s, p1).value.1;
    NumberInStep(a, src, s, ps);
    NumberAllInStep(part, src, s, p1);
    NumberInStep(o, src, s, p2);
    OverMarks(e.arg, e.part, e.order, e.desc);
    Steps(ps, p1, p2, Marks(E.Pieces(e.arg)), MarksEach(e.part), Sites(a), SitesAll(part));
    Steps(ps, p2, qs, Marks(E.Pieces(e.arg)) + MarksEach(e.part), Marks(E.Pieces(e.order)), Sites(a) + SitesAll(part), Sites(o));
  }

  lemma {:induction false} NumberAllInStep(xs: seq<Tree>, src: seq<Source>, s: Schema, ps: seq<Param>)
    requires NumberAll(xs, src, s, ps).Some? && Distinct(ps) && |ps| <= MAX_PARAMS
    ensures var (es, qs) := NumberAll(xs, src, s, ps).value; InStep(ps, qs, MarksEach(es), SitesAll(xs))
    decreases WeightAll(xs), 2
  {
    var (es, qs) := NumberAll(xs, src, s, ps).value;
    if xs == [] {
      Nothing(ps);
    } else {
      var p1 := Number(xs[0], src, s, ps).value.1;
      NumberInStep(xs[0], src, s, ps);
      NumberAllInStep(xs[1..], src, s, p1);
      var rest := NumberAll(xs[1..], src, s, p1).value.0;
      assert es[1..] == rest;
      Steps(ps, p1, qs, Marks(E.Pieces(es[0])), MarksEach(rest), Sites(xs[0]), SitesAll(xs[1..]));
    }
  }

  // ---- what being in step gives the reader of the text ----

  /** The numbers used are exactly 1, ..., n: none is skipped and none is beyond the table. */
  lemma {:induction false} KnownCovers(m: nat, ks: seq<nat>, k: nat)
    requires Known(m, ks).Some?
    ensures Known(m, ks).value >= m
    ensures m < k <= Known(m, ks).value ==> k in ks
    ensures k in ks ==> 1 <= k <= Known(m, ks).value
    decreases |ks|
  {
    if ks != [] {
      KnownCovers(if 1 <= ks[0] <= m then m else m + 1, ks[1..], k);
    }
  }
}
