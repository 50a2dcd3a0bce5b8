/** SQL expressions and the text emit_expr writes for them. */
module SqlExpr {
  import opened Sql

  datatype BinOp = Eq | Gte | Gt | Lte | Lt | Neq | Mul | Add | Sub | Div

  datatype Expr =
    | Col(alias: string, name: string)
    | Par(index: nat)
    | Ref(name: string)
    | Call(fn: string, distinct: bool, args: seq<Expr>)
    | Over(arg: Expr, part: seq<Expr>, order: Expr, desc: bool)
    | Bin(op: BinOp, l: Expr, r: Expr)
    | And(es: seq<Expr>)
    | Or(es: seq<Expr>)
    | Not(e: Expr)
    | IsNull(e: Expr, negated: bool)

  function Sym(op: BinOp): (s: string)
    ensures s in OPERATORS
  {
    match op
    case Eq => "=" case Gte => ">=" case Gt => ">" case Lte => "<=" case Lt => "<" case Neq => "<>"
    case Mul => "*" case Add => "+" case Sub => "-" case Div => "/"
  }

  const FUNCTIONS: set<string> :=
    {"sum", "avg", "count", "min", "max", "COUNT", "SUM", "LOWER", "UPPER", "TRIM", "ABS", "CONCAT", "COALESCE"}

  predicate Wf(e: Expr) {
    match e
    case Col(a, n) => Ident(a) && Ident(n)
    case Par(_) => true
    case Ref(n) => Ident(n)
    case Call(f, _, args) => f in FUNCTIONS && args != [] && forall x :: x in args ==> Wf(x)
    case Over(a, p, o, _) => Wf(a) && p != [] && (forall x :: x in p ==> Wf(x)) && Wf(o)
    case Bin(_, l, r) => Wf(l) && Wf(r)
    case And(es) => es != [] && forall x :: x in es ==> Wf(x)
    case Or(es) => es != [] && forall x :: x in es ==> Wf(x)
    case Not(x) => Wf(x)
    case IsNull(x, _) => Wf(x)
  }

  const COMMA: seq<Piece> := [S(","), Sp]
  const AND: seq<Piece> := [Sp, W("AND"), Sp]
  const OR: seq<Piece> := [Sp, W("OR"), Sp]
  const OVER: seq<Piece> := [Sp, W("OVER"), Sp, S("(")] + [W("PARTITION"), Sp, W("BY"), Sp]
  const ORDER: seq<Piece> := [Sp, W("ORDER"), Sp, W("BY"), Sp]

  function Direction(desc: bool): seq<Piece> { [Sp, W(if desc then "DESC" else "ASC")] }
  function CallHead(f: string, distinct: bool): seq<Piece> {
    [W(f), S("(")] + if distinct then [W("DISTINCT"), Sp] else []
  }
  function Infix(op: BinOp): seq<Piece> { [Sp, S(Sym(op)), Sp] }
  function NullTest(negated: bool): seq<Piece> {
    if negated then [Sp, W("IS"), Sp, W("NOT"), Sp, W("NULL"), S(")")] else [Sp, W("IS"), Sp, W("NULL"), S(")")]
  }

  function Pieces(e: Expr): seq<Piece>
    decreases e, 0
  {
    match e
    case Col(a, n) => [Id(a), S("."), Id(n)]
    case Par(i) => [Ph(i)]
    case Ref(n) => [Id(n)]
    case Call(f, distinct, args) => CallHead(f, distinct) + PiecesSep(args, COMMA) + [S(")")]
    case Over(a, p, o, desc) =>
      Pieces(a) + OVER + PiecesSep(p, COMMA) + ORDER + Pieces(o) + (Direction(desc) + [S(")")])
    case Bin(op, l, r) => [S("(")] + Pieces(l) + Infix(op) + Pieces(r) + [S(")")]
    case And(es) => [S("(")] + PiecesSep(es, AND) + [S(")")]
    case Or(es) => [S("(")] + PiecesSep(es, OR) + [S(")")]
    case Not(x) => [S("("), W("NOT"), Sp] + Pieces(x) + [S(")")]
    case IsNull(x, negated) => [S("(")] + Pieces(x) + NullTest(negated)
  }

  function PiecesSep(es: seq<Expr>, sep: seq<Piece>): seq<Piece>
    decreases es, 1
  {
    if es == [] then []
    else if |es| == 1 then Pieces(es[0])
    else Pieces(es[0]) + sep + PiecesSep(es[1..], sep)
  }

  // ---- the pieces of an expression never run together ----

  predicate Meets(a: seq<Piece>, b: seq<Piece>) {
    a == [] || b == [] || Tight(a[|a| - 1], b[0])
  }

  lemma {:induction false} GoodAppend(a: seq<Piece>, b: seq<Piece>)
    requires Good(a) && Good(b) && Meets(a, b)
    ensures Good(a + b)
  {
    var c := a + b;
    forall i | 0 <= i < |c|
      ensures ValidPiece(c[i])
    {
      assert c[i] == if i < |a| then a[i] else b[i - |a|];
    }
    forall i | 0 <= i < |c| - 1
      ensures Tight(c[i], c[i + 1])
    {
      if i < |a| - 1 {
        assert Tight(a[i], a[i + 1]);
      } else if i >= |a| {
        assert Tight(b[i - |a|], b[i - |a| + 1]);
      }
    }
  }

  /** A run of pieces that starts like an expression and is closed at its end. */
  predicate Unit(ps: seq<Piece>) {
    && Good(ps) && ps != []
    && (ps[0].Id? || ps[0].Ph? || ps[0].W? || ps[0] == S("("))
    && var z := ps[|ps| - 1]; z.Id? || z.Ph? || z == S(")")
  }

  /** Something that may be put between two units. */
  predicate Glue(ps: seq<Piece>) {
    && Good(ps) && ps != []
    && (ps[0].Sp? || ps[0] == S(","))
    && ps[|ps| - 1].Sp?
  }

  lemma {:induction false} UnitGlueUnit(a: seq<Piece>, g: seq<Piece>, b: seq<Piece>)
    requires Unit(a) && Glue(g) && Unit(b)
    ensures Unit(a + g + b)
  {
    GoodAppend(a, g);
    GoodAppend(a + g, b);
  }

  lemma {:induction false} Enclosed(a: seq<Piece>, m: seq<Piece>, z: seq<Piece>)
    requires Good(a) && Unit(m) && Good(z) && a != [] && z != []
    requires a[0] == S("(") || a[0].W?
    requires a[|a| - 1].Sp? || a[|a| - 1] == S("(")
    requires (z[0].Sp? || z[0] == S(")")) && z[|z| - 1] == S(")")
    ensures Unit(a + m + z)
  {
    GoodAppend(a, m);
    GoodAppend(a + m, z);
  }

  lemma {:induction false} Separators()
    ensures Glue(COMMA) && Glue(AND) && Glue(OR)
  {
  }

  lemma {:induction false} OverGlue()
    ensures Glue(OVER)
  {
  }

  lemma {:induction false} OrderGlue()
    ensures Glue(ORDER)
  {
  }

  lemma {:induction false} InfixGlue(op: BinOp)
    ensures Glue(Infix(op))
  {
  }

  lemma {:induction false} NullTestGood(negated: bool)
    ensures Good(NullTest(negated))
  {
  }

  lemma {:induction false} CallUnit(f: string, distinct: bool, m: seq<Piece>)
    requires f in FUNCTIONS && Unit(m)
    ensures Unit(CallHead(f, distinct) + m + [S(")")])
  {
    Enclosed(CallHead(f, distinct), m, [S(")")]);
  }

  lemma {:induction false} OverUnit(a: seq<Piece>, p: seq<Piece>, o: seq<Piece>, desc: bool)
    requires Unit(a) && Unit(p) && Unit(o)
    ensures Unit(a + OVER + p + ORDER + o + (Direction(desc) + [S(")")]))
  {
    OverGlue();
    OrderGlue();
    UnitGlueUnit(a, OVER, p);
    UnitGlueUnit(a + OVER + p, ORDER, o);
    var z := Direction(desc) + [S(")")];
    assert z == [Sp, W(if desc then "DESC" else "ASC"), S(")")];
    GoodAppend(a + OVER + p + ORDER + o, z);
  }

  lemma {:induction false} BinUnit(op: BinOp, l: seq<Piece>, r: seq<Piece>)
    requires Unit(l) && Unit(r)
    ensures Unit([S("(")] + l + Infix(op) + r + [S(")")])
  {
    InfixGlue(op);
    UnitGlueUnit(l, Infix(op), r);
    var m := l + Infix(op) + r;
    Enclosed([S("(")], m, [S(")")]);
    assert [S("(")] + l + Infix(op) + r + [S(")")] == [S("(")] + m + [S(")")];
  }

  lemma {:induction false} BracketUnit(m: seq<Piece>)
    requires Unit(m)
    ensures Unit([S("(")] + m + [S(")")])
    ensures Unit([S("("), W("NOT"), Sp] + m + [S(")")])
    ensures Unit([S("(")] + m + NullTest(true)) && Unit([S("(")] + m + NullTest(false))
  {
    Enclosed([S("(")], m, [S(")")]);
    Enclosed([S("("), W("NOT"), Sp], m, [S(")")]);
    NullTestGood(true);
    NullTestGood(false);
    Enclosed([S("(")], m, NullTest(true));
    Enclosed([S("(")], m, NullTest(false));
  }

  lemma {:induction false} ExprUnit(e: Expr)
    requires Wf(e)
    ensures Unit(Pieces(e))
    decreases e, 0
  {
    Separators();
    match e
    case Col(a, n) =>
    case Par(_) =>
    case Ref(n) =>
    case Call(f, distinct, args) =>
      UnitSep(args, COMMA);
      CallUnit(f, distinct, PiecesSep(args, COMMA));
    case Over(a, p, o, desc) =>
      ExprUnit(a);
      UnitSep(p, COMMA);
      ExprUnit(o);
      OverUnit(Pieces(a), PiecesSep(p, COMMA), Pieces(o), desc);
    case Bin(op, l, r) =>
      ExprUnit(l);
      ExprUnit(r);
      BinUnit(op, Pieces(l), Pieces(r));
    case And(es) =>
      UnitSep(es, AND);
      BracketUnit(PiecesSep(es, AND));
    case Or(es) =>
      UnitSep(es, OR);
      BracketUnit(PiecesSep(es, OR));
    case Not(x) =>
      ExprUnit(x);
      BracketUnit(Pieces(x));
    case IsNull(x, negated) =>
      ExprUnit(x);
      BracketUnit(Pieces(x));
  }

  lemma {:induction false} UnitSep(es: seq<Expr>, sep: seq<Piece>)
    requires es != [] && (forall x :: x in es ==> Wf(x)) && Glue(sep)
    ensures Unit(PiecesSep(es, sep))
    decreases es, 1
  {
    ExprUnit(es[0]);
    if |es| > 1 {
      UnitSep(es[1..], sep);
      UnitGlueUnit(Pieces(es[0]), sep, PiecesSep(es[1..], sep));
    }
  }
}
