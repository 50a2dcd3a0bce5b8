/**
  What a request means, told by its own words: the value of an expression on a row, and the rows
  that its sources, joins and condition ask for. None of it mentions how a statement is written.
 */
module Asked {
  import opened Wrappers
  import opened Sexpr
  import opened Catalog
  import opened Emit
  import opened Language
  import E = SqlExpr
  import RB = ReadBack
  import R = Relational
  import Sql

  /** The arguments by name, the collation, and the values of calls, windows and references. */
  datatype World = World(arg: string -> R.Value, less: (R.Value, R.Value) -> bool, call: (Tree, R.Row) -> R.Value)

  /** and / or of a single operand are that operand. */
  function Bare(x: Tree): Tree
    decreases x, 0
  {
    match x
    case Atom(_) => x
    case Node(k) => if |k| == 2 && k[0] in [Atom("and"), Atom("or")] then Bare(k[1]) else Node(BareAll(k))
  }

  function BareAll(xs: seq<Tree>): (r: seq<Tree>)
    ensures |r| == |xs| && forall i :: 0 <= i < |xs| ==> r[i] == Bare(xs[i])
    decreases xs, 1
  {
    if xs == [] then [] else [Bare(xs[0])] + BareAll(xs[1..])
  }

  function Operator(h: string, a: R.Value, b: R.Value, less: (R.Value, R.Value) -> bool): Option<R.Value> {
    match h
    case "add" => Some(R.ArithV(E.Add, a, b))
    case "sub" => Some(R.ArithV(E.Sub, a, b))
    case "mul" => Some(R.ArithV(E.Mul, a, b))
    case "div" => Some(R.ArithV(E.Div, a, b))
    case "eq" => Some(R.CompareV(E.Eq, a, b, less))
    case "neq" => Some(R.CompareV(E.Neq, a, b, less))
    case "lt" => Some(R.CompareV(E.Lt, a, b, less))
    case "lte" => Some(R.CompareV(E.Lte, a, b, less))
    case "gt" => Some(R.CompareV(E.Gt, a, b, less))
    case "gte" => Some(R.CompareV(E.Gte, a, b, less))
    case _ => None
  }

  /** The value of a request expression on a row, whose entries have these names. */
  function Value(x: Tree, row: R.Row, names: seq<string>, w: World): R.Value
    decreases x, 0
  {
    if x.Atom? || x.kids == [] || !x.kids[0].Atom? then R.Bad
    else
      var h, k := x.kids[0].text, x.kids;
      if h == "column" && |k| == 3 then
        if k[1].Atom? && k[2].Atom? then R.Cell(row, R.IndexOf(names, k[1].text), k[2].text) else R.Bad
      else if h == "param" && |k| == 3 then if k[1].Atom? then w.arg(k[1].text) else R.Bad
      else if h == "not" && |k| == 2 then R.NotV(Value(k[1], row, names, w))
      else if h == "is-null" && |k| == 2 then NullTest(Value(k[1], row, names, w), true)
      else if h == "is-not-null" && |k| == 2 then NullTest(Value(k[1], row, names, w), false)
      else if h == "and" && |k| >= 2 then
        if |k| == 2 then Value(k[1], row, names, w) else R.Junction(ValueAll(k[1..], row, names, w), false)
      else if h == "or" && |k| >= 2 then
        if |k| == 2 then Value(k[1], row, names, w) else R.Junction(ValueAll(k[1..], row, names, w), true)
      else if h in OPERATORS && |k| == 3 then
        Operator(h, Value(k[1], row, names, w), Value(k[2], row, names, w), w.less).value
      else w.call(Bare(Tidy(x)), row)
  }

  const OPERATORS: seq<string> := ["add", "sub", "mul", "div", "eq", "neq", "lt", "lte", "gt", "gte"]

  function NullTest(v: R.Value, wanted: bool): R.Value {
    if v.Bad? then v else R.Bool(v.Null? == wanted)
  }

  function ValueAll(xs: seq<Tree>, row: R.Row, names: seq<string>, w: World): (r: seq<R.Value>)
    ensures |r| == |xs| && forall i :: 0 <= i < |xs| ==> r[i] == Value(xs[i], row, names, w)
    decreases xs, 1
  {
    if xs == [] then [] else [Value(xs[0], row, names, w)] + ValueAll(xs[1..], row, names, w)
  }

  /** The world as the database sees it, with the arguments at the places of the table. */
  function EnvOf(w: World, ps: seq<Param>): R.Env {
    R.Env((n: nat) => if 1 <= n <= |ps| then w.arg(ps[n - 1].name) else R.Bad, w.less, (e: E.Expr, row: R.Row) => w.call(TreeOf(e, ps), row))
  }

  // ---- tidying changes no value ----

  predicate IsWindow(x: Tree) {
    && x.Node? && |x.kids| >= 4 && x.kids[0] == Atom("window") && x.kids[2].Node?
    && x.kids[3].Node? && |x.kids[3].kids| == 3
  }

  lemma {:induction false} TidyTwice(x: Tree)
    ensures Tidy(Tidy(x)) == Tidy(x)
    decreases x, 1
  {
    if IsWindow(x) {
      WindowTwice(x);
    } else if x.Node? {
      TidyAllTwice(x.kids);
      StaysPlain(x);
    }
  }

  lemma {:induction false} StaysPlain(x: Tree)
    requires x.Node? && !IsWindow(x)
    ensures Tidy(x) == Node(TidyAll(x.kids)) && !IsWindow(Tidy(x))
  {
  }

  lemma {:induction false} WindowTwice(x: Tree)
    requires IsWindow(x)
    ensures Tidy(Tidy(x)) == Tidy(x)
    decreases x, 0
  {
    var k := x.kids;
    TidyTwice(k[1]);
    TidyAllTwice(k[2].kids);
    TidyTwice(k[3].kids[1]);
    WindowTidy(k[0], Tidy(k[1]), TidyAll(k[2].kids), k[3].kids[0], Tidy(k[3].kids[1]), Direction(k[3].kids[2]));
  }

  lemma {:induction false} WindowTidy(h: Tree, a: Tree, p: seq<Tree>, o: Tree, x: Tree, d: Tree)
    requires h == Atom("window")
    ensures Tidy(Node([h, a, Node(p), Node([o, x, d])])) == Node([h, Tidy(a), Node(TidyAll(p)), Node([o, Tidy(x), Direction(d)])])
  {
  }

  lemma {:induction false} TidyAllTwice(xs: seq<Tree>)
    ensures TidyAll(TidyAll(xs)) == TidyAll(xs)
    decreases xs, 2
  {
    forall i | 0 <= i < |xs|
      ensures TidyAll(TidyAll(xs))[i] == TidyAll(xs)[i]
    {
      TidyTwice(xs[i]);
    }
  }

  lemma {:induction false} TidyHead(x: Tree)
    requires x.Node? && x.kids != []
    ensures Tidy(x).Node? && Tidy(x).kids != [] && Tidy(x).kids[0].Atom? == x.kids[0].Atom?
    ensures x.kids[0].Atom? ==> Tidy(x).kids[0] == x.kids[0]
    ensures x.kids[0] != Atom("window") ==> Tidy(x) == Node(TidyAll(x.kids))
    ensures x.kids[0] == Atom("window") ==> |Tidy(x).kids| <= |x.kids|
  {
  }

  /** What is left out by tidying has no value of its own. */
  lemma {:induction false} TidyValue(x: Tree, row: R.Row, names: seq<string>, w: World)
    ensures Value(Tidy(x), row, names, w) == Value(x, row, names, w)
    decreases x
  {
    if x.Node? && x.kids != [] && x.kids[0].Atom? {
      TidyHead(x);
      TidyTwice(x);
      if x.kids[0] != Atom("window") {
        var k := x.kids;
        forall i | 0 <= i < |k|
          ensures Value(TidyAll(k)[i], row, names, w) == Value(k[i], row, names, w)
        {
          TidyValue(k[i], row, names, w);
        }
        TidyMembers(k, row, names, w);
      }
    }
  }

  lemma {:induction false} TidyMembers(k: seq<Tree>, row: R.Row, names: seq<string>, w: World)
    requires k != [] && forall i :: 0 <= i < |k| ==> Value(TidyAll(k)[i], row, names, w) == Value(k[i], row, names, w)
    ensures ValueAll(TidyAll(k)[1..], row, names, w) == ValueAll(k[1..], row, names, w)
  {
    var a, b := TidyAll(k)[1..], k[1..];
    forall i | 0 <= i < |b|
      ensures ValueAll(a, row, names, w)[i] == ValueAll(b, row, names, w)[i]
    {
      assert a[i] == TidyAll(k)[i + 1] && b[i] == k[i + 1];
    }
  }

  // ---- what is written has the value asked for ----

  lemma {:induction false} BareCons(h: string, xs: seq<Tree>)
    requires (h != "and" && h != "or") || |xs| != 1
    ensures Bare(Node([Atom(h)] + xs)) == Node([Atom(h)] + BareAll(xs))
  {
    var k := [Atom(h)] + xs;
    assert BareAll(k) == [Atom(h)] + BareAll(xs);
  }

  /** The text of an expression is read as the expression of the bare tree. */
  lemma {:induction false} NormIsBare(e: E.Expr, ps: seq<Param>, d: Sql.Dialect)
    requires d != Sql.MySql
    ensures TreeOf(RB.Norm(e, d), ps) == Bare(TreeOf(e, ps))
    decreases e, 1
  {
    match e
    case Col(a, c) => BareCons("column", [Atom(a), Atom(c)]);
    case Par(_) => ParIsBare(e, ps);
    case Ref(n) => BareCons("ref", [Atom(n)]);
    case Call(f, distinct, args) =>
      NormsAreBare(args, ps, d);
      BareCons(CallWord(f, distinct), TreesOf(args, ps));
    case Over(_, _, _, _) => WindowIsBare(e, ps, d);
    case Bin(op, l, r) =>
      NormIsBare(l, ps, d);
      NormIsBare(r, ps, d);
      PairIsBare(OpWord(op), TreeOf(l, ps), TreeOf(r, ps));
    case And(es) =>
      NormsAreBare(es, ps, d);
      JunctionIsBare("and", es, ps, d);
    case Or(es) =>
      NormsAreBare(es, ps, d);
      JunctionIsBare("or", es, ps, d);
    case Not(x) =>
      NormIsBare(x, ps, d);
      BareOne("not", TreeOf(x, ps));
    case IsNull(x, negated) =>
      NormIsBare(x, ps, d);
      BareOne(if negated then "is-not-null" else "is-null", TreeOf(x, ps));
  }

  lemma {:induction false} BareOne(h: string, x: Tree)
    requires h != "and" && h != "or"
    ensures Bare(Form1(h, x)) == Form1(h, Bare(x))
  {
    assert BareAll([Atom(h), x]) == [Atom(h), Bare(x)];
  }

  lemma {:induction false} PairIsBare(h: string, x: Tree, y: Tree)
    ensures Bare(Form2(h, x, y)) == Form2(h, Bare(x), Bare(y))
  {
    assert BareAll([Atom(h), x, y]) == [Atom(h), Bare(x), Bare(y)];
  }

  lemma {:induction false} ParIsBare(e: E.Expr, ps: seq<Param>)
    requires e.Par?
    ensures Bare(TreeOf(e, ps)) == TreeOf(e, ps)
  {
    if 1 <= e.index <= |ps| {
      PairIsBare("param", Atom(ps[e.index - 1].name), Atom(TypeWord(ps[e.index - 1].ty)));
    }
  }

  lemma {:induction false} NormsAreBare(es: seq<E.Expr>, ps: seq<Param>, d: Sql.Dialect)
    requires d != Sql.MySql
    ensures TreesOf(RB.NormAll(es, d), ps) == BareAll(TreesOf(es, ps))
    ensures |es| == 1 ==> TreeOf(RB.Norm(es[0], d), ps) == Bare(TreeOf(es[0], ps))
    decreases es, 2
  {
    forall i | 0 <= i < |es|
      ensures TreesOf(RB.NormAll(es, d), ps)[i] == BareAll(TreesOf(es, ps))[i]
    {
      NormIsBare(es[i], ps, d);
    }
    if |es| == 1 { NormIsBare(es[0], ps, d); }
  }

  lemma {:induction false} JunctionIsBare(h: string, es: seq<E.Expr>, ps: seq<Param>, d: Sql.Dialect)
    requires h == "and" || h == "or"
    ensures |es| == 1 ==> Bare(Node([Atom(h)] + TreesOf(es, ps))) == Bare(TreeOf(es[0], ps))
    ensures |es| != 1 ==> Bare(Node([Atom(h)] + TreesOf(es, ps))) == Node([Atom(h)] + BareAll(TreesOf(es, ps)))
  {
    if |es| != 1 { BareCons(h, TreesOf(es, ps)); }
  }

  lemma {:induction false} WindowIsBare(e: E.Expr, ps: seq<Param>, d: Sql.Dialect)
    requires d != Sql.MySql && e.Over?
    ensures TreeOf(RB.Norm(e, d), ps) == Bare(TreeOf(e, ps))
    decreases e, 0
  {
    NormIsBare(e.arg, ps, d);
    NormsAreBare(e.part, ps, d);
    NormIsBare(e.order, ps, d);
    WindowBare(TreeOf(e.arg, ps), TreesOf(e.part, ps), TreeOf(e.order, ps), Atom(if e.desc then "desc" else "asc"));
  }

  function WindowTree(a: Tree, p: seq<Tree>, o: Tree, d: Tree): Tree {
    Node([Atom("window"), a, Node([Atom("partition-by")] + p), Form2("order-by", o, d)])
  }

  lemma {:induction false} WindowBare(a: Tree, p: seq<Tree>, o: Tree, d: Tree)
    requires d.Atom?
    ensures Bare(WindowTree(a, p, o, d)) == WindowTree(Bare(a), BareAll(p), Bare(o), d)
  {
    BareCons("partition-by", p);
    PairIsBare("order-by", o, d);
    var k := WindowTree(a, p, o, d).kids;
    assert BareAll(k) == [Bare(k[0]), Bare(k[1]), Bare(k[2]), Bare(k[3])];
  }

  lemma {:induction false} TreeIsTidy(e: E.Expr, ps: seq<Param>)
    ensures Tidy(TreeOf(e, ps)) == TreeOf(e, ps)
    decreases e, 0
  {
    match e
    case Col(a, c) => TidyThree(Atom("column"), Atom(a), Atom(c));
    case Par(i) => if 1 <= i <= |ps| { TidyThree(Atom("param"), Atom(ps[i - 1].name), Atom(TypeWord(ps[i - 1].ty))); }
    case Ref(n) => TidyTwo(Atom("ref"), Atom(n));
    case Call(f, distinct, args) =>
      TreesAreTidy(args, ps);
      TidyList(CallWord(f, distinct), TreesOf(args, ps));
    case Over(a, p, o, desc) =>
      TreeIsTidy(a, ps);
      TreesAreTidy(p, ps);
      TreeIsTidy(o, ps);
      PartsTidy(TreesOf(p, ps));
      WindowTidy(Atom("window"), TreeOf(a, ps), [Atom("partition-by")] + TreesOf(p, ps), Atom("order-by"), TreeOf(o, ps),
                 Atom(if desc then "desc" else "asc"));
    case Bin(op, l, r) =>
      TreeIsTidy(l, ps);
      TreeIsTidy(r, ps);
      TidyThree(Atom(OpWord(op)), TreeOf(l, ps), TreeOf(r, ps));
    case And(es) =>
      TreesAreTidy(es, ps);
      TidyList("and", TreesOf(es, ps));
    case Or(es) =>
      TreesAreTidy(es, ps);
      TidyList("or", TreesOf(es, ps));
    case Not(x) =>
      TreeIsTidy(x, ps);
      TidyTwo(Atom("not"), TreeOf(x, ps));
    case IsNull(x, negated) =>
      TreeIsTidy(x, ps);
      TidyTwo(Atom(if negated then "is-not-null" else "is-null"), TreeOf(x, ps));
  }

  lemma {:induction false} PartsTidy(xs: seq<Tree>)
    ensures TidyAll([Atom("partition-by")] + xs) == [Atom("partition-by")] + TidyAll(xs)
  {
  }

  lemma {:induction false} TreesAreTidy(es: seq<E.Expr>, ps: seq<Param>)
    ensures TidyAll(TreesOf(es, ps)) == TreesOf(es, ps)
    decreases es, 1
  {
    forall i | 0 <= i < |es|
      ensures TidyAll(TreesOf(es, ps))[i] == TreesOf(es, ps)[i]
    {
      TreeIsTidy(es[i], ps);
    }
  }

  /** The database's value of what is written is the value of the tree that it comes from. */
  lemma {:induction false} EvalIsValue(e: E.Expr, ps: seq<Param>, d: Sql.Dialect, row: R.Row, names: seq<string>, w: World)
    requires d != Sql.MySql && E.Wf(e)
    ensures R.Eval(RB.Norm(e, d), row, names, EnvOf(w, ps)) == Value(TreeOf(e, ps), row, names, w)
    decreases e, 1
  {
    match e
    case Col(_, _) =>
    case Par(_) =>
    case Ref(_) => CallIsValue(e, ps, d, row, names, w);
    case Call(_, _, _) => CallIsValue(e, ps, d, row, names, w);
    case Over(_, _, _, _) => CallIsValue(e, ps, d, row, names, w);
    case Bin(_, _, _) => PairIsValue(e, ps, d, row, names, w);
    case And(es) => JunctionIsValue(true, es, ps, d, row, names, w);
    case Or(es) => JunctionIsValue(false, es, ps, d, row, names, w);
    case Not(_) => PrefixIsValue(e, ps, d, row, names, w);
    case IsNull(_, _) => PrefixIsValue(e, ps, d, row, names, w);
  }

  lemma {:induction false} PairIsValue(e: E.Expr, ps: seq<Param>, d: Sql.Dialect, row: R.Row, names: seq<string>, w: World)
    requires d != Sql.MySql && E.Wf(e) && e.Bin?
    ensures R.Eval(RB.Norm(e, d), row, names, EnvOf(w, ps)) == Value(TreeOf(e, ps), row, names, w)
    decreases e, 0
  {
    EvalIsValue(e.l, ps, d, row, names, w);
    EvalIsValue(e.r, ps, d, row, names, w);
    PairValue(e.op, TreeOf(e.l, ps), TreeOf(e.r, ps), row, names, w);
  }

  lemma {:induction false} PrefixIsValue(e: E.Expr, ps: seq<Param>, d: Sql.Dialect, row: R.Row, names: seq<string>, w: World)
    requires d != Sql.MySql && E.Wf(e) && (e.Not? || e.IsNull?)
    ensures R.Eval(RB.Norm(e, d), row, names, EnvOf(w, ps)) == Value(TreeOf(e, ps), row, names, w)
    decreases e, 0
  {
    EvalIsValue(e.e, ps, d, row, names, w);
  }

  lemma {:induction false} PairValue(op: E.BinOp, x: Tree, y: Tree, row: R.Row, names: seq<string>, w: World)
    ensures var a, b := Value(x, row, names, w), Value(y, row, names, w);
            Value(Form2(OpWord(op), x, y), row, names, w)
            == if op in {E.Mul, E.Add, E.Sub, E.Div} then R.ArithV(op, a, b) else R.CompareV(op, a, b, w.less)
  {
    assert OpWord(op) in OPERATORS;
    OperatorIs(op, Value(x, row, names, w), Value(y, row, names, w), w.less);
  }

  lemma {:induction false} OperatorIs(op: E.BinOp, a: R.Value, b: R.Value, less: (R.Value, R.Value) -> bool)
    ensures Operator(OpWord(op), a, b, less) == Some(if op in {E.Mul, E.Add, E.Sub, E.Div} then R.ArithV(op, a, b) else R.CompareV(op, a, b, less))
  {
  }

  /** Heads whose value a database finds for itself. */
  predicate OwnHead(h: string) {
    h !in ["column", "param", "not", "is-null", "is-not-null", "and", "or"] && h !in OPERATORS
  }

  lemma {:induction false} OwnValue(h: string, k: seq<Tree>, row: R.Row, names: seq<string>, w: World)
    requires OwnHead(h)
    ensures var x := Node([Atom(h)] + k); Value(x, row, names, w) == w.call(Bare(Tidy(x)), row)
  {
  }

  lemma {:induction false} TreeOfOwn(e: E.Expr, ps: seq<Param>)
    requires e.Ref? || e.Call? || e.Over?
    ensures exists h: string, k: seq<Tree> :: OwnHead(h) && TreeOf(e, ps) == Node([Atom(h)] + k)
  {
    var x := TreeOf(e, ps);
    if e.Call? { CallHeads(e.fn, e.distinct); }
    assert x.kids == [x.kids[0]] + x.kids[1..];
    assert OwnHead(x.kids[0].text);
  }

  lemma {:induction false} CallIsValue(e: E.Expr, ps: seq<Param>, d: Sql.Dialect, row: R.Row, names: seq<string>, w: World)
    requires d != Sql.MySql && (e.Ref? || e.Call? || e.Over?)
    ensures R.Eval(RB.Norm(e, d), row, names, EnvOf(w, ps)) == Value(TreeOf(e, ps), row, names, w)
  {
    NormIsBare(e, ps, d);
    TreeIsTidy(e, ps);
    TreeOfOwn(e, ps);
    var h: string, k: seq<Tree> :| OwnHead(h) && TreeOf(e, ps) == Node([Atom(h)] + k);
    OwnValue(h, k, row, names, w);
  }

  lemma {:induction false} CallHeads(f: string, distinct: bool)
    ensures OwnHead(CallWord(f, distinct))
  {
  }

  lemma {:induction false} JunctionValue(and: bool, xs: seq<Tree>, row: R.Row, names: seq<string>, w: World)
    requires xs != []
    ensures Value(Node([Atom(if and then "and" else "or")] + xs), row, names, w)
            == if |xs| == 1 then Value(xs[0], row, names, w) else R.Junction(ValueAll(xs, row, names, w), !and)
  {
    var k := [Atom(if and then "and" else "or")] + xs;
    assert k[1..] == xs && k[1] == xs[0];
  }

  lemma {:induction false} ValuesOf(es: seq<E.Expr>, ps: seq<Param>, d: Sql.Dialect, row: R.Row, names: seq<string>, w: World)
    requires d != Sql.MySql && forall e :: e in es ==> E.Wf(e)
    ensures R.EvalAll(RB.NormAll(es, d), row, names, EnvOf(w, ps)) == ValueAll(TreesOf(es, ps), row, names, w)
    decreases es, 2
  {
    forall i | 0 <= i < |es|
      ensures R.EvalAll(RB.NormAll(es, d), row, names, EnvOf(w, ps))[i] == ValueAll(TreesOf(es, ps), row, names, w)[i]
    {
      EvalIsValue(es[i], ps, d, row, names, w);
    }
  }

  lemma {:induction false} JunctionIsValue(and: bool, es: seq<E.Expr>, ps: seq<Param>, d: Sql.Dialect, row: R.Row, names: seq<string>, w: World)
    requires d != Sql.MySql && es != [] && forall e :: e in es ==> E.Wf(e)
    ensures R.Eval(RB.Norm(Junction(and, es), d), row, names, EnvOf(w, ps)) == Value(TreeOf(Junction(and, es), ps), row, names, w)
    decreases es, 3
  {
    JunctionValue(and, TreesOf(es, ps), row, names, w);
    JunctionParts(and, es, ps, d, row, names, EnvOf(w, ps));
    if |es| == 1 {
      EvalIsValue(es[0], ps, d, row, names, w);
    } else {
      ValuesOf(es, ps, d, row, names, w);
    }
  }

  lemma {:induction false} JunctionParts(and: bool, es: seq<E.Expr>, ps: seq<Param>, d: Sql.Dialect, row: R.Row, names: seq<string>, env: R.Env)
    requires es != []
    ensures TreeOf(Junction(and, es), ps) == Node([Atom(if and then "and" else "or")] + TreesOf(es, ps))
    ensures R.Eval(RB.Norm(Junction(and, es), d), row, names, env)
            == if |es| == 1 then R.Eval(RB.Norm(es[0], d), row, names, env) else R.Junction(R.EvalAll(RB.NormAll(es, d), row, names, env), !and)
  {
    JunctionNorm(and, es, d);
    if |es| != 1 { JunctionEval(and, RB.NormAll(es, d), row, names, env); }
  }

  lemma {:induction false} JunctionNorm(and: bool, es: seq<E.Expr>, d: Sql.Dialect)
    requires es != []
    ensures RB.Norm(Junction(and, es), d) == if |es| == 1 then RB.Norm(es[0], d) else Junction(and, RB.NormAll(es, d))
  {
  }

  lemma {:induction false} JunctionEval(and: bool, es: seq<E.Expr>, row: R.Row, names: seq<string>, env: R.Env)
    ensures R.Eval(Junction(and, es), row, names, env) == R.Junction(R.EvalAll(es, row, names, env), !and)
  {
  }

  /**
    For every node that is written: what the database reads has the value that the request asks
    for by its own words, with every parameter looked up by its name.
   */
  lemma {:induction false} WrittenMeansAsked(x: Tree, src: seq<Source>, s: Schema, ps: seq<Param>, all: seq<Param>, d: Sql.Dialect,
                                             row: R.Row, names: seq<string>, w: World)
    requires d != Sql.MySql && Number(x, src, s, ps).Some? && Number(x, src, s, ps).value.1 <= all
    ensures R.Eval(RB.Norm(Number(x, src, s, ps).value.0, d), row, names, EnvOf(w, all)) == Value(x, row, names, w)
  {
    NumberWf(x, src, s, ps);
    NumberRecovers(x, src, s, ps, all);
    EvalIsValue(Number(x, src, s, ps).value.0, all, d, row, names, w);
    TidyValue(x, row, names, w);
  }
}
