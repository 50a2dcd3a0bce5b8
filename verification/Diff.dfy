/** diff: two texts are called identical when their optimized trees print alike. */
module Diff {
  import opened Wrappers
  import opened Sexpr
  import opened Optimizer
  import Printer
  import PyReader
  import Builder

  /** What the reader returns, as the optimizer sees it. */
  function FromTree(t: Tree): Py
    decreases t, 0
  {
    match t case Atom(s) => Str(s) case Node(ks) => Lst(FromAll(ks))
  }

  function FromAll(ts: seq<Tree>): seq<Py>
    decreases ts, 1
  {
    if ts == [] then [] else [FromTree(ts[0])] + FromAll(ts[1..])
  }

  /** What is printed: a number prints as the word str gives for it. */
  function Shown(n: Py, show: Num -> string): Tree
    decreases n, 0
  {
    match n case Str(s) => Atom(s) case Lit(v) => Atom(show(v)) case Lst(xs) => Node(ShownAll(xs, show))
  }

  function ShownAll(xs: seq<Py>, show: Num -> string): (r: seq<Tree>)
    ensures |r| == |xs| && forall i :: 0 <= i < |xs| ==> r[i] == Shown(xs[i], show)
    decreases xs, 1
  {
    if xs == [] then [] else [Shown(xs[0], show)] + ShownAll(xs[1..], show)
  }

  /** Every number folded into n prints as a word that reads back as that number. */
  predicate ReadsBack(n: Py, show: Num -> string, num: NumberReader) {
    match n
    case Str(_) => true
    case Lit(v) => num(show(v)) == Some(v) && show(v) != "true" && show(v) != "false"
    case Lst(xs) => forall x :: x in xs ==> ReadsBack(x, show, num)
  }

  function Printed(t: Tree, num: NumberReader, show: Num -> string): Tree { Shown(Optimize(FromTree(t), num), show) }

  method Compare(ir1: string, ir2: string, num: NumberReader, show: Num -> string) returns (r: Option<(bool, string, string)>)
    ensures forall t, u :: PyReader.Denotes(ir1, t) && PyReader.Denotes(ir2, u) ==>
              var c1, c2 := Printer.Canon(Printed(t, num, show)), Printer.Canon(Printed(u, num, show));
              r == Some((c1 == c2, c1, c2))
    ensures (forall t :: !PyReader.Denotes(ir1, t)) || (forall u :: !PyReader.Denotes(ir2, u)) ==> r == None
  {
    var t1 := PyReader.ParseSexpr(ir1);
    var t2 := PyReader.ParseSexpr(ir2);
    if t1.None? || t2.None? {
      return None;
    }
    var c1, c2 := Printer.Canon(Printed(t1.value, num, show)), Printer.Canon(Printed(t2.value, num, show));
    return Some((c1 == c2, c1, c2));
  }

  // ---- what "identical" is worth ----

  lemma {:induction false} SameLeaf(a: Py, b: Py, env: Env, show: Num -> string)
    requires !a.Lst? && !b.Lst? && Shown(a, show) == Shown(b, show)
    requires ReadsBack(a, show, env.num) && ReadsBack(b, show, env.num)
    ensures Eval(a, env) == Eval(b, env)
  {
  }

  /** Expressions that print alike and have a value have the same value. */
  lemma {:induction false} SameShown(a: Py, b: Py, env: Env, show: Num -> string)
    requires Shown(a, show) == Shown(b, show) && ReadsBack(a, show, env.num) && ReadsBack(b, show, env.num)
    requires Eval(a, env) != Err && Eval(b, env) != Err
    ensures Eval(a, env) == Eval(b, env)
  {
    if a.Lst? && b.Lst? {
      var xs, ys := a.xs, b.xs;
      assert ShownAll(xs, show) == ShownAll(ys, show);
      assert Shown(xs[0], show) == Shown(ys[0], show);
      if xs[0].s in ["column", "param", "ref"] {
        SameWords(xs, ys, show);
      } else {
        forall i | 0 < i < |xs|
          ensures Arg(xs[0].s, xs[i], env) == Arg(xs[0].s, ys[i], env)
        {
          MembersHaveValues(xs, env, i);
          MembersHaveValues(ys, env, i);
          assert Shown(xs[i], show) == Shown(ys[i], show);
          assert xs[i] in xs && ys[i] in ys;
          SameShown(xs[i], ys[i], env, show);
          SameArgument(xs[0].s, xs[i], ys[i], env);
        }
        SameArguments(xs, ys, env);
      }
    } else {
      SameLeaf(a, b, env, show);
    }
  }

  lemma {:induction false} SameWords(xs: seq<Py>, ys: seq<Py>, show: Num -> string)
    requires ShownAll(xs, show) == ShownAll(ys, show)
    requires (forall x :: x in xs ==> x.Str?) && (forall y :: y in ys ==> y.Str?)
    ensures xs == ys
  {
    forall i | 0 <= i < |xs|
      ensures xs[i] == ys[i]
    {
      assert xs[i] in xs && ys[i] in ys;
      assert Shown(xs[i], show) == ShownAll(xs, show)[i] == Shown(ys[i], show);
    }
  }

  lemma {:induction false} SameArgument(op: string, a: Py, b: Py, env: Env)
    requires Eval(a, env) == Eval(b, env)
    requires TakesTruth(op) ==> Truth(Operand(a, env)) && Truth(Operand(b, env))
    ensures Arg(op, a, env) == Arg(op, b, env)
  {
    if FoldValue(a, env.num).Some? { FoldIsValue(a, env); }
    if FoldValue(b, env.num).Some? { FoldIsValue(b, env); }
  }

  lemma {:induction false} SameArguments(xs: seq<Py>, ys: seq<Py>, env: Env)
    requires |xs| == |ys| > 0 && xs[0].Str? && ys[0] == xs[0] && xs[0].s !in ["column", "param", "ref"]
    requires forall i :: 0 < i < |xs| ==> Arg(xs[0].s, xs[i], env) == Arg(xs[0].s, ys[i], env)
    ensures Eval(Lst(xs), env) == Eval(Lst(ys), env)
  {
    var vs, ws := ArgAll(xs[0].s, xs[1..], env), ArgAll(xs[0].s, ys[1..], env);
    forall i | 0 <= i < |vs|
      ensures vs[i] == ws[i]
    {
      assert xs[1..][i] == xs[i + 1] && ys[1..][i] == ys[i + 1];
    }
    assert vs == ws;
  }

  // ---- what is printed can be read ----

  predicate ReadableWords(n: Py, ws: set<char>) {
    match n
    case Str(s) => Printer.PrintableWord(s, ws)
    case Lit(_) => true
    case Lst(xs) => forall x :: x in xs ==> ReadableWords(x, ws)
  }

  ghost predicate ReadableConstants(show: Num -> string, ws: set<char>) {
    && Builder.Sane(ws) && Printer.PrintableWord("true", ws) && Printer.PrintableWord("false", ws)
    && forall v :: Printer.PrintableWord(show(v), ws)
  }

  lemma {:induction false} FromReadable(t: Tree, ws: set<char>)
    requires Printer.Printable(t, ws)
    ensures ReadableWords(FromTree(t), ws)
    decreases t, 0
  {
    if t.Node? {
      FromAllReadable(t.kids, ws);
    }
  }

  lemma {:induction false} FromAllReadable(ts: seq<Tree>, ws: set<char>)
    requires forall t :: t in ts ==> Printer.Printable(t, ws)
    ensures forall x :: x in FromAll(ts) ==> ReadableWords(x, ws)
    decreases ts, 1
  {
    if ts != [] {
      FromReadable(ts[0], ws);
      FromAllReadable(ts[1..], ws);
    }
  }

  lemma {:induction false} RewriteReadable(xs: seq<Py>, num: NumberReader, show: Num -> string, ws: set<char>)
    requires xs != [] && ReadableConstants(show, ws) && forall x :: x in xs ==> ReadableWords(x, ws)
    ensures ReadableWords(Rewrite(xs, num), ws)
  {
    if xs[0].Str? && (xs[0].s == "and" || xs[0].s == "or") && |xs| >= 2 {
      ReduceReadable(xs[0].s, xs[1..], ws);
    } else if xs[0].Str? && xs[0].s == "not" && |xs| == 2 {
      assert xs[1] in xs;
    }
  }

  lemma {:induction false} ReduceReadable(op: string, args: seq<Py>, ws: set<char>)
    requires Printer.PrintableWord("true", ws) && Printer.PrintableWord("false", ws) && Printer.PrintableWord(op, ws)
    requires forall x :: x in args ==> ReadableWords(x, ws)
    ensures ReadableWords(Reduce(op, args), ws)
  {
    var kept := Reject(op, args);
    assert forall x :: x in [Str(op)] + kept ==> x == Str(op) || x in args;
  }

  lemma {:induction false} OptimizeReadable(n: Py, num: NumberReader, show: Num -> string, ws: set<char>)
    requires ReadableConstants(show, ws) && ReadableWords(n, ws)
    ensures ReadableWords(Optimize(n, num), ws)
  {
    if n.Lst? && n.xs != [] {
      var ys := OptimizeAll(n.xs, num);
      forall y | y in ys
        ensures ReadableWords(y, ws)
      {
        var i :| 0 <= i < |ys| && ys[i] == y;
        assert n.xs[i] in n.xs;
        OptimizeReadable(n.xs[i], num, show, ws);
      }
      RewriteReadable(ys, num, show, ws);
    }
  }

  lemma {:induction false} ShownReadable(n: Py, show: Num -> string, ws: set<char>)
    requires ReadableConstants(show, ws) && ReadableWords(n, ws)
    ensures Printer.Printable(Shown(n, show), ws)
  {
    if n.Lst? {
      var ks := ShownAll(n.xs, show);
      forall k | k in ks
        ensures Printer.Printable(k, ws)
      {
        var i :| 0 <= i < |ks| && ks[i] == k;
        assert n.xs[i] in n.xs;
        ShownReadable(n.xs[i], show, ws);
      }
    }
  }

  lemma {:induction false} PrintedReadable(t: Tree, num: NumberReader, show: Num -> string, ws: set<char>)
    requires ReadableConstants(show, ws) && Printer.Printable(t, ws)
    ensures Lex(Printer.Canon(Printed(t, num, show)), ws) == Flatten(Printed(t, num, show))
  {
    FromReadable(t, ws);
    OptimizeReadable(FromTree(t), num, show, ws);
    ShownReadable(Optimize(FromTree(t), num), show, ws);
    Printer.CanonDenotes(Printed(t, num, show), ws);
  }

  /** t is an expression with a value that the optimizer keeps and whose folded numbers print faithfully. */
  ghost predicate Comparable(t: Tree, env: Env, show: Num -> string) {
    && Eval(FromTree(t), env) != Err && NullSafe(FromTree(t), env)
    && ReadsBack(Optimize(FromTree(t), env.num), show, env.num)
  }

  /** Trees that print alike after optimization have the same value. */
  lemma {:induction false} IdenticalIsEqual(t: Tree, u: Tree, env: Env, show: Num -> string, ws: set<char>)
    requires ReadableConstants(show, ws) && Printer.Printable(t, ws) && Printer.Printable(u, ws)
    requires Comparable(t, env, show) && Comparable(u, env, show)
    requires Printer.Canon(Printed(t, env.num, show)) == Printer.Canon(Printed(u, env.num, show))
    ensures Eval(FromTree(t), env) == Eval(FromTree(u), env)
  {
    var a, b := Optimize(FromTree(t), env.num), Optimize(FromTree(u), env.num);
    PrintedReadable(t, env.num, show, ws);
    PrintedReadable(u, env.num, show, ws);
    FlattenInjective(Shown(a, show), Shown(b, show));
    OptimizeSound(FromTree(t), env);
    OptimizeSound(FromTree(u), env);
    SameShown(a, b, env, show);
  }

  /** Texts that diff calls identical stand for expressions of the same value. */
  lemma {:induction false} DiffIsSound(ir1: string, ir2: string, t: Tree, u: Tree, env: Env, show: Num -> string)
    requires PyReader.Denotes(ir1, t) && PyReader.Denotes(ir2, u) && ReadableConstants(show, PY_SPACE)
    requires Comparable(t, env, show) && Comparable(u, env, show)
    requires Printer.Canon(Printed(t, env.num, show)) == Printer.Canon(Printed(u, env.num, show))
    ensures Eval(FromTree(t), env) == Eval(FromTree(u), env)
  {
    ReadIsPrintable(ir1, t, PY_SPACE);
    ReadIsPrintable(ir2, u, PY_SPACE);
    IdenticalIsEqual(t, u, env, show, PY_SPACE);
  }

  lemma {:induction false} ReadIsPrintable(ir: string, t: Tree, ws: set<char>)
    requires Lex(ir, ws) == Flatten(t)
    ensures Printer.Printable(t, ws)
  {
    Printer.LexPrintable(ir, ws);
    Printer.FlattenPrintable(t, ws);
  }

  /** Texts with the same tokens are always called identical, whatever the numbers. */
  lemma {:induction false} SpacingIsIdentical(ir1: string, ir2: string, t: Tree, u: Tree, num: NumberReader, show: Num -> string)
    requires PyReader.Denotes(ir1, t) && PyReader.Denotes(ir2, u) && Lex(ir1, PY_SPACE) == Lex(ir2, PY_SPACE)
    ensures Printer.Canon(Printed(t, num, show)) == Printer.Canon(Printed(u, num, show))
  {
    FlattenInjective(t, u);
  }
}
