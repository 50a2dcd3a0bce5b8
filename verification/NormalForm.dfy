/**
  What an optimized expression looks like, told without the rules: exactly the expressions that
  hold nothing to fold, to negate away or to leave out are the results of the optimizer.
 */
module NormalForm {
  import opened Wrappers
  import opened Sexpr
  import opened Optimizer
  import Diff

  /** A constant in the place of a truth value: true, false, or a folded 0 or 1. */
  predicate TruthConstant(x: Py) {
    || x == Str("true") || x == Str("false")
    || (x.Lit? && (x.v == I(0) || x.v == I(1) || x.v == R(0.0) || x.v == R(1.0)))
  }

  /** A number, folded or written. */
  predicate Number(x: Py, num: NumberReader) { x.Lit? || (x.Str? && num(x.s).Some?) }

  predicate Zero(x: Py, num: NumberReader)
    requires Number(x, num)
  {
    var v := if x.Lit? then x.v else num(x.s).value;
    v == I(0) || v == R(0.0)
  }

  /** Two words that are one word, or two folded numbers that are one number. */
  predicate OneAtom(x: Py, y: Py) {
    || (x.Str? && x == y && (x.s == "" || x.s[0] != '('))
    || (x.Lit? && y.Lit? && AsReal(x.v) == AsReal(y.v))
  }

  /** There is something to do at the head of this list. */
  ghost predicate Reducible(xs: seq<Py>, num: NumberReader) {
    xs != [] &&
    match xs[0]
    case Str("add") => |xs| == 3 && Number(xs[1], num) && Number(xs[2], num)
    case Str("sub") => |xs| == 3 && Number(xs[1], num) && Number(xs[2], num)
    case Str("mul") => |xs| == 3 && Number(xs[1], num) && Number(xs[2], num)
    case Str("div") => |xs| == 3 && Number(xs[1], num) && Number(xs[2], num) && !Zero(xs[2], num)
    case Str("eq") => |xs| == 3 && OneAtom(xs[1], xs[2])
    case Str("not") => |xs| == 2 && (TruthConstant(xs[1]) || exists y :: xs[1] == Lst([Str("not"), y]))
    case Str("and") => |xs| == 2 || exists i :: 1 <= i < |xs| && TruthConstant(xs[i])
    case Str("or") => |xs| == 2 || exists i :: 1 <= i < |xs| && TruthConstant(xs[i])
    case _ => false
  }

  /** Nowhere is there anything to do. */
  ghost predicate Reduced(n: Py, num: NumberReader) {
    n.Lst? ==> (forall x :: x in n.xs ==> Reduced(x, num)) && !Reducible(n.xs, num)
  }

  lemma {:induction false} ConstantsAre(x: Py)
    ensures TruthConstant(x) <==> IsTrue(x) || IsFalse(x)
  {
  }

  lemma {:induction false} FoldsAre(xs: seq<Py>, num: NumberReader)
    requires xs != [] && xs[0].Str? && IsArith(xs[0].s)
    ensures Folds(xs, num) <==> Reducible(xs, num)
  {
  }

  /** Nothing is inside itself. */
  lemma {:induction false} NotInside(x: Py, xs: seq<Py>)
    requires x in xs
    ensures x != Lst(xs)
  {
    MemberSize(xs, x);
  }

  ghost predicate Constants(args: seq<Py>) { exists x :: x in args && TruthConstant(x) }

  lemma {:induction false} ZeroOrUnit(op: string, x: Py)
    requires op == "and" || op == "or"
    ensures TruthConstant(x) <==> IsZero(op, x) || IsUnit(op, x)
  {
    ConstantsAre(x);
  }

  lemma {:induction false} NoConstants(op: string, args: seq<Py>)
    requires (op == "and" || op == "or") && args != [] && !Constants(args)
    ensures Reduce(op, args) == if |args| == 1 then args[0] else Lst([Str(op)] + args)
  {
    forall x | x in args
      ensures !IsZero(op, x) && !IsUnit(op, x)
    {
      ZeroOrUnit(op, x);
    }
    RejectKept(op, args);
  }

  lemma {:induction false} UnitsGo(op: string, args: seq<Py>, x: Py)
    requires (op == "and" || op == "or") && x in args && IsUnit(op, x)
    ensures Reduce(op, args) != Lst([Str(op)] + args)
  {
    var xs, kept := [Str(op)] + args, Reject(op, args);
    assert x in xs && x !in kept;
    if !(exists z :: z in args && IsZero(op, z)) {
      if |kept| == 1 {
        assert kept[0] in args && kept[0] in xs;
        NotInside(kept[0], xs);
      } else if kept != [] {
        assert ([Str(op)] + kept)[1..] == kept && xs[1..] == args;
      }
    }
  }

  lemma {:induction false} JunctionReducible(op: string, args: seq<Py>)
    requires (op == "and" || op == "or") && args != []
    ensures Reduce(op, args) != Lst([Str(op)] + args) <==> |args| == 1 || Constants(args)
  {
    if !Constants(args) {
      NoConstants(op, args);
      assert args[0] in [Str(op)] + args;
      NotInside(args[0], [Str(op)] + args);
    } else {
      var x :| x in args && TruthConstant(x);
      ZeroOrUnit(op, x);
      if IsUnit(op, x) { UnitsGo(op, args, x); }
    }
  }

  lemma {:induction false} NotReducible(xs: seq<Py>, num: NumberReader)
    requires |xs| == 2 && xs[0] == Str("not")
    ensures Rewrite(xs, num) != Lst(xs) <==> Reducible(xs, num)
  {
    ConstantsAre(xs[1]);
    if xs[1].Lst? && |xs[1].xs| == 2 && xs[1].xs[0] == Str("not") {
      var y := xs[1].xs[1];
      assert xs[1] == Lst([Str("not"), y]);
      assert xs[1].xs[1] in xs[1].xs && xs[1] in xs;
      MemberSize(xs[1].xs, y);
      MemberSize(xs, xs[1]);
    }
  }

  /** A rule changes a list exactly where there is something to do. */
  lemma {:induction false} RewritesExactly(xs: seq<Py>, num: NumberReader)
    requires xs != []
    ensures Rewrite(xs, num) != Lst(xs) <==> Reducible(xs, num)
  {
    if xs[0].Str? {
      var op := xs[0].s;
      if IsArith(op) {
        FoldsAre(xs, num);
      } else if op == "eq" && |xs| == 3 {
        assert OneAtom(xs[1], xs[2]) <==> SameAtom(xs[1], xs[2]);
      } else if op == "not" && |xs| == 2 {
        NotReducible(xs, num);
      } else if (op == "and" || op == "or") && |xs| >= 2 {
        assert xs == [Str(op)] + xs[1..];
        JunctionReducible(op, xs[1..]);
        assert Constants(xs[1..]) <==> exists i :: 1 <= i < |xs| && TruthConstant(xs[i]) by {
          assert forall i :: 1 <= i < |xs| ==> xs[i] == xs[1..][i - 1];
        }
      }
    }
  }

  lemma {:induction false} NormalIsReduced(n: Py, num: NumberReader)
    ensures Normal(n, num) <==> Reduced(n, num)
    decreases n
  {
    if n.Lst? {
      forall x | x in n.xs
        ensures Normal(x, num) <==> Reduced(x, num)
      {
        NormalIsReduced(x, num);
      }
      if n.xs != [] { RewritesExactly(n.xs, num); }
    }
  }

  /** What the optimizer returns holds nothing more to do, and it leaves alone exactly what holds nothing to do. */
  lemma {:induction false} ResultsExactly(n: Py, num: NumberReader)
    ensures Reduced(Optimize(n, num), num)
    ensures Optimize(n, num) == n <==> Reduced(n, num)
  {
    OptimizeNormal(n, num);
    NormalIsReduced(Optimize(n, num), num);
    NormalIsReduced(n, num);
    if Normal(n, num) { NormalIsFixed(n, num); }
  }

  // ---- what is returned ----

  /** Folding is arithmetic: exact, and for the quotient of two integers rounded down. */
  lemma {:induction false} FoldIsArithmetic(a: Num, b: Num)
    ensures AsReal(Fold("add", a, b)) == AsReal(a) + AsReal(b) && AsReal(Fold("sub", a, b)) == AsReal(a) - AsReal(b)
    ensures AsReal(Fold("mul", a, b)) == AsReal(a) * AsReal(b)
    ensures AsReal(b) != 0.0 ==>
              var q := Fold("div", a, b);
              if a.I? && b.I? then q.I? && AsReal(q) <= AsReal(a) / AsReal(b) < AsReal(q) + 1.0 else AsReal(q) == AsReal(a) / AsReal(b)
  {
    if a.I? && b.I? {
      Exact(a.n, b.n);
      if b.n != 0 { Rounded(a.n, b.n); }
    }
  }

  lemma {:induction false} Exact(a: int, b: int)
    ensures (a + b) as real == a as real + b as real && (a - b) as real == a as real - b as real
    ensures (a * b) as real == a as real * b as real
  {
  }

  lemma {:induction false} Rounded(a: int, b: int)
    requires b != 0
    ensures FloorDiv(a, b) as real <= a as real / b as real < FloorDiv(a, b) as real + 1.0
  {
    var n, m := if b > 0 then a else -a, if b > 0 then b else -b;
    var q := n / m;
    assert q * m <= n < (q + 1) * m;
    assert n as real / m as real == a as real / b as real;
    assert q as real * m as real <= n as real < (q as real + 1.0) * m as real;
    Quotient(n as real, m as real, q as real);
  }

  lemma {:induction false} Quotient(n: real, m: real, q: real)
    requires m > 0.0 && q * m <= n < (q + 1.0) * m
    ensures q <= n / m < q + 1.0
  {
    assert n / m * m == n;
    Less(n / m, q + 1.0, m);
    NotMore(q, n / m, m);
  }

  lemma {:induction false} NotMore(x: real, y: real, m: real)
    requires m > 0.0 && x * m <= y * m
    ensures x <= y
  {
    assert (x - y) * m == x * m - y * m;
    if x - y > 0.0 { IsPositive(x - y, m); }
  }

  lemma {:induction false} IsPositive(a: real, b: real)
    requires a > 0.0 && b > 0.0
    ensures a * b > 0.0
  {
  }

  lemma {:induction false} Less(x: real, y: real, m: real)
    requires m > 0.0 && x * m < y * m
    ensures x < y
  {
    assert (x - y) * m == x * m - y * m;
    if x - y >= 0.0 { NotNegative(x - y, m); }
  }

  lemma {:induction false} NotNegative(a: real, b: real)
    requires a >= 0.0 && b >= 0.0
    ensures a * b >= 0.0
  {
  }

  /** Two negations give back what they negate; a constant becomes its word. */
  lemma {:induction false} DoubleNegation(x: Py, num: NumberReader)
    ensures var y := Optimize(x, num);
            Optimize(Lst([Str("not"), Lst([Str("not"), x])]), num)
            == if IsTrue(y) then Str("true") else if IsFalse(y) then Str("false") else y
  {
    var y := Optimize(x, num);
    var inner := Lst([Str("not"), x]);
    assert OptimizeAll([Str("not"), x], num) == [Str("not"), y];
    var z := Rewrite([Str("not"), y], num);
    assert Optimize(inner, num) == z;
    assert OptimizeAll([Str("not"), inner], num) == [Str("not"), z];
    ResultsExactly(x, num);
    NegatedTwice(y, num);
  }

  lemma {:induction false} NegatedTwice(y: Py, num: NumberReader)
    requires Reduced(y, num)
    ensures Rewrite([Str("not"), Rewrite([Str("not"), y], num)], num)
            == if IsTrue(y) then Str("true") else if IsFalse(y) then Str("false") else y
  {
    ConstantsAre(y);
    if !TruthConstant(y) {
      if y.Lst? && |y.xs| == 2 && y.xs[0] == Str("not") {
        assert y.xs == [Str("not"), y.xs[1]];
        assert Rewrite([Str("not"), y], num) == y.xs[1];
        RewritesExactly(y.xs, num);
      } else {
        assert Rewrite([Str("not"), y], num) == Lst([Str("not"), y]);
      }
    }
  }

  // ---- diff ----

  lemma {:induction false} ShownBack(t: Tree, show: Num -> string)
    ensures Diff.Shown(Diff.FromTree(t), show) == t
    decreases t, 0
  {
    if t.Node? { AllShownBack(t.kids, show); }
  }

  lemma {:induction false} AllShownBack(ts: seq<Tree>, show: Num -> string)
    ensures Diff.ShownAll(Diff.FromAll(ts), show) == ts
    decreases ts, 1
  {
    if ts != [] {
      ShownBack(ts[0], show);
      AllShownBack(ts[1..], show);
      assert Diff.FromAll(ts)[1..] == Diff.FromAll(ts[1..]);
    }
  }

  /** A tree that holds nothing to do is compared as it is. */
  lemma {:induction false} ReducedIsKept(t: Tree, num: NumberReader, show: Num -> string)
    requires Reduced(Diff.FromTree(t), num)
    ensures Diff.Printed(t, num, show) == t
  {
    ResultsExactly(Diff.FromTree(t), num);
    ShownBack(t, show);
  }

  /** diff sees through two negations, unless they stand around a folded 0 or 1. */
  lemma {:induction false} NegationsCancel(t: Tree, num: NumberReader, show: Num -> string)
    requires var y := Optimize(Diff.FromTree(t), num); y.Lit? ==> !TruthConstant(y)
    ensures Diff.Printed(Node([Atom("not"), Node([Atom("not"), t])]), num, show) == Diff.Printed(t, num, show)
  {
    var x := Diff.FromTree(t);
    NotTree(t);
    NotTree(Node([Atom("not"), t]));
    DoubleNegation(x, num);
    ConstantsAre(Optimize(x, num));
  }

  lemma {:induction false} NotTree(t: Tree)
    ensures Diff.FromTree(Node([Atom("not"), t])) == Lst([Str("not"), Diff.FromTree(t)])
  {
    var k := [Atom("not"), t];
    assert k[1..] == [t] && [t][1..] == [];
    assert Diff.FromAll([t]) == [Diff.FromTree(t)] + Diff.FromAll([]) == [Diff.FromTree(t)];
    assert Diff.FromAll(k) == [Str("not")] + Diff.FromAll([t]);
  }
}
