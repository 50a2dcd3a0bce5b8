/** Emitted expressions read back as themselves, whatever stands after them. */
module ReadBack {
  import opened Wrappers
  import opened Sql
  import opened SqlExpr
  import opened SqlRead

  /** The number a placeholder shows; MySQL placeholders show none. */
  function Shown(i: nat, d: Dialect): nat {
    if d == MySql then 0 else i
  }

  /** The expression that the text of e stands for: and / or of one operand disappear. */
  function Norm(e: Expr, d: Dialect): Expr
    decreases e, 0
  {
    match e
    case Col(_, _) => e
    case Par(i) => Par(Shown(i, d))
    case Ref(_) => e
    case Call(f, distinct, args) => Call(f, distinct, NormAll(args, d))
    case Over(a, p, o, desc) => Over(Norm(a, d), NormAll(p, d), Norm(o, d), desc)
    case Bin(op, l, r) => Bin(op, Norm(l, d), Norm(r, d))
    case And(es) => if |es| == 1 then Norm(es[0], d) else And(NormAll(es, d))
    case Or(es) => if |es| == 1 then Norm(es[0], d) else Or(NormAll(es, d))
    case Not(x) => Not(Norm(x, d))
    case IsNull(x, negated) => IsNull(Norm(x, d), negated)
  }

  function NormAll(es: seq<Expr>, d: Dialect): (r: seq<Expr>)
    ensures |r| == |es| && forall i :: 0 <= i < |es| ==> r[i] == Norm(es[i], d)
    decreases es, 1
  {
    if es == [] then [] else [Norm(es[0], d)] + NormAll(es[1..], d)
  }

  // ---- the lexemes of an expression ----

  function T(e: Expr, d: Dialect): seq<Lexeme>
    requires Wf(e)
    decreases e, 0
  {
    match e
    case Col(a, n) => [Name(a), Dot, Name(n)]
    case Par(i) => [Param(Shown(i, d))]
    case Ref(n) => [Name(n)]
    case Call(f, distinct, args) =>
      [Word(f), Open] + (if distinct then [K(KDistinct)] else []) + TSep(args, Comma, d) + [Close]
    case Over(a, p, o, desc) =>
      T(a, d) + [K(KOver), Open, K(KPartition), K(KBy)] + TSep(p, Comma, d) + [K(KOrder), K(KBy)] + T(o, d)
      + [K(if desc then KDesc else KAsc), Close]
    case Bin(op, l, r) => [Open] + T(l, d) + [Op(op)] + T(r, d) + [Close]
    case And(es) => [Open] + TSep(es, K(KAnd), d) + [Close]
    case Or(es) => [Open] + TSep(es, K(KOr), d) + [Close]
    case Not(x) => [Open, K(KNot)] + T(x, d) + [Close]
    case IsNull(x, negated) =>
      [Open] + T(x, d) + (if negated then [K(KIs), K(KNot), K(KNull)] else [K(KIs), K(KNull)]) + [Close]
  }

  function TSep(es: seq<Expr>, sep: Lexeme, d: Dialect): seq<Lexeme>
    requires forall x :: x in es ==> Wf(x)
    decreases es, |es| + 1
  {
    if es == [] then [] else T(es[0], d) + TFrom(es, 1, sep, d)
  }

  /** The operands from the i-th on, each after its separator. */
  function TFrom(es: seq<Expr>, i: nat, sep: Lexeme, d: Dialect): seq<Lexeme>
    requires i <= |es| && forall x :: x in es ==> Wf(x)
    decreases es, |es| - i
  {
    if i == |es| then [] else [sep] + T(es[i], d) + TFrom(es, i + 1, sep, d)
  }

  lemma {:induction false} FirstLexeme(e: Expr, d: Dialect)
    requires Wf(e)
    ensures T(e, d) != []
    ensures var x := T(e, d)[0]; x.Open? || x.Param? || x.Name? || x.Word?
  {
    if e.Over? {
      FirstLexeme(e.arg, d);
    }
  }

  lemma {:induction false} NextOperand(es: seq<Expr>, i: nat, sep: Lexeme, z: seq<Lexeme>, d: Dialect)
    requires i < |es| && forall x :: x in es ==> Wf(x)
    ensures var ts, next := TFrom(es, i, sep, d) + z, TFrom(es, i + 1, sep, d) + z;
            At(ts, sep) && ts[1..] == T(es[i], d) + next
  {
    var a, b := T(es[i], d), TFrom(es, i + 1, sep, d);
    assert [sep] + a + b + z == [sep] + (a + (b + z));
  }

  lemma {:induction false} FirstOperand(es: seq<Expr>, sep: Lexeme, z: seq<Lexeme>, d: Dialect)
    requires es != [] && forall x :: x in es ==> Wf(x)
    ensures TSep(es, sep, d) + z == T(es[0], d) + (TFrom(es, 1, sep, d) + z)
  {
    var a, b := T(es[0], d), TFrom(es, 1, sep, d);
    assert (a + b) + z == a + (b + z);
  }

  lemma {:induction false} NormSplit(es: seq<Expr>, i: nat, acc: seq<Expr>, d: Dialect)
    requires i < |es|
    ensures acc + [Norm(es[i], d)] + NormAll(es, d)[i + 1..] == acc + NormAll(es, d)[i..]
  {
    var all := NormAll(es, d);
    assert all[i..] == [all[i]] + all[i + 1..];
  }

  // ---- what may follow at each level ----

  ghost predicate NoPost(ts: seq<Lexeme>) { !At(ts, Dot) && !At(ts, K(KOver)) }
  ghost predicate NoTest(ts: seq<Lexeme>) { NoPost(ts) && (ts != [] ==> !ts[0].Op?) && !At(ts, K(KIs)) }
  ghost predicate NoOr(ts: seq<Lexeme>) { NoTest(ts) && !At(ts, K(KAnd)) && !At(ts, K(KOr)) }

  lemma {:induction false} FromPost(ts: seq<Lexeme>, e: Expr, rest: seq<Lexeme>)
    requires ParsePost(ts) == Some((e, rest)) && !At(ts, K(KNot)) && NoTest(rest)
    ensures ParseNot(ts) == Some((e, rest))
  {
    FromProduct(ts, e, rest);
  }

  lemma {:induction false} FromProduct(ts: seq<Lexeme>, e: Expr, rest: seq<Lexeme>)
    requires ParseProduct(ts) == Some((e, rest)) && !At(ts, K(KNot)) && NoTest(rest)
    ensures ParseNot(ts) == Some((e, rest))
  {
    assert ParseSum(ts) == SumRest(e, rest) == Some((e, rest));
    assert ParseNot(ts) == Test(e, rest);
  }

  lemma {:induction false} FromNot(ts: seq<Lexeme>, e: Expr, rest: seq<Lexeme>)
    requires ParseNot(ts) == Some((e, rest)) && NoOr(rest)
    ensures ParseOr(ts) == Some((e, rest))
  {
    assert ParseAnd(ts) == AndRest([e], rest) == Some((e, rest));
    assert ParseOr(ts) == OrRest([e], rest);
  }

  // ---- reading back ----

  /** A complete operand: at the level of comparisons nothing after it is taken along. */
  lemma {:induction false} Operand(e: Expr, rest: seq<Lexeme>, d: Dialect)
    requires Wf(e) && NoTest(rest)
    ensures ParseNot(T(e, d) + rest) == Some((Norm(e, d), rest))
    ensures NoOr(rest) ==> ParseOr(T(e, d) + rest) == Some((Norm(e, d), rest))
    decreases e, 3
  {
    Post(e, rest, d);
    FirstLexeme(e, d);
    var ts := T(e, d) + rest;
    assert ts[0] == T(e, d)[0];
    FromPost(ts, Norm(e, d), rest);
    if NoOr(rest) {
      FromNot(ts, Norm(e, d), rest);
    }
  }

  /** The main induction: every emitted expression is a primary, perhaps with windows after it. */
  lemma {:induction false} Post(e: Expr, rest: seq<Lexeme>, d: Dialect)
    requires Wf(e) && !At(rest, Dot)
    ensures ParsePost(T(e, d) + rest) == Windows(Norm(e, d), rest)
    decreases e, 2
  {
    var ts := T(e, d) + rest;
    match e
    case Col(a, n) =>
      assert ts[0] == Name(a) && ts[1] == Dot && ts[2] == Name(n) && ts[3..] == rest;
    case Par(i) =>
      assert ts[1..] == rest;
    case Ref(n) =>
      assert ts[1..] == rest;
    case Call(f, distinct, args) => CallBack(e, rest, d);
    case Over(a, p, o, desc) => OverBack(e, rest, d);
    case Bin(op, l, r) => BinBack(e, rest, d);
    case And(es) => AndBack(es, rest, d);
    case Or(es) => OrBack(es, rest, d);
    case Not(x) =>
      var inner := T(x, d) + ([Close] + rest);
      assert ts == [Open, K(KNot)] + inner;
      assert ts[1..] == [K(KNot)] + inner && ts[1..][1..] == inner;
      Operand(x, [Close] + rest, d);
      Bracketed(ts, Not(Norm(x, d)), rest);
    case IsNull(x, negated) =>
      NullBack(x, negated, rest, d);
  }

  /** A bracketed text is read as whatever its inside is read as. */
  lemma {:induction false} Bracketed(ts: seq<Lexeme>, e: Expr, rest: seq<Lexeme>)
    requires At(ts, Open)
    requires ParseNot(ts[1..]) == Some((e, [Close] + rest)) || ParseAnd(ts[1..]) == Some((e, [Close] + rest))
             || ParseOr(ts[1..]) == Some((e, [Close] + rest))
    ensures ParsePost(ts) == Windows(e, rest)
  {
    var z := [Close] + rest;
    if ParseNot(ts[1..]) == Some((e, z)) {
      FromNot(ts[1..], e, z);
    } else if ParseAnd(ts[1..]) == Some((e, z)) {
      assert ParseOr(ts[1..]) == OrRest([e], z);
    }
    assert ParseOr(ts[1..]) == Some((e, z)) && z[1..] == rest;
    assert ParsePrimary(ts) == Some((e, rest));
  }

  function NullTestL(negated: bool): seq<Lexeme> {
    if negated then [K(KIs), K(KNot), K(KNull)] else [K(KIs), K(KNull)]
  }

  /** What stands inside the brackets of a null test. */
  lemma {:induction false} NullInside(x: Expr, negated: bool, rest: seq<Lexeme>, d: Dialect)
    requires Wf(x)
    ensures var z := [Close] + rest;
            ParseNot(T(x, d) + (NullTestL(negated) + z)) == Some((IsNull(Norm(x, d), negated), z))
    decreases x, 3
  {
    var z := [Close] + rest;
    var y := NullTestL(negated) + z;
    var ts, e := T(x, d) + y, Norm(x, d);
    assert y[0] == K(KIs);
    Post(x, y, d);
    FirstLexeme(x, d);
    assert ts[0] == T(x, d)[0];
    assert ParseProduct(ts) == ProductRest(e, y) == Some((e, y));
    assert ParseSum(ts) == SumRest(e, y) == Some((e, y));
    TestReads(e, negated, z);
  }

  lemma {:induction false} NullBack(x: Expr, negated: bool, rest: seq<Lexeme>, d: Dialect)
    requires Wf(x)
    ensures ParsePost(T(IsNull(x, negated), d) + rest) == Windows(IsNull(Norm(x, d), negated), rest)
    decreases x, 4
  {
    var ts := T(IsNull(x, negated), d) + rest;
    var inner := T(x, d) + (NullTestL(negated) + ([Close] + rest));
    assert ts == [Open] + inner && ts[1..] == inner;
    NullInside(x, negated, rest, d);
    Bracketed(ts, IsNull(Norm(x, d), negated), rest);
  }

  lemma {:induction false} TestReads(e: Expr, negated: bool, z: seq<Lexeme>)
    ensures Test(e, NullTestL(negated) + z) == Some((IsNull(e, negated), z))
  {
    var y := NullTestL(negated) + z;
    if negated {
      assert At(y[1..], K(KNot)) && At(y[2..], K(KNull)) && y[3..] == z;
    } else {
      assert At(y[1..], K(KNull)) && y[2..] == z;
    }
  }

  lemma {:induction false} BinStep(op: BinOp, inner: seq<Lexeme>, l: Expr, right: seq<Lexeme>, r: Expr, z: seq<Lexeme>)
    requires !At(inner, K(KNot)) && At(z, Close)
    requires ParsePost(inner) == Some((l, [Op(op)] + right)) && ParsePost(right) == Some((r, z))
    ensures ParseNot(inner) == Some((Bin(op, l, r), z))
  {
    var y, v := [Op(op)] + right, Bin(op, l, r);
    assert y[1..] == right;
    assert ParseProduct(inner) == ProductRest(l, y);
    if IsProduct(op) {
      assert ProductRest(l, y) == ProductRest(v, z) == Some((v, z));
      FromProduct(inner, v, z);
    } else {
      assert ProductRest(l, y) == Some((l, y));
      assert ParseProduct(right) == ProductRest(r, z) == Some((r, z));
      assert ParseSum(inner) == SumRest(l, y);
      if IsSum(op) {
        assert SumRest(l, y) == SumRest(v, z) == Some((v, z));
      } else {
        assert SumRest(l, y) == Some((l, y));
        assert ParseSum(right) == SumRest(r, z) == Some((r, z));
        assert ParseNot(inner) == Test(l, y) == Some((v, z));
      }
    }
  }

  lemma {:induction false} BinBack(e: Expr, rest: seq<Lexeme>, d: Dialect)
    requires Wf(e) && e.Bin?
    ensures ParsePost(T(e, d) + rest) == Windows(Norm(e, d), rest)
    decreases e, 0
  {
    var z := [Close] + rest;
    var right := T(e.r, d) + z;
    var y := [Op(e.op)] + right;
    var inner := T(e.l, d) + y;
    var ts := T(e, d) + rest;
    assert ts == [Open] + inner && ts[1..] == inner;
    Post(e.l, y, d);
    Post(e.r, z, d);
    FirstLexeme(e.l, d);
    assert inner[0] == T(e.l, d)[0];
    BinStep(e.op, inner, Norm(e.l, d), right, Norm(e.r, d), z);
    Bracketed(ts, Norm(e, d), rest);
  }

  lemma {:induction false} AndStep(acc: seq<Expr>, e: Expr, ts: seq<Lexeme>, next: seq<Lexeme>)
    requires acc != [] && At(ts, K(KAnd)) && ParseNot(ts[1..]) == Some((e, next))
    ensures AndRest(acc, ts) == AndRest(acc + [e], next)
  {
  }

  lemma {:induction false} OrStep(acc: seq<Expr>, e: Expr, ts: seq<Lexeme>, next: seq<Lexeme>)
    requires acc != [] && At(ts, K(KOr)) && ParseNot(ts[1..]) == Some((e, next)) && !At(next, K(KAnd))
    ensures OrRest(acc, ts) == OrRest(acc + [e], next)
  {
    assert ParseAnd(ts[1..]) == AndRest([e], next) == Some((e, next));
  }

  /** The i-th operand of a separated list is read up to the next separator, or to z. */
  lemma {:induction false} OperandIn(es: seq<Expr>, i: nat, sep: Lexeme, z: seq<Lexeme>, d: Dialect)
    requires i < |es| && (forall x :: x in es ==> Wf(x)) && NoOr(z)
    requires sep == K(KAnd) || sep == K(KOr) || sep == Comma
    ensures var ts, next := TFrom(es, i, sep, d) + z, TFrom(es, i + 1, sep, d) + z;
            && At(ts, sep) && ts[1..] == T(es[i], d) + next
            && (i + 1 == |es| ==> next == z) && (i + 1 < |es| ==> At(next, sep))
            && NoTest(next)
            && ParseNot(ts[1..]) == Some((Norm(es[i], d), next))
            && (sep == Comma ==> ParseOr(ts[1..]) == Some((Norm(es[i], d), next)))
    decreases es, 0
  {
    var next := TFrom(es, i + 1, sep, d) + z;
    NextOperand(es, i, sep, z, d);
    if i + 1 < |es| {
      NextOperand(es, i + 1, sep, z, d);
    } else {
      assert next == z;
    }
    Operand(es[i], next, d);
  }

  /** The operands of an AND are collected one after the other; those of an OR likewise. */
  lemma {:induction false} CollectAnd(acc: seq<Expr>, es: seq<Expr>, i: nat, z: seq<Lexeme>, d: Dialect)
    requires acc != [] && i <= |es| && (forall x :: x in es ==> Wf(x)) && NoOr(z)
    ensures var all := acc + NormAll(es, d)[i..];
            AndRest(acc, TFrom(es, i, K(KAnd), d) + z) == Some((if |all| == 1 then all[0] else And(all), z))
    decreases es, |es| - i
  {
    var ts := TFrom(es, i, K(KAnd), d) + z;
    if i == |es| {
      assert ts == z;
      assert acc + NormAll(es, d)[i..] == acc;
    } else {
      OperandIn(es, i, K(KAnd), z, d);
      var next, e := TFrom(es, i + 1, K(KAnd), d) + z, Norm(es[i], d);
      AndStep(acc, e, ts, next);
      CollectAnd(acc + [e], es, i + 1, z, d);
      NormSplit(es, i, acc, d);
    }
  }

  lemma {:induction false} CollectOr(acc: seq<Expr>, es: seq<Expr>, i: nat, z: seq<Lexeme>, d: Dialect)
    requires acc != [] && i <= |es| && (forall x :: x in es ==> Wf(x)) && NoOr(z)
    ensures var all := acc + NormAll(es, d)[i..];
            OrRest(acc, TFrom(es, i, K(KOr), d) + z) == Some((if |all| == 1 then all[0] else Or(all), z))
    decreases es, |es| - i
  {
    var ts := TFrom(es, i, K(KOr), d) + z;
    if i == |es| {
      assert ts == z;
      assert acc + NormAll(es, d)[i..] == acc;
    } else {
      OperandIn(es, i, K(KOr), z, d);
      var next, e := TFrom(es, i + 1, K(KOr), d) + z, Norm(es[i], d);
      OrStep(acc, e, ts, next);
      CollectOr(acc + [e], es, i + 1, z, d);
      NormSplit(es, i, acc, d);
    }
  }

  lemma {:induction false} AndBack(es: seq<Expr>, rest: seq<Lexeme>, d: Dialect)
    requires es != [] && forall x :: x in es ==> Wf(x)
    ensures ParsePost(T(And(es), d) + rest) == Windows(Norm(And(es), d), rest)
    decreases es, |es| + 1
  {
    var z := [Close] + rest;
    var next, first := TFrom(es, 1, K(KAnd), d) + z, Norm(es[0], d);
    var ts := T(And(es), d) + rest;
    FirstOperand(es, K(KAnd), z, d);
    assert ts == [Open] + (TSep(es, K(KAnd), d) + z) && ts[1..] == T(es[0], d) + next;
    assert NoTest(next) by { if 1 < |es| { NextOperand(es, 1, K(KAnd), z, d); } else { assert next == z; } }
    Operand(es[0], next, d);
    CollectAnd([first], es, 1, z, d);
    assert [first] + NormAll(es, d)[1..] == NormAll(es, d);
    assert ParseAnd(ts[1..]) == AndRest([first], next);
    Bracketed(ts, Norm(And(es), d), rest);
  }

  lemma {:induction false} OrBack(es: seq<Expr>, rest: seq<Lexeme>, d: Dialect)
    requires es != [] && forall x :: x in es ==> Wf(x)
    ensures ParsePost(T(Or(es), d) + rest) == Windows(Norm(Or(es), d), rest)
    decreases es, |es| + 2
  {
    var ts, inner := T(Or(es), d) + rest, TSep(es, K(KOr), d) + ([Close] + rest);
    assert ts == [Open] + inner && ts[1..] == inner;
    OrInside(es, rest, d);
    Bracketed(ts, Norm(Or(es), d), rest);
  }

  lemma {:induction false} OrInside(es: seq<Expr>, rest: seq<Lexeme>, d: Dialect)
    requires es != [] && forall x :: x in es ==> Wf(x)
    ensures ParseOr(TSep(es, K(KOr), d) + ([Close] + rest)) == Some((Norm(Or(es), d), [Close] + rest))
    decreases es, |es| + 1
  {
    var z := [Close] + rest;
    var next, first := TFrom(es, 1, K(KOr), d) + z, Norm(es[0], d);
    FirstOperand(es, K(KOr), z, d);
    AfterFirst(es, z, d);
    Operand(es[0], next, d);
    OrJoined(es, z, d);
    OrParsed(T(es[0], d) + next, first, next, Norm(Or(es), d), z);
  }

  lemma {:induction false} OrJoined(es: seq<Expr>, z: seq<Lexeme>, d: Dialect)
    requires es != [] && (forall x :: x in es ==> Wf(x)) && NoOr(z)
    ensures OrRest([Norm(es[0], d)], TFrom(es, 1, K(KOr), d) + z) == Some((Norm(Or(es), d), z))
    decreases es, |es|
  {
    CollectOr([Norm(es[0], d)], es, 1, z, d);
    assert [Norm(es[0], d)] + NormAll(es, d)[1..] == NormAll(es, d);
  }

  lemma {:induction false} AfterFirst(es: seq<Expr>, z: seq<Lexeme>, d: Dialect)
    requires es != [] && (forall x :: x in es ==> Wf(x)) && NoOr(z)
    ensures var next := TFrom(es, 1, K(KOr), d) + z; NoTest(next) && !At(next, K(KAnd))
  {
    if 1 < |es| {
      NextOperand(es, 1, K(KOr), z, d);
    } else {
      assert TFrom(es, 1, K(KOr), d) + z == z;
    }
  }

  lemma {:induction false} OrParsed(ts: seq<Lexeme>, first: Expr, next: seq<Lexeme>, e: Expr, z: seq<Lexeme>)
    requires ParseNot(ts) == Some((first, next)) && !At(next, K(KAnd)) && OrRest([first], next) == Some((e, z))
    ensures ParseOr(ts) == Some((e, z))
  {
    assert ParseAnd(ts) == AndRest([first], next) == Some((first, next));
  }

  lemma {:induction false} ListStep(e: Expr, es: seq<Expr>, ts: seq<Lexeme>, next: seq<Lexeme>, z: seq<Lexeme>)
    requires ParseOr(ts) == Some((e, next))
    requires if At(next, Comma) then ParseList(next[1..]) == Some((es, z)) else es == [] && next == z
    ensures ParseList(ts) == Some(([e] + es, z))
  {
    assert [e] + [] == [e];
  }

  /** The rest of a list after its first i elements, from a comma on. */
  lemma {:induction false} ListBack(es: seq<Expr>, i: nat, z: seq<Lexeme>, d: Dialect)
    requires 0 < i < |es| && (forall x :: x in es ==> Wf(x)) && NoOr(z) && !At(z, Comma)
    ensures var ts := TFrom(es, i, Comma, d) + z;
            At(ts, Comma) && ParseList(ts[1..]) == Some((NormAll(es, d)[i..], z))
    decreases es, |es| - i
  {
    OperandIn(es, i, Comma, z, d);
    var ts, next := TFrom(es, i, Comma, d) + z, TFrom(es, i + 1, Comma, d) + z;
    if i + 1 < |es| {
      ListBack(es, i + 1, z, d);
    }
    ListFrom(NormAll(es, d), i, ts[1..], next, z);
  }

  lemma {:induction false} ListFrom(all: seq<Expr>, i: nat, ts: seq<Lexeme>, next: seq<Lexeme>, z: seq<Lexeme>)
    requires i < |all| && !At(z, Comma) && ParseOr(ts) == Some((all[i], next))
    requires if i + 1 < |all| then At(next, Comma) && ParseList(next[1..]) == Some((all[i + 1..], z)) else next == z
    ensures ParseList(ts) == Some((all[i..], z))
  {
    FromHere(all, i);
    ListStep(all[i], all[i + 1..], ts, next, z);
  }

  lemma {:induction false} FromHere(es: seq<Expr>, i: nat)
    requires i < |es|
    ensures es[i..] == [es[i]] + es[i + 1..]
  {
  }

  /** A whole comma-separated list. */
  lemma {:induction false} WholeList(es: seq<Expr>, z: seq<Lexeme>, d: Dialect)
    requires es != [] && (forall x :: x in es ==> Wf(x)) && NoOr(z) && !At(z, Comma)
    ensures ParseList(TSep(es, Comma, d) + z) == Some((NormAll(es, d), z))
    decreases es, |es| + 1
  {
    var next := TFrom(es, 1, Comma, d) + z;
    FirstOperand(es, Comma, z, d);
    if |es| > 1 {
      ListBack(es, 1, z, d);
    } else {
      assert next == z;
    }
    Operand(es[0], next, d);
    ListStep(Norm(es[0], d), NormAll(es, d)[1..], T(es[0], d) + next, next, z);
    assert [Norm(es[0], d)] + NormAll(es, d)[1..] == NormAll(es, d);
  }

  lemma {:induction false} CallStep(f: string, distinct: bool, args: seq<Lexeme>, es: seq<Expr>, rest: seq<Lexeme>)
    requires ParseList(args) == Some((es, [Close] + rest)) && !At(args, K(KDistinct))
    ensures ParsePrimary([Word(f), Open] + (if distinct then [K(KDistinct)] else []) + args)
            == Some((Call(f, distinct, es), rest))
  {
    var z := [Close] + rest;
    assert z[1..] == rest;
    if distinct {
      var ts := [Word(f), Open, K(KDistinct)] + args;
      assert ts[3..] == args && At(ts[1..], Open) && At(ts[2..], K(KDistinct));
      assert [Word(f), Open] + [K(KDistinct)] + args == ts;
    } else {
      var ts := [Word(f), Open] + args;
      assert ts[2..] == args && At(ts[1..], Open);
      assert [Word(f), Open] + [] + args == ts;
    }
  }

  lemma {:induction false} CallBack(e: Expr, rest: seq<Lexeme>, d: Dialect)
    requires Wf(e) && e.Call?
    ensures ParsePost(T(e, d) + rest) == Windows(Norm(e, d), rest)
    decreases e, 0
  {
    var z := [Close] + rest;
    var list := TSep(e.args, Comma, d);
    WholeList(e.args, z, d);
    FirstLexeme(e.args[0], d);
    assert (list + z)[0] == list[0] == T(e.args[0], d)[0];
    CallStep(e.fn, e.distinct, list + z, NormAll(e.args, d), rest);
    CallShape(e, rest, d);
  }

  lemma {:induction false} CallShape(e: Expr, rest: seq<Lexeme>, d: Dialect)
    requires Wf(e) && e.Call?
    ensures T(e, d) + rest == [Word(e.fn), Open] + (if e.distinct then [K(KDistinct)] else [])
                              + (TSep(e.args, Comma, d) + ([Close] + rest))
  {
  }

  lemma {:induction false} WindowStep(e: Expr, part: seq<Lexeme>, p: seq<Expr>, order: seq<Lexeme>, o: Expr, desc: bool, rest: seq<Lexeme>)
    requires ParseList(part) == Some((p, [K(KOrder), K(KBy)] + order))
    requires ParseOr(order) == Some((o, [K(if desc then KDesc else KAsc), Close] + rest))
    ensures ParseWindow(e, [K(KOver), Open, K(KPartition), K(KBy)] + part) == Some((Over(e, p, o, desc), rest))
  {
    var win := [K(KOver), Open, K(KPartition), K(KBy)] + part;
    var z := [K(KOrder), K(KBy)] + order;
    var tail := [K(if desc then KDesc else KAsc), Close] + rest;
    assert win[4..] == part && z[2..] == order && tail[2..] == rest;
    assert tail[0] == K(if desc then KDesc else KAsc) && tail[1] == Close;
    assert [K(if desc then KDesc else KAsc), Close] <= tail;
  }

  /** The lexemes of a window from OVER on. */
  function WindowL(e: Expr, rest: seq<Lexeme>, d: Dialect): seq<Lexeme>
    requires Wf(e) && e.Over?
  {
    [K(KOver), Open, K(KPartition), K(KBy)]
    + (TSep(e.part, Comma, d) + ([K(KOrder), K(KBy)] + (T(e.order, d) + ([K(if e.desc then KDesc else KAsc), Close] + rest))))
  }

  lemma {:induction false} OverShape(e: Expr, rest: seq<Lexeme>, d: Dialect)
    requires Wf(e) && e.Over?
    ensures T(e, d) + rest == T(e.arg, d) + WindowL(e, rest, d)
    ensures At(WindowL(e, rest, d), K(KOver))
  {
  }

  lemma {:induction false} WindowBack(e: Expr, rest: seq<Lexeme>, d: Dialect)
    requires Wf(e) && e.Over?
    ensures ParseWindow(Norm(e.arg, d), WindowL(e, rest, d)) == Some((Norm(e, d), rest))
    decreases e, 0
  {
    var order := T(e.order, d) + ([K(if e.desc then KDesc else KAsc), Close] + rest);
    var z := [K(KOrder), K(KBy)] + order;
    PartitionBack(e.part, order, d);
    OrderBack(e.order, e.desc, rest, d);
    WindowStep(Norm(e.arg, d), TSep(e.part, Comma, d) + z, NormAll(e.part, d), order, Norm(e.order, d), e.desc, rest);
    NormOver(e, d);
  }

  lemma {:induction false} PartitionBack(es: seq<Expr>, order: seq<Lexeme>, d: Dialect)
    requires es != [] && (forall x :: x in es ==> Wf(x))
    ensures var z := [K(KOrder), K(KBy)] + order; ParseList(TSep(es, Comma, d) + z) == Some((NormAll(es, d), z))
    decreases es, |es| + 2
  {
    WholeList(es, [K(KOrder), K(KBy)] + order, d);
  }

  lemma {:induction false} OrderBack(e: Expr, desc: bool, rest: seq<Lexeme>, d: Dialect)
    requires Wf(e)
    ensures var tail := [K(if desc then KDesc else KAsc), Close] + rest;
            ParseOr(T(e, d) + tail) == Some((Norm(e, d), tail))
    decreases e, 4
  {
    Operand(e, [K(if desc then KDesc else KAsc), Close] + rest, d);
  }

  lemma {:induction false} NormOver(e: Expr, d: Dialect)
    requires e.Over?
    ensures Norm(e, d) == Over(Norm(e.arg, d), NormAll(e.part, d), Norm(e.order, d), e.desc)
  {
  }

  lemma {:induction false} OverBack(e: Expr, rest: seq<Lexeme>, d: Dialect)
    requires Wf(e) && e.Over?
    ensures ParsePost(T(e, d) + rest) == Windows(Norm(e, d), rest)
    decreases e, 1
  {
    OverShape(e, rest, d);
    Post(e.arg, WindowL(e, rest, d), d);
    WindowBack(e, rest, d);
    WindowsGoOn(Norm(e.arg, d), WindowL(e, rest, d), Norm(e, d), rest);
  }

  lemma {:induction false} WindowsGoOn(a: Expr, win: seq<Lexeme>, e: Expr, rest: seq<Lexeme>)
    requires At(win, K(KOver)) && ParseWindow(a, win) == Some((e, rest))
    ensures Windows(a, win) == Windows(e, rest)
  {
  }

  /** The theorem: an emitted expression, whatever harmless text follows it, reads as itself. */
  lemma {:induction false} ExpressionReadsBack(e: Expr, rest: seq<Lexeme>, d: Dialect)
    requires Wf(e) && NoOr(rest)
    ensures ParseOr(T(e, d) + rest) == Some((Norm(e, d), rest))
  {
    Operand(e, rest, d);
  }
}
