/** compile_tree's writing half as it runs: clause after clause into the buffer and the table. */
module Writer {
  import opened Wrappers
  import opened Sexpr
  import opened Decimal
  import opened Catalog
  import opened Emit
  import opened Buffer
  import opened Sql
  import opened Emitter
  import C = Compile
  import E = SqlExpr
  import St = Statement

  function IdText(x: string, d: Dialect): string { SpellOne(Id(x), d) }

  function SourceText(o: Source, d: Dialect): string {
    IdText(o.schema, d) + "." + IdText(o.table, d) + " AS " + IdText(o.alias, d)
  }

  lemma {:induction false} AsText(d: Dialect)
    ensures Spell(St.AS, d) == " AS "
  {
    SpellWord(Sp, W("AS"), Sp, d);
    assert " " + "AS" + " " == " AS ";
  }

  lemma {:induction false} SourceSpelling(o: Source, d: Dialect)
    ensures Spell(St.SourcePieces(o), d) == SourceText(o, d)
  {
    AsText(d);
    SpellWord(Id(o.schema), S("."), Id(o.table), d);
    SpellWord(Id(o.alias), Sp, Sp, d);
    FramedText([Id(o.schema), S("."), Id(o.table)], St.AS, [Id(o.alias)], d);
  }

  // ---- the select list ----

  predicate FieldOk(f: Tree) { Form(f, "field", 3) && Name(f.kids[2]) }

  function FieldOne(fs: seq<Tree>, i: nat, src: seq<Source>, s: Schema, d: Dialect, ps: seq<Param>): Out
    requires i < |fs|
  {
    if !FieldOk(fs[i]) then None
    else AndLit(AndNode(Lit(if i > 0 then ", " else "", ps), fs[i].kids[1], src, s, d, ps), " AS " + IdText(fs[i].kids[2].text, d), ps)
  }

  function FieldsOut(fs: seq<Tree>, i: nat, src: seq<Source>, s: Schema, d: Dialect, ps: seq<Param>): Out
    requires i <= |fs|
    decreases |fs| - i
  {
    if i == |fs| then Lit("", ps)
    else
      var one := FieldOne(fs, i, src, s, d, ps);
      Then(one, FieldsOut(fs, i + 1, src, s, d, After(one, ps)))
  }

  /** The text of further fields, each after a comma. */
  function FieldsTail(fs: seq<(E.Expr, string)>, d: Dialect): string {
    if fs == [] then "" else ", " + Spell(St.FieldPieces(fs[0]), d) + FieldsTail(fs[1..], d)
  }

  lemma {:induction false} FieldSpelling(f: (E.Expr, string), d: Dialect)
    ensures Spell(St.FieldPieces(f), d) == Spell(E.Pieces(f.0), d) + (" AS " + IdText(f.1, d))
  {
    AsText(d);
    SpellWord(Id(f.1), Sp, Sp, d);
    FramedText(E.Pieces(f.0), St.AS, [Id(f.1)], d);
  }

  lemma {:induction false} FieldsSpelling(fs: seq<(E.Expr, string)>, d: Dialect)
    requires fs != []
    ensures Spell(St.FieldsPieces(fs), d) == Spell(St.FieldPieces(fs[0]), d) + FieldsTail(fs[1..], d)
  {
    var x := Spell(St.FieldPieces(fs[0]), d);
    if |fs| == 1 {
      assert fs[1..] == [] && x + "" == x;
    } else {
      var rest := fs[1..];
      FieldsSpelling(rest, d);
      CommaText(d);
      FramedText(St.FieldPieces(fs[0]), E.COMMA, St.FieldsPieces(rest), d);
      Regroup(x, ", ", Spell(St.FieldPieces(rest[0]), d), FieldsTail(rest[1..], d));
    }
  }

  lemma {:induction false} FieldOneIs(fs: seq<Tree>, i: nat, src: seq<Source>, s: Schema, d: Dialect, ps: seq<Param>)
    requires i < |fs|
    ensures FieldOne(fs, i, src, s, d, ps) ==
            if !FieldOk(fs[i]) then None
            else match Number(fs[i].kids[1], src, s, ps)
              case None => None
              case Some((e, p1)) =>
                Some(((if i > 0 then ", " else "") + Spell(St.FieldPieces((e, fs[i].kids[2].text)), d), p1))
  {
    if FieldOk(fs[i]) {
      var n := Number(fs[i].kids[1], src, s, ps);
      if n.Some? {
        FieldSpelling((n.value.0, fs[i].kids[2].text), d);
        Cat(if i > 0 then ", " else "", Spell(E.Pieces(n.value.0), d), " AS " + IdText(fs[i].kids[2].text, d));
      }
    }
  }

  lemma {:induction false} FieldsOutTail(fs: seq<Tree>, i: nat, src: seq<Source>, s: Schema, d: Dialect, ps: seq<Param>)
    requires 0 < i <= |fs|
    ensures FieldsOut(fs, i, src, s, d, ps) ==
            match C.FieldsPlan(fs[i..], src, s, ps) case None => None case Some((xs, qs)) => Some((FieldsTail(xs, d), qs))
    decreases |fs| - i
  {
    if i < |fs| {
      assert fs[i..][0] == fs[i] && fs[i..][1..] == fs[i + 1..];
      FieldOneIs(fs, i, src, s, d, ps);
      if FieldOk(fs[i]) {
        var n := Number(fs[i].kids[1], src, s, ps);
        if n.Some? {
          FieldsOutTail(fs, i + 1, src, s, d, n.value.1);
          var more := C.FieldsPlan(fs[i + 1..], src, s, n.value.1);
          if more.Some? {
            FieldsTailCons((n.value.0, fs[i].kids[2].text), more.value.0, d);
          }
        }
      }
    }
  }

  lemma {:induction false} FieldsTailCons(f: (E.Expr, string), fs: seq<(E.Expr, string)>, d: Dialect)
    ensures FieldsTail([f] + fs, d) == ", " + Spell(St.FieldPieces(f), d) + FieldsTail(fs, d)
  {
    assert ([f] + fs)[1..] == fs;
  }

  lemma {:induction false} FieldsTarget(fs: seq<Tree>, src: seq<Source>, s: Schema, d: Dialect, ps: seq<Param>)
    requires fs != []
    ensures FieldsOut(fs, 0, src, s, d, ps) ==
            match C.FieldsPlan(fs, src, s, ps) case None => None case Some((xs, qs)) => Some((Spell(St.FieldsPieces(xs), d), qs))
  {
    FieldOneIs(fs, 0, src, s, d, ps);
    if FieldOk(fs[0]) {
      var n := Number(fs[0].kids[1], src, s, ps);
      if n.Some? {
        FieldsOutTail(fs, 1, src, s, d, n.value.1);
        var more := C.FieldsPlan(fs[1..], src, s, n.value.1);
        if more.Some? {
          var f := (n.value.0, fs[0].kids[2].text);
          assert ([f] + more.value.0)[1..] == more.value.0;
          FieldsSpelling([f] + more.value.0, d);
          var x := Spell(St.FieldPieces(f), d);
          assert "" + x == x;
        }
      }
    }
  }

  method EmitField(b: Buf, t: ParamTable, fs: seq<Tree>, i: nat, src: seq<Source>, s: Schema, d: Dialect) returns (ok: bool)
    requires b.Valid() && t.Valid() && i < |fs|
    modifies b, b.s, t, t.slots
    ensures b.Valid() && t.Valid() && (b.s == old(b.s) || fresh(b.s))
    ensures Done(ok, old(b.text), b.text, t.items, b.Ceiling(), FieldOne(fs, i, src, s, d, old(t.items)))
  {
    if !FieldOk(fs[i]) {
      return false;
    }
    var lead := if i > 0 then ", " else "";
    var tail := " AS " + IdText(fs[i].kids[2].text, d);
    ghost var ps, before := t.items, b.text;
    ok := PutFirst(b, t, lead);
    ok := NodeNext(b, t, fs[i].kids[1], src, s, d, ok, before, Lit(lead, ps), ps);
    ok := PutNext(b, t, tail, ok, before, AndNode(Lit(lead, ps), fs[i].kids[1], src, s, d, ps), ps);
  }

  method FieldNext(b: Buf, t: ParamTable, fs: seq<Tree>, i: nat, src: seq<Source>, s: Schema, d: Dialect,
                   ghost before: string, ghost acc: Out, ghost ps: seq<Param>) returns (ok: bool, ghost now: Out)
    requires b.Valid() && t.Valid() && i < |fs|
    requires Done(true, before, b.text, t.items, b.Ceiling(), acc)
    modifies b, b.s, t, t.slots
    ensures b.Valid() && t.Valid() && (b.s == old(b.s) || fresh(b.s))
    ensures Done(ok, before, b.text, t.items, b.Ceiling(), now)
    ensures AndFields(now, fs, i + 1, src, s, d, ps) == AndFields(acc, fs, i, src, s, d, ps)
  {
    ghost var mid, items := b.text, t.items;
    ok := EmitField(b, t, fs, i, src, s, d);
    WentOn(ok, before, mid, items, b.text, t.items, b.Ceiling(), acc, FieldOne(fs, i, src, s, d, items));
    FieldsStep(acc, fs, i, src, s, d, ps);
    now := AndField(acc, fs, i, src, s, d, ps);
  }

  /** One more element of a list written from left to right. */
  lemma {:induction false} Advance(acc: Out, one: Out, rest: Out, ps: seq<Param>)
    ensures Then(Then(acc, one), rest) == Then(acc, Then(one, rest))
    ensures acc.Some? && one.Some? ==> After(Then(acc, one), ps) == After(one, After(acc, ps))
  {
    ThenAssoc(acc, one, rest);
  }

  function AndField(a: Out, fs: seq<Tree>, i: nat, src: seq<Source>, s: Schema, d: Dialect, ps: seq<Param>): Out
    requires i < |fs|
  {
    Then(a, FieldOne(fs, i, src, s, d, After(a, ps)))
  }

  /** a, then the fields from the i-th on. */
  function AndFields(a: Out, fs: seq<Tree>, i: nat, src: seq<Source>, s: Schema, d: Dialect, ps: seq<Param>): Out
    requires i <= |fs|
  {
    Then(a, FieldsOut(fs, i, src, s, d, After(a, ps)))
  }

  lemma {:induction false} FieldsStep(acc: Out, fs: seq<Tree>, i: nat, src: seq<Source>, s: Schema, d: Dialect, ps: seq<Param>)
    requires i < |fs|
    ensures AndFields(AndField(acc, fs, i, src, s, d, ps), fs, i + 1, src, s, d, ps) == AndFields(acc, fs, i, src, s, d, ps)
  {
    var one := FieldOne(fs, i, src, s, d, After(acc, ps));
    Advance(acc, one, FieldsOut(fs, i + 1, src, s, d, After(one, After(acc, ps))), ps);
  }

  method FieldsNext(b: Buf, t: ParamTable, fs: seq<Tree>, src: seq<Source>, s: Schema, d: Dialect,
                    so: bool, ghost before: string, ghost a: Out, ghost ps: seq<Param>, ghost whole: Out) returns (ok: bool)
    requires b.Valid() && t.Valid() && whole == AndFields(a, fs, 0, src, s, d, ps)
    requires Done(so, before, b.text, t.items, b.Ceiling(), a)
    modifies b, b.s, t, t.slots
    ensures b.Valid() && t.Valid() && (b.s == old(b.s) || fresh(b.s))
    ensures Done(ok, before, b.text, t.items, b.Ceiling(), whole)
  {
    ok := so;
    var i := 0;
    ghost var acc := a;
    while ok && i < |fs|
      invariant 0 <= i <= |fs|
      invariant b.Valid() && t.Valid() && (b.s == old(b.s) || fresh(b.s))
      invariant Done(ok, before, b.text, t.items, b.Ceiling(), acc)
      invariant AndFields(acc, fs, i, src, s, d, ps) == whole
      decreases |fs| - i
    {
      ok, acc := FieldNext(b, t, fs, i, src, s, d, before, acc, ps);
      i := i + 1;
    }
    FieldsEnd(ok, before, b.text, t.items, b.Ceiling(), acc, fs, i, src, s, d, ps);
  }

  lemma {:induction false} FieldsEnd(ok: bool, before: string, text: string, items: seq<Param>, ceiling: nat, acc: Out,
                                     fs: seq<Tree>, i: nat, src: seq<Source>, s: Schema, d: Dialect, ps: seq<Param>)
    requires i <= |fs| && (ok ==> i == |fs|) && Done(ok, before, text, items, ceiling, acc)
    ensures Done(ok, before, text, items, ceiling, AndFields(acc, fs, i, src, s, d, ps))
  {
    Ended(ok, before, text, items, ceiling, acc, FieldsOut(fs, i, src, s, d, After(acc, ps)), ps, i == |fs|);
  }

  /** After the last turn nothing is left to write, or something has failed. */
  lemma {:induction false} Ended(ok: bool, before: string, text: string, items: seq<Param>, ceiling: nat, acc: Out, rest: Out,
                                 ps: seq<Param>, all: bool)
    requires Done(ok, before, text, items, ceiling, acc) && (ok ==> all) && (all ==> rest == Lit("", After(acc, ps)))
    ensures Done(ok, before, text, items, ceiling, Then(acc, rest))
  {
    if ok {
      ThenEmpty(acc, ps);
    } else {
      Stopped(before, text, items, ceiling, acc, rest);
    }
  }

  // ---- joins ----

  function JoinLead(kind: St.JoinKind): string {
    match kind
    case Inner => " INNER JOIN "
    case Left => " LEFT JOIN "
    case Right => " RIGHT JOIN "
    case Full => " FULL OUTER JOIN "
  }

  lemma {:induction false} LeadText(v: string, d: Dialect)
    ensures Spell([Sp, W(v), Sp, W("JOIN"), Sp], d) == " " + v + " JOIN "
  {
    SpellWord(Sp, W(v), Sp, d);
    SpellWord(W("JOIN"), Sp, Sp, d);
    SpellAppend([Sp, W(v), Sp], [W("JOIN"), Sp], d);
    assert [Sp, W(v), Sp] + [W("JOIN"), Sp] == [Sp, W(v), Sp, W("JOIN"), Sp];
    assert " " + v + " " + ("JOIN" + " ") == " " + v + " JOIN ";
  }

  lemma {:induction false} OuterText(d: Dialect)
    ensures Spell([W("OUTER"), Sp, W("JOIN"), Sp], d) == "OUTER JOIN "
  {
    SpellWord(W("OUTER"), Sp, W("JOIN"), d);
    SpellWord(Sp, Sp, Sp, d);
    SpellAppend([W("OUTER"), Sp, W("JOIN")], [Sp], d);
    assert [W("OUTER"), Sp, W("JOIN")] + [Sp] == [W("OUTER"), Sp, W("JOIN"), Sp];
    assert "OUTER" + " " + "JOIN" + " " == "OUTER JOIN ";
  }

  lemma {:induction false} FullText(d: Dialect)
    ensures Spell(St.JoinWords(St.Full), d) == " FULL OUTER JOIN "
  {
    SpellWord(Sp, W("FULL"), Sp, d);
    OuterText(d);
    SpellAppend([Sp, W("FULL"), Sp], [W("OUTER"), Sp, W("JOIN"), Sp], d);
    FullLetters();
  }

  lemma {:induction false} FullLetters()
    ensures " " + "FULL" + " " + "OUTER JOIN " == " FULL OUTER JOIN "
  {
  }

  lemma {:induction false} JoinLeadText(kind: St.JoinKind, d: Dialect)
    ensures Spell(St.JoinWords(kind), d) == JoinLead(kind)
  {
    match kind
    case Inner => LeadText("INNER", d); assert " " + "INNER" + " JOIN " == " INNER JOIN ";
    case Left => LeadText("LEFT", d); assert " " + "LEFT" + " JOIN " == " LEFT JOIN ";
    case Right => LeadText("RIGHT", d); assert " " + "RIGHT" + " JOIN " == " RIGHT JOIN ";
    case Full => FullText(d);
  }

  lemma {:induction false} OnText(d: Dialect)
    ensures Spell(St.ON, d) == " ON "
  {
    SpellWord(Sp, W("ON"), Sp, d);
    assert " " + "ON" + " " == " ON ";
  }

  lemma {:induction false} JoinSpelling(j: St.Join, d: Dialect)
    ensures Spell(St.JoinPieces(j), d) == JoinLead(j.kind) + SourceText(j.src, d) + " ON " + Spell(E.Pieces(j.on), d)
  {
    JoinLeadText(j.kind, d);
    SourceSpelling(j.src, d);
    OnText(d);
    SpellAppend(St.JoinWords(j.kind), St.SourcePieces(j.src), d);
    SpellAppend(St.JoinWords(j.kind) + St.SourcePieces(j.src), St.ON, d);
    SpellAppend(St.JoinWords(j.kind) + St.SourcePieces(j.src) + St.ON, E.Pieces(j.on), d);
  }

  function JoinOne(cs: seq<Tree>, src: seq<Source>, i: nat, s: Schema, d: Dialect, ps: seq<Param>): Out
    requires i < |src|
  {
    match C.JoinNode(cs, src[i].alias)
    case None => None
    case Some(j) =>
      if |j.kids| < 5 then None
      else AndNode(Lit(JoinLead(C.KindWritten(j.kids[1])) + SourceText(src[i], d) + " ON ", ps), j.kids[4], src, s, d, ps)
  }

  function JoinsOut(cs: seq<Tree>, src: seq<Source>, i: nat, s: Schema, d: Dialect, ps: seq<Param>): Out
    requires i <= |src|
    decreases |src| - i
  {
    if i == |src| then Lit("", ps)
    else
      var one := JoinOne(cs, src, i, s, d, ps);
      Then(one, JoinsOut(cs, src, i + 1, s, d, After(one, ps)))
  }

  lemma {:induction false} JoinsCons(j: St.Join, js: seq<St.Join>, d: Dialect)
    ensures Spell(St.JoinsPieces([j] + js), d) == Spell(St.JoinPieces(j), d) + Spell(St.JoinsPieces(js), d)
  {
    assert ([j] + js)[1..] == js;
    SpellAppend(St.JoinPieces(j), St.JoinsPieces(js), d);
  }

  /** The join planned for source i and the table after it. */
  function PlanOne(cs: seq<Tree>, src: seq<Source>, i: nat, s: Schema, ps: seq<Param>): Option<(St.Join, seq<Param>)>
    requires i < |src|
  {
    match C.JoinNode(cs, src[i].alias)
    case None => None
    case Some(j) =>
      if |j.kids| < 5 then None
      else match Number(j.kids[4], src, s, ps)
        case None => None
        case Some((on, p1)) => Some((St.Join(C.KindWritten(j.kids[1]), src[i], on), p1))
  }

  lemma {:induction false} PlanCons(cs: seq<Tree>, src: seq<Source>, i: nat, s: Schema, ps: seq<Param>)
    requires i < |src|
    ensures C.JoinsPlan(cs, src, i, s, ps) ==
            match PlanOne(cs, src, i, s, ps)
            case None => None
            case Some((j, p1)) =>
              match C.JoinsPlan(cs, src, i + 1, s, p1)
              case None => None
              case Some((js, p2)) => Some(([j] + js, p2))
  {
  }

  lemma {:induction false} JoinOneIs(cs: seq<Tree>, src: seq<Source>, i: nat, s: Schema, d: Dialect, ps: seq<Param>)
    requires i < |src|
    ensures JoinOne(cs, src, i, s, d, ps) ==
            match PlanOne(cs, src, i, s, ps)
            case None => None
            case Some((j, p1)) => Some((Spell(St.JoinPieces(j), d), p1))
  {
    var one := PlanOne(cs, src, i, s, ps);
    if one.Some? {
      JoinSpelling(one.value.0, d);
    }
  }

  /** The text of planned joins. */
  function JoinsText(js: Option<(seq<St.Join>, seq<Param>)>, d: Dialect): Out {
    match js case None => None case Some((js, qs)) => Some((Spell(St.JoinsPieces(js), d), qs))
  }

  lemma {:induction false} JoinsMore(one: Option<(St.Join, seq<Param>)>, more: Option<(seq<St.Join>, seq<Param>)>, d: Dialect)
    requires one.Some?
    ensures Then(Some((Spell(St.JoinPieces(one.value.0), d), one.value.1)), JoinsText(more, d)) ==
            JoinsText(if more.None? then None else Some(([one.value.0] + more.value.0, more.value.1)), d)
  {
    if more.Some? {
      JoinsCons(one.value.0, more.value.0, d);
    }
  }

  lemma {:induction false} JoinsTarget(cs: seq<Tree>, src: seq<Source>, i: nat, s: Schema, d: Dialect, ps: seq<Param>)
    requires i <= |src|
    ensures JoinsOut(cs, src, i, s, d, ps) == JoinsText(C.JoinsPlan(cs, src, i, s, ps), d)
    decreases |src| - i
  {
    if i < |src| {
      var one := PlanOne(cs, src, i, s, ps);
      JoinOneIs(cs, src, i, s, d, ps);
      PlanCons(cs, src, i, s, ps);
      if one.Some? {
        JoinsTarget(cs, src, i + 1, s, d, one.value.1);
        JoinsMore(one, C.JoinsPlan(cs, src, i + 1, s, one.value.1), d);
      }
    }
  }

  lemma {:induction false} SearchStep(cs: seq<Tree>, k: nat, alias: string)
    requires k < |cs|
    ensures C.JoinNode(cs[k..], alias) ==
            if IsList(cs[k], "join") && |cs[k].kids| > 3 && IsAtom(cs[k].kids[3], alias) then Some(cs[k]) else C.JoinNode(cs[k + 1..], alias)
  {
    assert cs[k..][1..] == cs[k + 1..];
  }

  method FindJoin(cs: seq<Tree>, alias: string) returns (r: Option<Tree>)
    ensures r == C.JoinNode(cs, alias)
  {
    var j := 0;
    assert cs[0..] == cs;
    while j < |cs|
      invariant 0 <= j <= |cs| && C.JoinNode(cs, alias) == C.JoinNode(cs[j..], alias)
    {
      SearchStep(cs, j, alias);
      if IsList(cs[j], "join") && |cs[j].kids| > 3 && IsAtom(cs[j].kids[3], alias) {
        return Some(cs[j]);
      }
      j := j + 1;
    }
    return None;
  }

  method EmitJoin(b: Buf, t: ParamTable, cs: seq<Tree>, src: seq<Source>, i: nat, s: Schema, d: Dialect) returns (ok: bool)
    requires b.Valid() && t.Valid() && i < |src|
    modifies b, b.s, t, t.slots
    ensures b.Valid() && t.Valid() && (b.s == old(b.s) || fresh(b.s))
    ensures Done(ok, old(b.text), b.text, t.items, b.Ceiling(), JoinOne(cs, src, i, s, d, old(t.items)))
  {
    var j := FindJoin(cs, src[i].alias);
    if j.None? || |j.value.kids| < 5 {
      return false;
    }
    var lead := JoinLead(C.KindWritten(j.value.kids[1])) + SourceText(src[i], d) + " ON ";
    ghost var ps, before := t.items, b.text;
    ok := PutFirst(b, t, lead);
    ok := NodeNext(b, t, j.value.kids[4], src, s, d, ok, before, Lit(lead, ps), ps);
  }

  method JoinNext(b: Buf, t: ParamTable, cs: seq<Tree>, src: seq<Source>, i: nat, s: Schema, d: Dialect,
                  ghost before: string, ghost acc: Out, ghost ps: seq<Param>) returns (ok: bool, ghost now: Out)
    requires b.Valid() && t.Valid() && i < |src|
    requires Done(true, before, b.text, t.items, b.Ceiling(), acc)
    modifies b, b.s, t, t.slots
    ensures b.Valid() && t.Valid() && (b.s == old(b.s) || fresh(b.s))
    ensures Done(ok, before, b.text, t.items, b.Ceiling(), now)
    ensures AndJoins(now, cs, src, i + 1, s, d, ps) == AndJoins(acc, cs, src, i, s, d, ps)
  {
    ghost var mid, items := b.text, t.items;
    ok := EmitJoin(b, t, cs, src, i, s, d);
    WentOn(ok, before, mid, items, b.text, t.items, b.Ceiling(), acc, JoinOne(cs, src, i, s, d, items));
    JoinsStep(acc, cs, src, i, s, d, ps);
    now := AndJoin(acc, cs, src, i, s, d, ps);
  }

  function AndJoin(a: Out, cs: seq<Tree>, src: seq<Source>, i: nat, s: Schema, d: Dialect, ps: seq<Param>): Out
    requires i < |src|
  {
    Then(a, JoinOne(cs, src, i, s, d, After(a, ps)))
  }

  /** a, then the joins for the sources from the i-th on. */
  function AndJoins(a: Out, cs: seq<Tree>, src: seq<Source>, i: nat, s: Schema, d: Dialect, ps: seq<Param>): Out
    requires i <= |src|
  {
    Then(a, JoinsOut(cs, src, i, s, d, After(a, ps)))
  }

  lemma {:induction false} JoinsStep(acc: Out, cs: seq<Tree>, src: seq<Source>, i: nat, s: Schema, d: Dialect, ps: seq<Param>)
    requires i < |src|
    ensures AndJoins(AndJoin(acc, cs, src, i, s, d, ps), cs, src, i + 1, s, d, ps) == AndJoins(acc, cs, src, i, s, d, ps)
  {
    var one := JoinOne(cs, src, i, s, d, After(acc, ps));
    Advance(acc, one, JoinsOut(cs, src, i + 1, s, d, After(one, After(acc, ps))), ps);
  }

  method JoinsNext(b: Buf, t: ParamTable, cs: seq<Tree>, src: seq<Source>, s: Schema, d: Dialect,
                   so: bool, ghost before: string, ghost a: Out, ghost ps: seq<Param>, ghost whole: Out) returns (ok: bool)
    requires b.Valid() && t.Valid() && src != [] && whole == AndJoins(a, cs, src, 1, s, d, ps)
    requires Done(so, before, b.text, t.items, b.Ceiling(), a)
    modifies b, b.s, t, t.slots
    ensures b.Valid() && t.Valid() && (b.s == old(b.s) || fresh(b.s))
    ensures Done(ok, before, b.text, t.items, b.Ceiling(), whole)
  {
    ok := so;
    var i := 1;
    ghost var acc := a;
    while ok && i < |src|
      invariant 1 <= i <= |src|
      invariant b.Valid() && t.Valid() && (b.s == old(b.s) || fresh(b.s))
      invariant Done(ok, before, b.text, t.items, b.Ceiling(), acc)
      invariant AndJoins(acc, cs, src, i, s, d, ps) == whole
      decreases |src| - i
    {
      ok, acc := JoinNext(b, t, cs, src, i, s, d, before, acc, ps);
      i := i + 1;
    }
    JoinsEnd(ok, before, b.text, t.items, b.Ceiling(), acc, cs, src, i, s, d, ps);
  }

  lemma {:induction false} JoinsEnd(ok: bool, before: string, text: string, items: seq<Param>, ceiling: nat, acc: Out,
                                    cs: seq<Tree>, src: seq<Source>, i: nat, s: Schema, d: Dialect, ps: seq<Param>)
    requires i <= |src| && (ok ==> i == |src|) && Done(ok, before, text, items, ceiling, acc)
    ensures Done(ok, before, text, items, ceiling, AndJoins(acc, cs, src, i, s, d, ps))
  {
    Ended(ok, before, text, items, ceiling, acc, JoinsOut(cs, src, i, s, d, After(acc, ps)), ps, i == |src|);
  }

  // ---- the injected predicates ----

  function TenantText(t: St.Tenant, first: bool, d: Dialect): string {
    (if first then " WHERE " else " AND ") + (IdText(t.alias, d) + "." + IdText(t.col, d) + " = " + ParamText(t.index, d))
  }

  lemma {:induction false} WhereText(d: Dialect)
    ensures Spell(St.WHERE, d) == " WHERE " && Spell(St.EQ, d) == " = "
  {
    SpellWord(Sp, W("WHERE"), Sp, d);
    SpellWord(Sp, S("="), Sp, d);
    assert " " + "WHERE" + " " == " WHERE " && " " + "=" + " " == " = ";
  }

  lemma {:induction false} AndText(d: Dialect)
    ensures Spell(E.AND, d) == " AND "
  {
    Literals(d);
  }

  lemma {:induction false} TenantSpelling(t: St.Tenant, first: bool, d: Dialect)
    ensures Spell((if first then St.WHERE else E.AND) + St.TenantPieces(t), d) == TenantText(t, first, d)
  {
    WhereText(d);
    AndText(d);
    SpellWord(Id(t.alias), S("."), Id(t.col), d);
    SpellWord(Ph(t.index), Sp, Sp, d);
    FramedText([Id(t.alias), S("."), Id(t.col)], St.EQ, [Ph(t.index)], d);
    SpellAppend(if first then St.WHERE else E.AND, St.TenantPieces(t), d);
  }

  /** The status with which the checks before a predicate fail, if they do. */
  function TenantFault(o: Source, s: Schema, p: Policy, ps: seq<Param>): Option<C.Status> {
    var col := PolicyTenant(p, o.schema, o.table);
    if !TenantValid(p, s, o.schema, o.table) then Some(C.PolicyE)
    else if !TenantTypeValid(p, s, o.schema, o.table) then Some(C.TypeE)
    else if col.Some? && !Ident(col.value) then Some(C.ParseE)
    else if Index(ps, C.TenantParam(p)).None? then Some(C.ParseE)
    else None
  }

  function TenantOne(o: Source, first: bool, s: Schema, p: Policy, d: Dialect, ps: seq<Param>): Out {
    match PolicyTenant(p, o.schema, o.table)
    case None => Lit("", ps)
    case Some(col) =>
      if TenantFault(o, s, p, ps).Some? then None
      else
        var (i, qs) := Index(ps, C.TenantParam(p)).value;
        Some((TenantText(St.Tenant(o.alias, col, i), first, d), qs))
  }

  function StillFirst(o: Source, first: bool, p: Policy): bool { first && PolicyTenant(p, o.schema, o.table).None? }

  function TenantsOut(src: seq<Source>, i: nat, first: bool, s: Schema, p: Policy, d: Dialect, ps: seq<Param>): Out
    requires i <= |src|
    decreases |src| - i
  {
    if i == |src| then Lit("", ps)
    else
      var one := TenantOne(src[i], first, s, p, d, ps);
      Then(one, TenantsOut(src, i + 1, StillFirst(src[i], first, p), s, p, d, After(one, ps)))
  }

  lemma {:induction false} TenantsCons(t: St.Tenant, ts: seq<St.Tenant>, first: bool, d: Dialect)
    ensures Spell(St.TenantsPieces([t] + ts, first), d) == TenantText(t, first, d) + Spell(St.TenantsPieces(ts, false), d)
  {
    assert ([t] + ts)[1..] == ts;
    TenantSpelling(t, first, d);
    SpellAppend((if first then St.WHERE else E.AND) + St.TenantPieces(t), St.TenantsPieces(ts, false), d);
  }

  /** The predicate planned for one source, if it has a rule, and the table after it. */
  function TenantPlan(o: Source, s: Schema, p: Policy, ps: seq<Param>): C.Result<(Option<St.Tenant>, seq<Param>)> {
    match PolicyTenant(p, o.schema, o.table)
    case None => C.Ok((None, ps))
    case Some(col) =>
      match TenantFault(o, s, p, ps)
      case Some(e) => C.Err(e)
      case None => var (i, qs) := Index(ps, C.TenantParam(p)).value; C.Ok((Some(St.Tenant(o.alias, col, i)), qs))
  }

  lemma {:induction false} TenantPlanCons(src: seq<Source>, i: nat, s: Schema, p: Policy, ps: seq<Param>)
    requires i < |src|
    ensures C.TenantsPlan(src[i..], s, p, ps) ==
            match TenantPlan(src[i], s, p, ps)
            case Err(e) => C.Err(e)
            case Ok((t, p1)) =>
              match C.TenantsPlan(src[i + 1..], s, p, p1)
              case Err(e) => C.Err(e)
              case Ok((ts, p2)) => C.Ok((if t.Some? then [t.value] + ts else ts, p2))
  {
    assert src[i..][0] == src[i] && src[i..][1..] == src[i + 1..];
  }

  lemma {:induction false} TenantOneIs(o: Source, first: bool, s: Schema, p: Policy, d: Dialect, ps: seq<Param>)
    ensures TenantOne(o, first, s, p, d, ps) ==
            match TenantPlan(o, s, p, ps)
            case Err(_) => None
            case Ok((t, p1)) => Some((if t.Some? then TenantText(t.value, first, d) else "", p1))
    ensures TenantPlan(o, s, p, ps).Ok? ==> (TenantPlan(o, s, p, ps).value.0.None? <==> PolicyTenant(p, o.schema, o.table).None?)
  {
  }

  lemma {:induction false} TenantsTarget(src: seq<Source>, i: nat, first: bool, s: Schema, p: Policy, d: Dialect, ps: seq<Param>)
    requires i <= |src|
    ensures TenantsOut(src, i, first, s, p, d, ps) ==
            match C.TenantsPlan(src[i..], s, p, ps)
            case Err(_) => None
            case Ok((ts, qs)) => Some((Spell(St.TenantsPieces(ts, first), d), qs))
    decreases |src| - i
  {
    if i < |src| {
      TenantPlanCons(src, i, s, p, ps);
      TenantOneIs(src[i], first, s, p, d, ps);
      var one := TenantPlan(src[i], s, p, ps);
      if one.Ok? {
        TenantsTarget(src, i + 1, StillFirst(src[i], first, p), s, p, d, one.value.1);
        var more := C.TenantsPlan(src[i + 1..], s, p, one.value.1);
        if more.Ok? {
          TenantsMore(one.value.0, more.value.0, first, d);
        }
      }
    }
  }

  lemma {:induction false} TenantsMore(t: Option<St.Tenant>, ts: seq<St.Tenant>, first: bool, d: Dialect)
    ensures t.Some? ==> Spell(St.TenantsPieces([t.value] + ts, first), d) == TenantText(t.value, first, d) + Spell(St.TenantsPieces(ts, false), d)
    ensures "" + Spell(St.TenantsPieces(ts, first), d) == Spell(St.TenantsPieces(ts, first), d)
  {
    if t.Some? {
      TenantsCons(t.value, ts, first, d);
    }
  }

  /** A failed check is the failure of the whole plan. */
  lemma {:induction false} FaultIs(src: seq<Source>, i: nat, s: Schema, p: Policy, ps: seq<Param>)
    requires i < |src|
    ensures var one := TenantOne(src[i], true, s, p, Postgres, ps);
            if PolicyTenant(p, src[i].schema, src[i].table).Some? && TenantFault(src[i], s, p, ps).Some?
            then C.TenantsPlan(src[i..], s, p, ps) == C.Err(TenantFault(src[i], s, p, ps).value)
            else C.TenantsPlan(src[i + 1..], s, p, After(one, ps)).Err? ==>
                   C.TenantsPlan(src[i..], s, p, ps) == C.TenantsPlan(src[i + 1..], s, p, After(one, ps))
  {
    assert src[i..][0] == src[i] && src[i..][1..] == src[i + 1..];
  }
}
