/** The whole statement, written from SELECT to LIMIT, with the status of a failure. */
module StatementWriter {
  import opened Wrappers
  import opened Sexpr
  import opened Decimal
  import opened Catalog
  import opened Emit
  import opened Buffer
  import opened Sql
  import opened Emitter
  import opened Writer
  import C = Compile
  import E = SqlExpr
  import St = Statement

  // ---- the injected predicates ----

  function AndTenant(a: Out, o: Source, first: bool, s: Schema, p: Policy, d: Dialect, ps: seq<Param>): Out {
    Then(a, TenantOne(o, first, s, p, d, After(a, ps)))
  }

  function AndTenants(a: Out, src: seq<Source>, i: nat, first: bool, s: Schema, p: Policy, d: Dialect, ps: seq<Param>): Out
    requires i <= |src|
  {
    Then(a, TenantsOut(src, i, first, s, p, d, After(a, ps)))
  }

  lemma {:induction false} TenantsStep(a: Out, src: seq<Source>, i: nat, first: bool, s: Schema, p: Policy, d: Dialect, ps: seq<Param>)
    requires i < |src|
    ensures AndTenants(AndTenant(a, src[i], first, s, p, d, ps), src, i + 1, StillFirst(src[i], first, p), s, p, d, ps)
            == AndTenants(a, src, i, first, s, p, d, ps)
  {
    var one := TenantOne(src[i], first, s, p, d, After(a, ps));
    Advance(a, one, TenantsOut(src, i + 1, StillFirst(src[i], first, p), s, p, d, After(one, After(a, ps))), ps);
  }

  /** One source: nothing without a rule, else the checks and then the predicate. */
  method EmitTenant(b: Buf, t: ParamTable, o: Source, first: bool, s: Schema, p: Policy, d: Dialect) returns (ok: bool, e: C.Status)
    requires b.Valid() && t.Valid() && |b.text| + 1 <= b.Ceiling()
    modifies b, b.s, t, t.slots
    ensures b.Valid() && t.Valid() && (b.s == old(b.s) || fresh(b.s))
    ensures Done(ok, old(b.text), b.text, t.items, b.Ceiling(), TenantOne(o, first, s, p, d, old(t.items)))
    ensures !ok && e != C.ParseE ==>
              PolicyTenant(p, o.schema, o.table).Some? && TenantFault(o, s, p, old(t.items)) == Some(e)
  {
    ok, e := true, C.ParseE;
    var col := PolicyTenant(p, o.schema, o.table);
    if col.None? {
      Nothing(b.text, t.items, b.Ceiling());
      return;
    }
    if !TenantValid(p, s, o.schema, o.table) {
      return false, C.PolicyE;
    }
    if !TenantTypeValid(p, s, o.schema, o.table) {
      return false, C.TypeE;
    }
    if !Ident(col.value) {
      return false, C.ParseE;
    }
    var idx := t.ParamIndex(C.TenantParam(p));
    if idx == 0 {
      return false, C.ParseE;
    }
    ok := PutFirst(b, t, TenantText(St.Tenant(o.alias, col.value, idx), first, d));
  }

  lemma {:induction false} Nothing(text: string, items: seq<Param>, ceiling: nat)
    requires |text| + 1 <= ceiling
    ensures Done(true, text, text, items, ceiling, Lit("", items))
  {
    assert text + "" == text;
  }

  /** A fault at one source is the fault of the whole pass; otherwise later faults are. */
  ghost predicate FaultsFrom(src: seq<Source>, i: nat, s: Schema, p: Policy, items: seq<Param>, fault: C.Result<(seq<St.Tenant>, seq<Param>)>)
    requires i <= |src|
  {
    C.TenantsPlan(src[i..], s, p, items).Err? ==> fault == C.TenantsPlan(src[i..], s, p, items)
  }

  lemma {:induction false} FaultStep(src: seq<Source>, i: nat, first: bool, s: Schema, p: Policy, d: Dialect, items: seq<Param>,
                                     fault: C.Result<(seq<St.Tenant>, seq<Param>)>)
    requires i < |src| && FaultsFrom(src, i, s, p, items, fault)
    ensures PolicyTenant(p, src[i].schema, src[i].table).Some? && TenantFault(src[i], s, p, items).Some? ==>
              fault == C.Err(TenantFault(src[i], s, p, items).value)
    ensures TenantOne(src[i], first, s, p, d, items).Some? ==>
              FaultsFrom(src, i + 1, s, p, TenantOne(src[i], first, s, p, d, items).value.1, fault)
  {
    FaultIs(src, i, s, p, items);
  }

  method TenantNext(b: Buf, t: ParamTable, src: seq<Source>, i: nat, first: bool, s: Schema, p: Policy, d: Dialect,
                    ghost before: string, ghost acc: Out, ghost ps: seq<Param>, ghost fault: C.Result<(seq<St.Tenant>, seq<Param>)>)
    returns (ok: bool, e: C.Status, ghost now: Out)
    requires b.Valid() && t.Valid() && i < |src|
    requires Done(true, before, b.text, t.items, b.Ceiling(), acc)
    requires FaultsFrom(src, i, s, p, t.items, fault)
    modifies b, b.s, t, t.slots
    ensures b.Valid() && t.Valid() && (b.s == old(b.s) || fresh(b.s))
    ensures Done(ok, before, b.text, t.items, b.Ceiling(), now)
    ensures AndTenants(now, src, i + 1, StillFirst(src[i], first, p), s, p, d, ps) == AndTenants(acc, src, i, first, s, p, d, ps)
    ensures ok ==> FaultsFrom(src, i + 1, s, p, t.items, fault)
    ensures !ok && e != C.ParseE ==> fault == C.Err(e)
  {
    ghost var mid, items := b.text, t.items;
    FaultStep(src, i, first, s, p, d, items, fault);
    ok, e := EmitTenant(b, t, src[i], first, s, p, d);
    WentOn(ok, before, mid, items, b.text, t.items, b.Ceiling(), acc, TenantOne(src[i], first, s, p, d, items));
    TenantsStep(acc, src, i, first, s, p, d, ps);
    now := AndTenant(acc, src[i], first, s, p, d, ps);
  }

  lemma {:induction false} TenantsEnd(ok: bool, before: string, text: string, items: seq<Param>, ceiling: nat, acc: Out,
                                      src: seq<Source>, i: nat, first: bool, s: Schema, p: Policy, d: Dialect, ps: seq<Param>)
    requires i <= |src| && (ok ==> i == |src|) && Done(ok, before, text, items, ceiling, acc)
    ensures Done(ok, before, text, items, ceiling, AndTenants(acc, src, i, first, s, p, d, ps))
  {
    Ended(ok, before, text, items, ceiling, acc, TenantsOut(src, i, first, s, p, d, After(acc, ps)), ps, i == |src|);
  }

  /** The loop over the sources; where stands for the C code's reuse of the clause pointer as a flag. */
  method TenantsNext(b: Buf, t: ParamTable, src: seq<Source>, where: bool, s: Schema, p: Policy, d: Dialect,
                     so: bool, ghost before: string, ghost a: Out, ghost ps: seq<Param>, ghost whole: Out,
                     ghost fault: C.Result<(seq<St.Tenant>, seq<Param>)>)
    returns (ok: bool, e: C.Status)
    requires b.Valid() && t.Valid() && whole == AndTenants(a, src, 0, !where, s, p, d, ps)
    requires Done(so, before, b.text, t.items, b.Ceiling(), a)
    requires so ==> FaultsFrom(src, 0, s, p, t.items, fault)
    modifies b, b.s, t, t.slots
    ensures b.Valid() && t.Valid() && (b.s == old(b.s) || fresh(b.s))
    ensures Done(ok, before, b.text, t.items, b.Ceiling(), whole)
    ensures !ok && e != C.ParseE ==> so && fault == C.Err(e)
  {
    ok, e := so, C.ParseE;
    var i, first := 0, !where;
    ghost var acc := a;
    while ok && i < |src|
      invariant 0 <= i <= |src|
      invariant b.Valid() && t.Valid() && (b.s == old(b.s) || fresh(b.s))
      invariant Done(ok, before, b.text, t.items, b.Ceiling(), acc)
      invariant AndTenants(acc, src, i, first, s, p, d, ps) == whole
      invariant ok ==> FaultsFrom(src, i, s, p, t.items, fault)
      invariant !ok && e != C.ParseE ==> so && fault == C.Err(e)
      invariant ok ==> so
      decreases |src| - i
    {
      ok, e, acc := TenantNext(b, t, src, i, first, s, p, d, before, acc, ps, fault);
      first := StillFirst(src[i], first, p);
      i := i + 1;
    }
    TenantsEnd(ok, before, b.text, t.items, b.Ceiling(), acc, src, i, first, s, p, d, ps);
  }

  // ---- the other clauses ----

  function CondOut(x: Option<Tree>, src: seq<Source>, s: Schema, d: Dialect, ps: seq<Param>): Out {
    match x
    case None => Lit("", ps)
    case Some(w) => if !(w.Node? && |w.kids| >= 2) then None else AndNode(Lit(" WHERE ", ps), w.kids[1], src, s, d, ps)
  }

  function GroupOut(x: Option<Tree>, src: seq<Source>, s: Schema, d: Dialect, ps: seq<Param>): Out {
    match x
    case None => Lit("", ps)
    case Some(g) => if !(g.Node? && g.kids != []) then None else AndList(Lit(" GROUP BY ", ps), g.kids[1..], ", ", src, s, d, ps)
  }

  function OrderOut(x: Option<Tree>, src: seq<Source>, s: Schema, d: Dialect, ps: seq<Param>): Out {
    match x
    case None => Lit("", ps)
    case Some(o) =>
      if !(o.Node? && |o.kids| == 3) then None
      else AndLit(AndNode(Lit(" ORDER BY ", ps), o.kids[1], src, s, d, ps), DirText(IsAtom(o.kids[2], "desc")), ps)
  }

  lemma {:induction false} CondTarget(x: Option<Tree>, src: seq<Source>, s: Schema, d: Dialect, ps: seq<Param>)
    ensures CondOut(x, src, s, d, ps) ==
            match C.CondPlan(x, src, s, ps) case None => None case Some((c, qs)) => Some((Spell(St.CondPieces(c), d), qs))
  {
    var c := C.CondPlan(x, src, s, ps);
    if c.Some? && c.value.0.Some? {
      WhereText(d);
      SpellAppend(St.WHERE, E.Pieces(c.value.0.value), d);
    }
  }

  lemma {:induction false} GroupText(d: Dialect)
    ensures Spell(St.GROUP, d) == " GROUP BY "
  {
    SpellWord(Sp, W("GROUP"), Sp, d);
    SpellWord(W("BY"), Sp, Sp, d);
    SpellAppend([Sp, W("GROUP"), Sp], [W("BY"), Sp], d);
    assert [Sp, W("GROUP"), Sp] + [W("BY"), Sp] == St.GROUP;
    assert " " + "GROUP" + " " + ("BY" + " ") == " GROUP BY ";
  }

  lemma {:induction false} GroupTarget(x: Option<Tree>, src: seq<Source>, s: Schema, d: Dialect, ps: seq<Param>)
    ensures GroupOut(x, src, s, d, ps) ==
            match C.GroupPlan(x, src, s, ps) case None => None case Some((g, qs)) => Some((Spell(St.GroupPieces(g), d), qs))
  {
    if x.Some? && x.value.Node? && x.value.kids != [] {
      var xs := x.value.kids[1..];
      CommaText(d);
      ListTarget(xs, E.COMMA, src, s, d, ps);
      var n := NumberAll(xs, src, s, ps);
      if n.Some? {
        GroupText(d);
        SpellAppend(St.GROUP, E.PiecesSep(n.value.0, E.COMMA), d);
      }
    }
  }

  lemma {:induction false} OrderTarget(x: Option<Tree>, src: seq<Source>, s: Schema, d: Dialect, ps: seq<Param>)
    ensures OrderOut(x, src, s, d, ps) ==
            match C.OrderPlan(x, src, s, ps) case None => None case Some((o, qs)) => Some((Spell(St.OrderPieces(o), d), qs))
  {
    var o := C.OrderPlan(x, src, s, ps);
    if o.Some? && o.value.0.Some? {
      var (e, desc) := o.value.0.value;
      OrderText(d);
      DirSpelling(desc, d);
      FramedText(E.ORDER, E.Pieces(e), E.Direction(desc), d);
    }
  }

  /** Writing inside a clause is writing the clause as a whole. */
  lemma {:induction false} Inside(a: Out, head: string, x: Tree, src: seq<Source>, s: Schema, d: Dialect, ps: seq<Param>)
    ensures AndNode(AndLit(a, head, ps), x, src, s, d, ps) == Then(a, AndNode(Lit(head, After(a, ps)), x, src, s, d, After(a, ps)))
  {
    var q := After(a, ps);
    ThenAssoc(a, Lit(head, q), Target(x, src, s, d, q));
  }

  lemma {:induction false} InsideList(a: Out, head: string, xs: seq<Tree>, src: seq<Source>, s: Schema, d: Dialect, ps: seq<Param>)
    ensures AndList(AndLit(a, head, ps), xs, ", ", src, s, d, ps) == Then(a, AndList(Lit(head, After(a, ps)), xs, ", ", src, s, d, After(a, ps)))
  {
    var q := After(a, ps);
    ThenAssoc(a, Lit(head, q), ListOut(xs, 0, ", ", src, s, d, q));
  }

  lemma {:induction false} ThenLit(a: Out, b: Out, tail: string, ps: seq<Param>)
    ensures AndLit(Then(a, b), tail, ps) == Then(a, AndLit(b, tail, After(a, ps)))
  {
    ThenAssoc(a, b, Lit(tail, After(b, After(a, ps))));
  }

  method CondNext(b: Buf, t: ParamTable, x: Option<Tree>, src: seq<Source>, s: Schema, d: Dialect,
                  so: bool, ghost before: string, ghost a: Out, ghost ps: seq<Param>) returns (ok: bool)
    requires b.Valid() && t.Valid()
    requires Done(so, before, b.text, t.items, b.Ceiling(), a)
    modifies b, b.s, t, t.slots
    ensures b.Valid() && t.Valid() && (b.s == old(b.s) || fresh(b.s))
    ensures Done(ok, before, b.text, t.items, b.Ceiling(), Then(a, CondOut(x, src, s, d, After(a, ps))))
  {
    if x.None? {
      ThenEmpty(a, ps);
      return so;
    }
    if !(x.value.Node? && |x.value.kids| >= 2) {
      return false;
    }
    Inside(a, " WHERE ", x.value.kids[1], src, s, d, ps);
    ok := PutNext(b, t, " WHERE ", so, before, a, ps);
    ok := NodeNext(b, t, x.value.kids[1], src, s, d, ok, before, AndLit(a, " WHERE ", ps), ps);
  }

  method GroupNext(b: Buf, t: ParamTable, x: Option<Tree>, src: seq<Source>, s: Schema, d: Dialect,
                   so: bool, ghost before: string, ghost a: Out, ghost ps: seq<Param>) returns (ok: bool)
    requires b.Valid() && t.Valid()
    requires Done(so, before, b.text, t.items, b.Ceiling(), a)
    modifies b, b.s, t, t.slots
    ensures b.Valid() && t.Valid() && (b.s == old(b.s) || fresh(b.s))
    ensures Done(ok, before, b.text, t.items, b.Ceiling(), Then(a, GroupOut(x, src, s, d, After(a, ps))))
  {
    if x.None? {
      ThenEmpty(a, ps);
      return so;
    }
    if !(x.value.Node? && x.value.kids != []) {
      return false;
    }
    InsideList(a, " GROUP BY ", x.value.kids[1..], src, s, d, ps);
    ok := PutNext(b, t, " GROUP BY ", so, before, a, ps);
    ok := ListNext(b, t, x.value.kids[1..], ", ", src, s, d, ok, before, AndLit(a, " GROUP BY ", ps), ps);
  }

  method OrderNext(b: Buf, t: ParamTable, x: Option<Tree>, src: seq<Source>, s: Schema, d: Dialect,
                   so: bool, ghost before: string, ghost a: Out, ghost ps: seq<Param>) returns (ok: bool)
    requires b.Valid() && t.Valid()
    requires Done(so, before, b.text, t.items, b.Ceiling(), a)
    modifies b, b.s, t, t.slots
    ensures b.Valid() && t.Valid() && (b.s == old(b.s) || fresh(b.s))
    ensures Done(ok, before, b.text, t.items, b.Ceiling(), Then(a, OrderOut(x, src, s, d, After(a, ps))))
  {
    if x.None? {
      ThenEmpty(a, ps);
      return so;
    }
    if !(x.value.Node? && |x.value.kids| == 3) {
      return false;
    }
    var dir := DirText(IsAtom(x.value.kids[2], "desc"));
    ghost var inner := AndNode(Lit(" ORDER BY ", After(a, ps)), x.value.kids[1], src, s, d, After(a, ps));
    Inside(a, " ORDER BY ", x.value.kids[1], src, s, d, ps);
    ThenLit(a, inner, dir, ps);
    ok := PutNext(b, t, " ORDER BY ", so, before, a, ps);
    ok := NodeNext(b, t, x.value.kids[1], src, s, d, ok, before, AndLit(a, " ORDER BY ", ps), ps);
    ok := PutNext(b, t, dir, ok, before, Then(a, inner), ps);
  }
}
