/**
  The scope in which the outer query of WITH is compiled: the schema and the policy with one more
  table, whose columns are the fields the inner query projects.
 */
module Cte {
  import opened Wrappers
  import opened Sexpr
  import opened Catalog
  import opened Emit
  import opened Compile
  import Sql
  import Recovery
  import CompileProps

  const MAX_TABLES: nat := 256
  const MAX_COLS: nat := 2048
  const MAX_RULES: nat := 256

  /** The column a projected field becomes; None where the scope is refused. */
  function FieldColumn(f: Tree, name: string, src: seq<Source>, base: Schema): Option<Column> {
    if !Form(f, "field", 3) || !Name(f.kids[2]) then None
    else
      var t := ExprType(f.kids[1], src, base);
      if t.UnknownT? then None else Some(Column("public", name, f.kids[2].text, t, false))
  }

  function FieldColumns(fs: seq<Tree>, name: string, src: seq<Source>, base: Schema): (r: Option<seq<Column>>)
    ensures r.Some? ==> |r.value| == |fs| && forall i :: 0 <= i < |fs| ==> FieldColumn(fs[i], name, src, base) == Some(r.value[i])
  {
    if fs == [] then Some([])
    else
      var c, cs := FieldColumn(fs[0], name, src, base), FieldColumns(fs[1..], name, src, base);
      if c.Some? && cs.Some? then Some([c.value] + cs.value) else None
  }

  /** The projected fields and the one source of an inner query. */
  function Inner(root: Tree): Option<(seq<Tree>, Source)> {
    if !(IsList(root, "nlsql") && |root.kids| >= 3 && (IsAtom(root.kids[1], "1") || IsAtom(root.kids[1], "2")) && IsList(root.kids[2], "query"))
    then None
    else
      var cs := root.kids[2].kids[1..];
      var from, sel := FindClause(cs, "from"), FindClause(cs, "select");
      if from.None? || sel.None? || !(2 <= |from.value.kids| <= 3) || |sel.value.kids| < 2 then None
      else
        var source := FromSource(from.value);
        if source.None? || exists c :: c in cs && IsList(c, "join") then None
        else Some((sel.value.kids[1..], source.value))
  }

  function Extended(name: string, cols: seq<Column>, base: Schema): Schema {
    base.(tables := base.tables + [("public", name)], cols := base.cols + cols)
  }

  function Admitting(name: string, p: Policy): Policy { p.(allow := p.allow + [("public", name)]) }

  function PrepareScope(root: Tree, name: string, base: Schema, p: Policy): Option<(Schema, Policy)> {
    if !Sql.Ident(name) then None
    else match Inner(root)
      case None => None
      case Some((fs, source)) =>
        if |base.tables| >= MAX_TABLES || |base.cols| + |fs| > MAX_COLS then None
        else match FieldColumns(fs, name, [source], base)
          case None => None
          case Some(cols) =>
            if |p.allow| >= MAX_RULES then None else Some((Extended(name, cols, base), Admitting(name, p)))
  }

  /** The loop over the select list, one column appended for each field. */
  method AppendColumns(fs: seq<Tree>, name: string, source: Source, base: Schema) returns (cols: Option<seq<Column>>)
    ensures cols == match FieldColumns(fs, name, [source], base) case None => None case Some(cs) => Some(base.cols + cs)
  {
    var made: seq<Column> := base.cols;
    assert fs[0..] == fs;
    NoneMade(made, FieldColumns(fs, name, [source], base));
    for i := 0 to |fs|
      invariant |made| == |base.cols| + i && base.cols <= made
      invariant match FieldColumns(fs[i..], name, [source], base)
                case None => FieldColumns(fs, name, [source], base).None?
                case Some(rest) => FieldColumns(fs, name, [source], base) == Some(made[|base.cols|..] + rest)
    {
      assert fs[i..][1..] == fs[i + 1..];
      var c := FieldColumn(fs[i], name, [source], base);
      if c.None? {
        return None;
      }
      ghost var rest := FieldColumns(fs[i + 1..], name, [source], base);
      if rest.Some? {
        Longer(made, |base.cols|, c.value, rest.value);
      }
      made := made + [c.value];
    }
    assert fs[|fs|..] == [];
    AllMade(base.cols, made);
    return Some(made);
  }

  lemma {:induction false} NoneMade(made: seq<Column>, all: Option<seq<Column>>)
    ensures all.Some? ==> made[|made|..] + all.value == all.value
  {
  }

  lemma {:induction false} AllMade(cols: seq<Column>, made: seq<Column>)
    requires cols <= made
    ensures cols + (made[|cols|..] + []) == made
  {
  }

  lemma {:induction false} Longer(made: seq<Column>, n: nat, c: Column, rest: seq<Column>)
    requires n <= |made|
    ensures made[n..] + ([c] + rest) == (made + [c])[n..] + rest
  {
  }

  // ---- expressions that do not touch the new table ----

  predicate IsNew(o: Source, name: string) { o.schema == "public" && o.table == name }

  /** No column written in x is looked up in the new table. */
  predicate Away(x: Tree, src: seq<Source>, name: string) {
    match x
    case Atom(_) => true
    case Node(ks) =>
      && (Form(x, "column", 3) && ks[1].Atom? ==>
            var i := SourceIndex(src, ks[1].text); i < |src| ==> !IsNew(src[i], name))
      && forall k :: k in ks ==> Away(k, src, name)
  }

  /** t has the columns of s and possibly more in the new table. */
  ghost predicate Adds(s: Schema, t: Schema, name: string) {
    && t.fks == s.fks && s.tables <= t.tables && s.cols <= t.cols
    && (forall x :: x in t.tables ==> x in s.tables || x == ("public", name))
    && forall i :: |s.cols| <= i < |t.cols| ==> t.cols[i].schema == "public" && t.cols[i].table == name
  }

  lemma {:induction false} FindInAppend(a: seq<Column>, b: seq<Column>, sc: string, tn: string, cn: string)
    ensures FindIn(a + b, sc, tn, cn) == if FindIn(a, sc, tn, cn).Some? then FindIn(a, sc, tn, cn) else FindIn(b, sc, tn, cn)
  {
    if a == [] {
      assert a + b == b;
    } else {
      assert (a + b)[1..] == a[1..] + b;
      FindInAppend(a[1..], b, sc, tn, cn);
    }
  }

  lemma {:induction false} SameColumn(s: Schema, t: Schema, name: string, sc: string, tn: string, cn: string)
    requires Adds(s, t, name) && (sc != "public" || tn != name)
    ensures ColFind(t, sc, tn, cn) == ColFind(s, sc, tn, cn)
  {
    var more := t.cols[|s.cols|..];
    assert t.cols == s.cols + more;
    FindInAppend(s.cols, more, sc, tn, cn);
    assert forall c :: c in more ==> !IsColumn(c, sc, tn, cn);
  }

  lemma {:induction false} SameResolve(s: Schema, t: Schema, name: string, src: seq<Source>, alias: string, col: string)
    requires Adds(s, t, name)
    requires var i := SourceIndex(src, alias); i < |src| ==> !IsNew(src[i], name)
    ensures Resolve(src, t, alias, col) == Resolve(src, s, alias, col)
  {
    var i := SourceIndex(src, alias);
    if i < |src| {
      SameColumn(s, t, name, src[i].schema, src[i].table, col);
    }
  }

  lemma {:induction false} SameValid(x: Tree, src: seq<Source>, s: Schema, t: Schema, name: string, p: Policy, p': Policy)
    requires Adds(s, t, name) && Away(x, src, name) && p'.deny == p.deny
    ensures ValidColumns(x, src, t, p') <==> ValidColumns(x, src, s, p)
  {
    if x.Node? {
      if Form(x, "column", 3) && x.kids[1].Atom? && x.kids[2].Atom? {
        SameResolve(s, t, name, src, x.kids[1].text, x.kids[2].text);
      }
      forall k | k in x.kids
        ensures ValidColumns(k, src, t, p') <==> ValidColumns(k, src, s, p)
      {
        SameValid(k, src, s, t, name, p, p');
      }
    }
  }

  lemma {:induction false} SameType(x: Tree, src: seq<Source>, s: Schema, t: Schema, name: string)
    requires Adds(s, t, name) && Away(x, src, name)
    ensures ExprType(x, src, t) == ExprType(x, src, s)
  {
    if x.Node? {
      if Form(x, "column", 3) && x.kids[1].Atom? && x.kids[2].Atom? {
        SameResolve(s, t, name, src, x.kids[1].text, x.kids[2].text);
      }
      forall k | k in x.kids
        ensures ExprType(k, src, t) == ExprType(k, src, s)
      {
        SameType(k, src, s, t, name);
      }
      TypeOfKids(x, src, s, t);
    }
  }

  /** The type of a node depends on the schema only through its children, columns apart. */
  lemma {:induction false} TypeOfKids(x: Tree, src: seq<Source>, s: Schema, t: Schema)
    requires x.Node? && forall i :: 0 <= i < |x.kids| ==> ExprType(x.kids[i], src, t) == ExprType(x.kids[i], src, s)
    requires Form(x, "column", 3) && x.kids[1].Atom? && x.kids[2].Atom? ==>
               Resolve(src, t, x.kids[1].text, x.kids[2].text) == Resolve(src, s, x.kids[1].text, x.kids[2].text)
    ensures ExprType(x, src, t) == ExprType(x, src, s)
  {
  }

  lemma {:induction false} SameTyped(x: Tree, src: seq<Source>, s: Schema, t: Schema, name: string)
    requires Adds(s, t, name) && Away(x, src, name)
    ensures WellTyped(x, src, t) <==> WellTyped(x, src, s)
  {
    SameType(x, src, s, t, name);
    if x.Node? {
      forall k | k in x.kids
        ensures WellTyped(k, src, t) <==> WellTyped(k, src, s)
        ensures ExprType(k, src, t) == ExprType(k, src, s)
      {
        SameTyped(k, src, s, t, name);
        SameType(k, src, s, t, name);
      }
      assert forall i :: 0 <= i < |x.kids| ==> x.kids[i] in x.kids;
    }
  }

  predicate AwayAll(xs: seq<Tree>, src: seq<Source>, name: string) { forall x :: x in xs ==> Away(x, src, name) }

  lemma {:induction false} ShapeAway(x: Tree, src: seq<Source>, name: string)
    requires Away(x, src, name)
    ensures match ShapeOf(x)
            case ColumnS(a, c) => var i := SourceIndex(src, a); i < |src| ==> !IsNew(src[i], name)
            case WindowS(a, part, o, _) => Away(a, src, name) && AwayAll(part, src, name) && Away(o, src, name)
            case UnaryS(_, _, a) => Away(a, src, name)
            case BinaryS(_, l, r) => Away(l, src, name) && Away(r, src, name)
            case JunctionS(_, args) => AwayAll(args, src, name)
            case NotS(a) => Away(a, src, name)
            case NullS(_, a) => Away(a, src, name)
            case ListS(_, args) => AwayAll(args, src, name)
            case _ => true
  {
    if !ShapeOf(x).NoShape? {
      var k := x.kids;
      assert forall y :: y in k[1..] ==> y in k;
      assert |k| >= 3 ==> k[1] in k && k[2] in k;
      assert |k| == 2 ==> k[1] in k;
      if ShapeOf(x).WindowS? {
        assert k[3] in k;
        assert k[3].kids[1] in k[3].kids;
        assert forall y :: y in k[2].kids[1..] ==> y in k[2].kids;
      }
    }
  }

  lemma {:induction false} SameNumber(x: Tree, src: seq<Source>, s: Schema, t: Schema, name: string, ps: seq<Param>)
    requires Adds(s, t, name) && Away(x, src, name)
    ensures Number(x, src, t, ps) == Number(x, src, s, ps)
    decreases Weight(x), 0
  {
    ShapeSmaller(x);
    ShapeAway(x, src, name);
    match ShapeOf(x)
    case NoShape =>
    case ColumnS(a, c) => SameResolve(s, t, name, src, a, c);
    case ParamS(_, _) =>
    case RefS(_) =>
    case WindowS(a, part, o, _) =>
      SameNumber(a, src, s, t, name, ps);
      if Number(a, src, s, ps).Some? {
        var p1 := Number(a, src, s, ps).value.1;
        SameNumberAll(part, src, s, t, name, p1);
        if NumberAll(part, src, s, p1).Some? {
          SameNumber(o, src, s, t, name, NumberAll(part, src, s, p1).value.1);
        }
      }
    case UnaryS(_, _, a) => SameNumber(a, src, s, t, name, ps);
    case BinaryS(_, l, r) =>
      SameNumber(l, src, s, t, name, ps);
      if Number(l, src, s, ps).Some? {
        SameNumber(r, src, s, t, name, Number(l, src, s, ps).value.1);
      }
    case JunctionS(_, args) => SameNumberAll(args, src, s, t, name, ps);
    case NotS(a) => SameNumber(a, src, s, t, name, ps);
    case NullS(_, a) => SameNumber(a, src, s, t, name, ps);
    case ListS(_, args) => SameNumberAll(args, src, s, t, name, ps);
  }

  lemma {:induction false} SameNumberAll(xs: seq<Tree>, src: seq<Source>, s: Schema, t: Schema, name: string, ps: seq<Param>)
    requires Adds(s, t, name) && AwayAll(xs, src, name)
    ensures NumberAll(xs, src, t, ps) == NumberAll(xs, src, s, ps)
    decreases WeightAll(xs), 1
  {
    if xs != [] {
      SameNumber(xs[0], src, s, t, name, ps);
      if Number(xs[0], src, s, ps).Some? {
        SameNumberAll(xs[1..], src, s, t, name, Number(xs[0], src, s, ps).value.1);
      }
    }
  }

  /**
    Where no column is looked up in the new table, resolving, typing and emitting are the same in
    both scopes.
   */
  lemma {:induction false} ScopeIsConservative(x: Tree, src: seq<Source>, root: Tree, name: string, s: Schema, p: Policy, ps: seq<Param>)
    requires PrepareScope(root, name, s, p).Some? && Away(x, src, name)
    ensures var (t, p') := PrepareScope(root, name, s, p).value;
            && (ValidColumns(x, src, t, p') <==> ValidColumns(x, src, s, p))
            && ExprType(x, src, t) == ExprType(x, src, s) && (WellTyped(x, src, t) <==> WellTyped(x, src, s))
            && Number(x, src, t, ps) == Number(x, src, s, ps)
  {
    var (t, p') := PrepareScope(root, name, s, p).value;
    ScopeAdds(root, name, s, p);
    SameValid(x, src, s, t, name, p, p');
    SameType(x, src, s, t, name);
    SameTyped(x, src, s, t, name);
    SameNumber(x, src, s, t, name, ps);
  }

  lemma {:induction false} ScopeAdds(root: Tree, name: string, s: Schema, p: Policy)
    requires PrepareScope(root, name, s, p).Some?
    ensures Adds(s, PrepareScope(root, name, s, p).value.0, name)
  {
    var (fs, source) := Inner(root).value;
    ExtendedAdds(fs, name, [source], s);
  }

  lemma {:induction false} ExtendedAdds(fs: seq<Tree>, name: string, src: seq<Source>, s: Schema)
    requires FieldColumns(fs, name, src, s).Some?
    ensures Adds(s, Extended(name, FieldColumns(fs, name, src, s).value, s), name)
  {
    var cols := FieldColumns(fs, name, src, s).value;
    FieldsAreNew(fs, name, src, s);
    AddedColumns(s.cols, cols, name);
    AddedTable(s.tables, name);
  }

  lemma {:induction false} AddedColumns(cols: seq<Column>, more: seq<Column>, name: string)
    requires forall c :: c in more ==> c.schema == "public" && c.table == name
    ensures cols <= cols + more
    ensures forall i :: |cols| <= i < |cols + more| ==> (cols + more)[i].schema == "public" && (cols + more)[i].table == name
  {
    forall i | |cols| <= i < |cols + more|
      ensures (cols + more)[i] in more
    {
      assert (cols + more)[i] == more[i - |cols|];
    }
  }

  lemma {:induction false} AddedTable(tables: seq<(string, string)>, name: string)
    ensures tables <= tables + [("public", name)]
    ensures forall x :: x in tables + [("public", name)] ==> x in tables || x == ("public", name)
  {
  }

  lemma {:induction false} FieldsAreNew(fs: seq<Tree>, name: string, src: seq<Source>, s: Schema)
    requires FieldColumns(fs, name, src, s).Some?
    ensures forall c :: c in FieldColumns(fs, name, src, s).value ==> c.schema == "public" && c.table == name
  {
    if fs != [] {
      FieldsAreNew(fs[1..], name, src, s);
    }
  }

  // ---- columns of the new table ----

  /** Nothing in the schema or among the denied columns is called name yet. */
  ghost predicate Fresh(name: string, s: Schema, p: Policy) {
    && ("public", name) !in s.tables
    && (forall c :: c in s.cols ==> !(c.schema == "public" && c.table == name))
    && forall x :: x in p.deny ==> !(x.0 == "public" && x.1 == name)
  }

  /** The first field projected under a name. */
  function FieldNamed(fs: seq<Tree>, col: string): (r: Option<Tree>)
    ensures r.Some? ==> r.value in fs && Form(r.value, "field", 3)
  {
    if fs == [] then None
    else if Form(fs[0], "field", 3) && fs[0].kids[2] == Atom(col) then Some(fs[0])
    else FieldNamed(fs[1..], col)
  }

  lemma {:induction false} FindProjected(fs: seq<Tree>, name: string, src: seq<Source>, s: Schema, col: string)
    requires FieldColumns(fs, name, src, s).Some?
    ensures FindIn(FieldColumns(fs, name, src, s).value, "public", name, col) ==
            match FieldNamed(fs, col)
            case None => None
            case Some(f) => Some(Column("public", name, col, ExprType(f.kids[1], src, s), false))
  {
    if fs != [] {
      FindProjected(fs[1..], name, src, s, col);
      var cols := FieldColumns(fs, name, src, s).value;
      assert cols[1..] == FieldColumns(fs[1..], name, src, s).value;
    }
  }

  function ColumnNode(alias: string, col: string): Tree { Node([Atom("column"), Atom(alias), Atom(col)]) }

  /** The fields of a request's select clause, by their place in the tree. */
  function SelectFields(root: Tree): seq<Tree> {
    match FindClause(Recovery.ClausesOf(root), "select")
    case Some(x) => x.kids[1..]
    case None => []
  }

  /** The source a request's from clause names. */
  ghost predicate SelectsFrom(root: Tree, o: Source) {
    var x := FindClause(Recovery.ClausesOf(root), "from"); x.Some? && Recovery.SaysFrom(x.value, o)
  }

  lemma {:induction false} InnerIs(root: Tree, name: string, s: Schema, p: Policy) returns (source: Source)
    requires PrepareScope(root, name, s, p).Some?
    ensures Inner(root) == Some((SelectFields(root), source)) && SelectsFrom(root, source)
    ensures FieldColumns(SelectFields(root), name, [source], s).Some?
  {
    source := Inner(root).value.1;
    Recovery.FromSaid(FindClause(Recovery.ClausesOf(root), "from").value);
  }

  /**
    With a fresh name, a column of the new table is accepted exactly when the inner query selects
    a field under that name, and its type is the type of the first expression so selected.
   */
  lemma {:induction false} ProjectedExactly(root: Tree, name: string, s: Schema, p: Policy, src: seq<Source>, alias: string, col: string)
    returns (source: Source)
    requires PrepareScope(root, name, s, p).Some? && Fresh(name, s, p)
    requires SourceIndex(src, alias) < |src| && IsNew(src[SourceIndex(src, alias)], name)
    ensures SelectsFrom(root, source)
    ensures var (t, p') := PrepareScope(root, name, s, p).value;
            var f := FieldNamed(SelectFields(root), col);
            && (ValidColumns(ColumnNode(alias, col), src, t, p') <==> f.Some?)
            && ExprType(ColumnNode(alias, col), src, t) == if f.Some? then ExprType(f.value.kids[1], [source], s) else UnknownT
  {
    var (t, p') := PrepareScope(root, name, s, p).value;
    source := InnerIs(root, name, s, p);
    NewColumn(SelectFields(root), name, [source], s, p, col);
    ColumnNodeLaws(src, t, p', alias, col);
  }

  /** The column that a selected field adds. */
  predicate ColumnFor(c: Column, f: Tree, name: string, source: Source, s: Schema) {
    && f.Node? && |f.kids| == 3 && f.kids[2] == Atom(c.name)
    && c == Column("public", name, c.name, ExprType(f.kids[1], [source], s), false)
  }

  /** The new scope has one table more, admitted, and one column for each field, in their order. */
  lemma {:induction false} ScopeGains(root: Tree, name: string, s: Schema, p: Policy) returns (source: Source, cols: seq<Column>)
    requires PrepareScope(root, name, s, p).Some?
    ensures SelectsFrom(root, source) && |cols| == |SelectFields(root)|
    ensures forall i :: 0 <= i < |cols| ==> ColumnFor(cols[i], SelectFields(root)[i], name, source, s)
    ensures var (t, p') := PrepareScope(root, name, s, p).value;
            && t == s.(tables := s.tables + [("public", name)], cols := s.cols + cols)
            && p' == p.(allow := p.allow + [("public", name)])
  {
    source := InnerIs(root, name, s, p);
    var fs := SelectFields(root);
    cols := FieldColumns(fs, name, [source], s).value;
    forall i | 0 <= i < |cols|
      ensures ColumnFor(cols[i], fs[i], name, source, s)
    {
      assert FieldColumn(fs[i], name, [source], s) == Some(cols[i]);
    }
  }

  // ---- when a scope is granted ----

  lemma {:induction false} NoJoinSources(cs: seq<Tree>, srcs: seq<Source>, s: Schema, p: Policy)
    requires forall c :: c in cs ==> !IsList(c, "join")
    ensures JoinSources(cs, srcs, s, p) == Ok(srcs)
  {
    if cs != [] {
      assert cs[0] in cs && forall c :: c in cs[1..] ==> c in cs;
      NoJoinSources(cs[1..], srcs, s, p);
    }
  }

  /** A field of an accepted query gets a column exactly when it is not a bare name. */
  lemma {:induction false} FieldTyped(f: Tree, name: string, src: seq<Source>, s: Schema)
    requires Form(f, "field", 3) && Name(f.kids[2]) && WellTyped(f, src, s)
    ensures FieldColumn(f, name, src, s).Some? <==> !IsList(f.kids[1], "ref")
  {
    if IsList(f.kids[1], "ref") {
      assert ExprType(f.kids[1], src, s) == UnknownT;
    }
  }

  ghost predicate AreFields(fs: seq<Tree>, src: seq<Source>, s: Schema) {
    forall f :: f in fs ==> Form(f, "field", 3) && Name(f.kids[2]) && WellTyped(f, src, s)
  }

  lemma {:induction false} FieldsTyped(fs: seq<Tree>, name: string, src: seq<Source>, s: Schema)
    requires AreFields(fs, src, s)
    ensures FieldColumns(fs, name, src, s).Some? <==> forall f :: f in fs ==> !IsList(f.kids[1], "ref")
  {
    if fs != [] {
      assert fs[0] in fs && forall f :: f in fs[1..] ==> f in fs;
      FieldTyped(fs[0], name, src, s);
      FieldsTyped(fs[1..], name, src, s);
      assert forall f :: f in fs <==> f == fs[0] || f in fs[1..];
    }
  }

  lemma {:induction false} PlannedAreFields(fs: seq<Tree>, src: seq<Source>, s: Schema, ps: seq<Param>)
    requires FieldsPlan(fs, src, s, ps).Some?
    ensures forall f :: f in fs ==> Form(f, "field", 3) && Name(f.kids[2])
  {
    if fs != [] {
      PlannedAreFields(fs[1..], src, s, Number(fs[0].kids[1], src, s, ps).value.1);
      assert forall f :: f in fs <==> f == fs[0] || f in fs[1..];
    }
  }

  /** Room for one more table, its columns and its rule. */
  predicate RoomFor(n: nat, s: Schema, p: Policy) {
    |s.tables| < MAX_TABLES && |s.cols| + n <= MAX_COLS && |p.allow| < MAX_RULES
  }

  /**
    The scope of an accepted inner query is granted exactly when the name is an identifier, the
    query joins nothing and selects no bare name, and there is room.
   */
  lemma {:induction false} ScopeExactly(root: Tree, name: string, s: Schema, p: Policy, lim: Limits, d: Sql.Dialect)
    requires CompileTree(root, s, p, lim, d).Ok?
    ensures PrepareScope(root, name, s, p).Some? <==>
            && Sql.Ident(name) && NoJoin(root)
            && NoBareName(root) && RoomFor(|SelectFields(root)|, s, p)
  {
    var src := SelectPlanned(root, s, p, lim, d);
    PlannedAreFields(SelectFields(root), src, s, []);
    if NoJoin(root) {
      ScopeOfOne(root, name, s, p, src);
    } else {
      JoinRefused(root, name, s, p);
    }
  }

  lemma {:induction false} SelectPlanned(root: Tree, s: Schema, p: Policy, lim: Limits, d: Sql.Dialect) returns (src: seq<Source>)
    requires CompileTree(root, s, p, lim, d).Ok?
    ensures Checked(root, s, p) && WellTyped(root.kids[2], src, s) && FieldsPlan(SelectFields(root), src, s, []).Some?
    ensures JoinSources(Recovery.ClausesOf(root), [FromSource(FindClause(Recovery.ClausesOf(root), "from").value).value], s, p) == Ok(src)
  {
    var r := CompileProps.TakeApart(root, s, p, lim, d);
    FrontOf(root, s, p, lim);
    src := r.src;
  }

  lemma {:induction false} JoinRefused(root: Tree, name: string, s: Schema, p: Policy)
    requires Checked(root, s, p) && !NoJoin(root)
    ensures PrepareScope(root, name, s, p).None?
  {
  }

  lemma {:induction false} ScopeOfOne(root: Tree, name: string, s: Schema, p: Policy, src: seq<Source>)
    requires Checked(root, s, p) && NoJoin(root) && WellTyped(root.kids[2], src, s)
    requires JoinSources(Recovery.ClausesOf(root), [FromSource(FindClause(Recovery.ClausesOf(root), "from").value).value], s, p) == Ok(src)
    requires forall f :: f in SelectFields(root) ==> Form(f, "field", 3) && Name(f.kids[2])
    ensures PrepareScope(root, name, s, p).Some? <==>
            && Sql.Ident(name) && NoBareName(root) && RoomFor(|SelectFields(root)|, s, p)
  {
    var source := FromSource(FindClause(Recovery.ClausesOf(root), "from").value).value;
    NoJoinSources(Recovery.ClausesOf(root), [source], s, p);
    SelectTyped(root, Recovery.ClausesOf(root), [source], s);
    FieldsTyped(SelectFields(root), name, [source], s);
    GrantedExactly(root, name, source, s, p);
  }

  ghost predicate NoBareName(root: Tree) {
    forall f :: f in SelectFields(root) ==> f.Node? && |f.kids| == 3 && !IsList(f.kids[1], "ref")
  }

  ghost predicate NoJoin(root: Tree) { forall c :: c in Recovery.ClausesOf(root) ==> !IsList(c, "join") }

  /** What the checks of a compile leave to the scope: the joins, the types and the room. */
  ghost predicate Checked(root: Tree, s: Schema, p: Policy) {
    var cs := Recovery.ClausesOf(root);
    && IsList(root, "nlsql") && |root.kids| >= 3 && (IsAtom(root.kids[1], "1") || IsAtom(root.kids[1], "2")) && IsList(root.kids[2], "query")
    && FindClause(cs, "from").Some? && FindClause(cs, "select").Some?
    && 2 <= |FindClause(cs, "from").value.kids| <= 3 && |FindClause(cs, "select").value.kids| >= 2
    && FromSource(FindClause(cs, "from").value).Some?
  }

  lemma {:induction false} FrontOf(root: Tree, s: Schema, p: Policy, lim: Limits)
    requires Front(root, s, p, lim).Ok?
    ensures Checked(root, s, p)
    ensures var (cs, src) := Front(root, s, p, lim).value;
            && cs == Recovery.ClausesOf(root) && WellTyped(root.kids[2], src, s)
            && JoinSources(cs, [FromSource(FindClause(cs, "from").value).value], s, p) == Ok(src)
  {
    CompileProps.FrontFacts(root, s, p, lim);
  }

  lemma {:induction false} GrantedExactly(root: Tree, name: string, source: Source, s: Schema, p: Policy)
    requires Checked(root, s, p) && NoJoin(root)
    requires FromSource(FindClause(Recovery.ClausesOf(root), "from").value) == Some(source)
    ensures PrepareScope(root, name, s, p).Some? <==>
            Sql.Ident(name) && FieldColumns(SelectFields(root), name, [source], s).Some? && RoomFor(|SelectFields(root)|, s, p)
  {
  }

  lemma {:induction false} SelectTyped(root: Tree, cs: seq<Tree>, src: seq<Source>, s: Schema)
    requires root.Node? && |root.kids| >= 3 && root.kids[2].Node? && root.kids[2].kids != [] && cs == root.kids[2].kids[1..]
    requires WellTyped(root.kids[2], src, s) && FindClause(cs, "select").Some?
    ensures forall f :: f in FindClause(cs, "select").value.kids[1..] ==> WellTyped(f, src, s)
  {
    var x := FindClause(cs, "select").value;
    assert x in root.kids[2].kids;
    assert forall f :: f in x.kids[1..] ==> f in x.kids;
  }

  /** What a lookup in the new table finds. */
  lemma {:induction false} NewColumn(fs: seq<Tree>, name: string, src: seq<Source>, s: Schema, p: Policy, col: string)
    requires FieldColumns(fs, name, src, s).Some? && Fresh(name, s, p)
    ensures ColFind(Extended(name, FieldColumns(fs, name, src, s).value, s), "public", name, col) ==
            match FieldNamed(fs, col)
            case None => None
            case Some(f) => Some(Column("public", name, col, ExprType(f.kids[1], src, s), false))
    ensures !Denied(p, "public", name, col)
  {
    FindInAppend(s.cols, FieldColumns(fs, name, src, s).value, "public", name, col);
    FindProjected(fs, name, src, s, col);
  }

  /** A column node is valid, and has a type, by its lookup alone. */
  lemma {:induction false} ColumnNodeLaws(src: seq<Source>, t: Schema, p: Policy, alias: string, col: string)
    requires SourceIndex(src, alias) < |src|
    ensures var o := src[SourceIndex(src, alias)];
            var c := ColFind(t, o.schema, o.table, col);
            && (ValidColumns(ColumnNode(alias, col), src, t, p) <==> c.Some? && !Denied(p, o.schema, o.table, col))
            && ExprType(ColumnNode(alias, col), src, t) == if c.Some? then c.value.ty else UnknownT
  {
    var x := ColumnNode(alias, col);
    assert Form(x, "column", 3);
    assert forall k :: k in x.kids ==> k.Atom?;
  }

  // ---- whole queries ----

  ghost predicate Apart(src: seq<Source>, name: string) { forall o :: o in src ==> !IsNew(o, name) }

  lemma {:induction false} ApartIsAway(x: Tree, src: seq<Source>, name: string)
    requires Apart(src, name)
    ensures Away(x, src, name)
  {
    if x.Node? {
      forall k | k in x.kids
        ensures Away(k, src, name)
      {
        ApartIsAway(k, src, name);
      }
    }
  }

  /** The extended scope: more tables allowed, everything else as before. */
  ghost predicate Wider(s: Schema, t: Schema, p: Policy, p': Policy, name: string) {
    && Adds(s, t, name) && ("public", name) !in s.tables && p.allow <= p'.allow
    && p' == p.(allow := p'.allow)
  }

  lemma {:induction false} StillUsable(o: Source, s: Schema, t: Schema, p: Policy, p': Policy, name: string)
    requires Wider(s, t, p, p', name) && Usable(s, p, o)
    ensures Usable(t, p', o) && !IsNew(o, name)
  {
  }

  lemma {:induction false} StillJoins(x: Tree, srcs: seq<Source>, s: Schema, t: Schema, p: Policy, p': Policy, name: string)
    requires Wider(s, t, p, p', name) && JoinNodeOk(x, srcs, s, p)
    ensures JoinNodeOk(x, srcs, t, p') && !IsNew(ParseSource(x, 2, 3).value, name)
  {
    StillUsable(ParseSource(x, 2, 3).value, s, t, p, p', name);
  }

  lemma {:induction false} SameSources(cs: seq<Tree>, srcs: seq<Source>, s: Schema, t: Schema, p: Policy, p': Policy, name: string)
    requires Wider(s, t, p, p', name) && Apart(srcs, name) && JoinSources(cs, srcs, s, p).Ok?
    ensures JoinSources(cs, srcs, t, p') == JoinSources(cs, srcs, s, p) && Apart(JoinSources(cs, srcs, s, p).value, name)
  {
    if cs != [] {
      if IsList(cs[0], "join") {
        StillJoins(cs[0], srcs, s, t, p, p', name);
        SameSources(cs[1..], srcs + [ParseSource(cs[0], 2, 3).value], s, t, p, p', name);
      } else {
        SameSources(cs[1..], srcs, s, t, p, p', name);
      }
    }
  }

  lemma {:induction false} SameFront(root: Tree, s: Schema, t: Schema, p: Policy, p': Policy, lim: Limits, name: string)
    requires Wider(s, t, p, p', name) && Front(root, s, p, lim).Ok?
    ensures Front(root, t, p', lim) == Front(root, s, p, lim) && Apart(Front(root, s, p, lim).value.1, name)
  {
    var cs := QueryClauses(root).value;
    var first := FromSource(FindClause(cs, "from").value).value;
    StillUsable(first, s, t, p, p', name);
    SameSources(cs, [first], s, t, p, p', name);
    var src := JoinSources(cs, [first], s, p).value;
    ApartIsAway(root.kids[2], src, name);
    SameValid(root.kids[2], src, s, t, name, p, p');
    SameTyped(root.kids[2], src, s, t, name);
  }

  lemma {:induction false} SameFields(fs: seq<Tree>, src: seq<Source>, s: Schema, t: Schema, name: string, ps: seq<Param>)
    requires Adds(s, t, name) && Apart(src, name)
    ensures FieldsPlan(fs, src, t, ps) == FieldsPlan(fs, src, s, ps)
  {
    if fs != [] && Form(fs[0], "field", 3) {
      ApartIsAway(fs[0].kids[1], src, name);
      SameNumber(fs[0].kids[1], src, s, t, name, ps);
      if Number(fs[0].kids[1], src, s, ps).Some? {
        SameFields(fs[1..], src, s, t, name, Number(fs[0].kids[1], src, s, ps).value.1);
      }
    }
  }

  lemma {:induction false} SameJoins(cs: seq<Tree>, src: seq<Source>, i: nat, s: Schema, t: Schema, name: string, ps: seq<Param>)
    requires Adds(s, t, name) && Apart(src, name) && i <= |src|
    ensures JoinsPlan(cs, src, i, t, ps) == JoinsPlan(cs, src, i, s, ps)
    decreases |src| - i
  {
    if i < |src| {
      var j := JoinNode(cs, src[i].alias);
      if j.Some? && |j.value.kids| >= 5 {
        ApartIsAway(j.value.kids[4], src, name);
        SameNumber(j.value.kids[4], src, s, t, name, ps);
        if Number(j.value.kids[4], src, s, ps).Some? {
          SameJoins(cs, src, i + 1, s, t, name, Number(j.value.kids[4], src, s, ps).value.1);
        }
      }
    }
  }

  lemma {:induction false} SameClauses(x: Option<Tree>, src: seq<Source>, s: Schema, t: Schema, name: string, ps: seq<Param>)
    requires Adds(s, t, name) && Apart(src, name)
    ensures CondPlan(x, src, t, ps) == CondPlan(x, src, s, ps)
    ensures GroupPlan(x, src, t, ps) == GroupPlan(x, src, s, ps)
    ensures OrderPlan(x, src, t, ps) == OrderPlan(x, src, s, ps)
  {
    if x.Some? && x.value.Node? {
      forall k: Tree
        ensures Away(k, src, name)
      {
        ApartIsAway(k, src, name);
      }
      if |x.value.kids| >= 2 {
        SameNumber(x.value.kids[1], src, s, t, name, ps);
      }
      if x.value.kids != [] {
        SameNumberAll(x.value.kids[1..], src, s, t, name, ps);
      }
    }
  }

  lemma {:induction false} SameTenants(src: seq<Source>, s: Schema, t: Schema, p: Policy, p': Policy, name: string, ps: seq<Param>)
    requires Wider(s, t, p, p', name) && Apart(src, name)
    ensures TenantsPlan(src, t, p', ps) == TenantsPlan(src, s, p, ps)
  {
    if src != [] {
      assert src[0] in src;
      var o := src[0];
      var col := PolicyTenant(p, o.schema, o.table);
      if col.None? {
        SameTenants(src[1..], s, t, p, p', name, ps);
      } else {
        SameColumn(s, t, name, o.schema, o.table, col.value);
        if Index(ps, TenantParam(p)).Some? {
          SameTenants(src[1..], s, t, p, p', name, Index(ps, TenantParam(p)).value.1);
        }
      }
    }
  }

  lemma {:induction false} SameUpper(cs: seq<Tree>, src: seq<Source>, s: Schema, t: Schema, name: string)
    requires Adds(s, t, name) && Apart(src, name) && src != []
    ensures Upper(cs, src, t) == Upper(cs, src, s)
  {
    var sel := FindClause(cs, "select");
    if sel.Some? {
      SameFields(sel.value.kids[1..], src, s, t, name, []);
      var f := FieldsPlan(sel.value.kids[1..], src, s, []);
      if f.Some? {
        SameJoins(cs, src, 1, s, t, name, f.value.1);
        var j := JoinsPlan(cs, src, 1, s, f.value.1);
        if j.Some? {
          SameClauses(FindClause(cs, "where"), src, s, t, name, j.value.1);
        }
      }
    }
  }

  /** What follows the condition, from the table p3 on. */
  ghost predicate SameLower(cs: seq<Tree>, src: seq<Source>, s: Schema, t: Schema, p: Policy, p': Policy, p3: seq<Param>) {
    var n := TenantsPlan(src, s, p, p3);
    && TenantsPlan(src, t, p', p3) == n
    && (n.Ok? ==>
          var g := GroupPlan(FindClause(cs, "group-by"), src, s, n.value.1);
          && GroupPlan(FindClause(cs, "group-by"), src, t, n.value.1) == g
          && (g.Some? ==> OrderPlan(FindClause(cs, "order-by"), src, t, g.value.1) == OrderPlan(FindClause(cs, "order-by"), src, s, g.value.1)))
  }

  lemma {:induction false} LowerIsSame(cs: seq<Tree>, src: seq<Source>, s: Schema, t: Schema, p: Policy, p': Policy, name: string, p3: seq<Param>)
    requires Wider(s, t, p, p', name) && Apart(src, name)
    ensures SameLower(cs, src, s, t, p, p', p3)
  {
    SameTenants(src, s, t, p, p', name, p3);
    var n := TenantsPlan(src, s, p, p3);
    if n.Ok? {
      SameClauses(FindClause(cs, "group-by"), src, s, t, name, n.value.1);
      var g := GroupPlan(FindClause(cs, "group-by"), src, s, n.value.1);
      if g.Some? {
        SameClauses(FindClause(cs, "order-by"), src, s, t, name, g.value.1);
      }
    }
  }

  lemma {:induction false} SameBack(cs: seq<Tree>, src: seq<Source>, s: Schema, t: Schema, p: Policy, p': Policy, lim: Limits,
                                    d: Sql.Dialect, name: string)
    requires Wider(s, t, p, p', name) && Apart(src, name) && src != []
    ensures Back(cs, src, t, p', lim, d) == Back(cs, src, s, p, lim, d)
  {
    SameUpper(cs, src, s, t, name);
    var u := Upper(cs, src, s);
    if u.Some? {
      LowerIsSame(cs, src, s, t, p, p', name, u.value.3);
    }
    SameLimit(FindClause(cs, "limit"), s, t, p, p', lim, name);
  }

  lemma {:induction false} SameLimit(x: Option<Tree>, s: Schema, t: Schema, p: Policy, p': Policy, lim: Limits, name: string)
    requires Wider(s, t, p, p', name)
    ensures LimitOf(x, p', lim) == LimitOf(x, p, lim)
  {
  }

  /** A query accepted without the new table compiles to the same statement and parameters with it. */
  lemma {:induction false} SameCompile(query: Tree, root: Tree, name: string, s: Schema, p: Policy, lim: Limits, d: Sql.Dialect)
    requires PrepareScope(root, name, s, p).Some? && Fresh(name, s, p) && CompileTree(query, s, p, lim, d).Ok?
    ensures var (t, p') := PrepareScope(root, name, s, p).value;
            CompileTree(query, t, p', lim, d) == CompileTree(query, s, p, lim, d)
  {
    var (t, p') := PrepareScope(root, name, s, p).value;
    ScopeAdds(root, name, s, p);
    SameFront(query, s, t, p, p', lim, name);
    var (cs, src) := Front(query, s, p, lim).value;
    SameBack(cs, src, s, t, p, p', lim, d, name);
  }
}
