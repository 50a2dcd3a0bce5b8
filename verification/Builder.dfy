/** The fluent builder of Python: it splices text fragments, and the text reads back as a query. */
module Builder {
  import opened Wrappers
  import opened Sexpr
  import opened Decimal
  import Reader
  import PyReader
  import Printer

  datatype Join = Join(kind: string, table: string, alias: string, on: string)
  datatype Field = Field(expr: string, name: string)

  /** The fields of a builder, with the tree each fragment stands for. */
  datatype Assembly = Assembly(
    table: Tree, alias: Tree, joins: seq<seq<Tree>>, fields: seq<seq<Tree>>,
    cond: Option<Tree>, groups: seq<Tree>, order: Option<(Tree, Tree)>, limit: int)

  function List(head: string, kids: seq<Tree>): Tree {
    Node([Atom(head)] + kids)
  }

  function Lists(head: string, rows: seq<seq<Tree>>): seq<Tree> {
    seq(|rows|, i requires 0 <= i < |rows| => List(head, rows[i]))
  }

  function DecInt(n: int): string {
    if n < 0 then "-" + Dec(-n) else Dec(n)
  }

  function CondPart(q: Assembly): seq<Tree> {
    if q.cond.Some? then [List("where", [q.cond.value])] else []
  }

  function GroupPart(q: Assembly): seq<Tree> {
    if q.groups != [] then [List("group-by", q.groups)] else []
  }

  function OrderPart(q: Assembly): seq<Tree> {
    if q.order.Some? then [List("order-by", [q.order.value.0, q.order.value.1])] else []
  }

  function Tail(q: Assembly): seq<Tree> {
    [List("select", Lists("field", q.fields))] + CondPart(q) + GroupPart(q) + OrderPart(q)
    + [List("limit", [Atom(DecInt(q.limit))])]
  }

  function Clauses(q: Assembly): seq<Tree> {
    [List("from", [q.table, q.alias])] + Lists("join", q.joins) + Tail(q)
  }

  /** The query tree that a builder's fields describe. */
  function QueryTree(q: Assembly): Tree {
    List("nlsql", [Atom("2"), List("query", Clauses(q))])
  }

  /** White space that separates words and is no part of the heads, brackets and numerals. */
  ghost predicate Sane(ws: set<char>) {
    ' ' in ws && forall c :: 'a' <= c <= 'z' || '0' <= c <= '9' || c == '-' || c == '(' || c == ')' ==> c !in ws
  }

  lemma SaneSpace()
    ensures Sane(PY_SPACE)
  {
  }

  ghost predicate Den(text: string, t: Tree, ws: set<char>) {
    Lex(text, ws) == Flatten(t)
  }

  ghost predicate DenoteAll(texts: seq<string>, trees: seq<Tree>, ws: set<char>) {
    |texts| == |trees| && forall i :: 0 <= i < |texts| ==> Den(texts[i], trees[i], ws)
  }

  /** ' '.join(texts) */
  function Spaced(texts: seq<string>): string {
    if texts == [] then "" else if |texts| == 1 then texts[0] else texts[0] + " " + Spaced(texts[1..])
  }

  lemma {:induction false} SpacedDenotes(texts: seq<string>, trees: seq<Tree>, ws: set<char>)
    requires Sane(ws)
    requires DenoteAll(texts, trees, ws)
    ensures Lex(Spaced(texts), ws) == FlattenAll(trees)
  {
    if |texts| > 1 {
      var tail := " " + Spaced(texts[1..]);
      SpacedDenotes(texts[1..], trees[1..], ws);
      Reader.LexConcat(texts[0], tail, ws);
      assert tail[1..] == Spaced(texts[1..]);
      assert texts[0] + tail == Spaced(texts);
    } else if |texts| == 1 {
      assert trees == [trees[0]] && trees[1..] == [];
      assert FlattenAll(trees) == Flatten(trees[0]) + [];
    }
  }

  lemma DenoteAllAppend(a: seq<string>, x: seq<Tree>, b: seq<string>, y: seq<Tree>, ws: set<char>)
    requires DenoteAll(a, x, ws) && DenoteAll(b, y, ws)
    ensures DenoteAll(a + b, x + y, ws)
  {
  }

  /** f"({head} {body})" */
  function Form(head: string, body: string): string {
    "(" + head + " " + body + ")"
  }

  lemma {:induction false} WordDenotes(w: string, ws: set<char>)
    requires Sane(ws)
    requires Printer.PrintableWord(w, ws)
    ensures Den(w, Atom(w), ws)
  {
    Printer.CanonDenotes(Atom(w), ws);
  }

  lemma {:induction false} LexFront(x: string, ws: set<char>)
    requires Sane(ws)
    ensures Lex("(" + x, ws) == [Open] + Lex(x, ws)
    ensures Lex(" " + x, ws) == Lex(x, ws)
    ensures Lex(")", ws) == [Close]
  {
    assert ("(" + x)[1..] == x && (" " + x)[1..] == x && ")"[1..] == "";
  }

  lemma {:induction false} FormDenotes(head: string, body: string, kids: seq<Tree>, ws: set<char>)
    requires Sane(ws)
    requires Printer.PrintableWord(head, ws) && Lex(body, ws) == FlattenAll(kids)
    ensures Den(Form(head, body), List(head, kids), ws)
  {
    var tail := body + ")";
    LexFront(head + (" " + tail), ws);
    LexFront(tail, ws);
    WordDenotes(head, ws);
    Reader.LexConcat(head, " " + tail, ws);
    Reader.LexConcat(body, ")", ws);
    assert Form(head, body) == "(" + (head + (" " + tail));
    ListFlat(head, kids);
    assert Lex(Form(head, body), ws) == [Open] + ([Word(head)] + (FlattenAll(kids) + [Close]));
  }

  lemma {:induction false} ListFlat(head: string, kids: seq<Tree>)
    ensures Flatten(List(head, kids)) == [Open] + ([Word(head)] + (FlattenAll(kids) + [Close]))
  {
    var ts := [Atom(head)] + kids;
    assert ts[1..] == kids && ts[0] == Atom(head);
    assert FlattenAll(ts) == [Word(head)] + FlattenAll(kids);
  }

  lemma {:induction false} FormOf(head: string, texts: seq<string>, trees: seq<Tree>, ws: set<char>)
    requires Sane(ws)
    requires Printer.PrintableWord(head, ws) && DenoteAll(texts, trees, ws)
    ensures Den(Form(head, Spaced(texts)), List(head, trees), ws)
  {
    SpacedDenotes(texts, trees, ws);
    FormDenotes(head, Spaced(texts), trees, ws);
  }

  lemma {:induction false} NumeralDenotes(n: int, ws: set<char>)
    requires Sane(ws)
    ensures Den(DecInt(n), Atom(DecInt(n)), ws)
  {
    assert forall c :: IsDigit(c) ==> WordChar(c, ws);
    WordDenotes(DecInt(n), ws);
  }

  function JoinText(j: Join): string {
    Form("join", Spaced([j.kind, j.table, j.alias, j.on]))
  }

  function FieldText(f: Field): string {
    Form("field", Spaced([f.expr, f.name]))
  }

  function JoinTexts(js: seq<Join>): seq<string> {
    seq(|js|, i requires 0 <= i < |js| => JoinText(js[i]))
  }

  function FieldTexts(fs: seq<Field>): seq<string> {
    seq(|fs|, i requires 0 <= i < |fs| => FieldText(fs[i]))
  }

  /** The value held by a builder. */
  datatype Fragments = Fragments(
    table: string, alias: string, joins: seq<Join>, fields: seq<Field>,
    cond: Option<string>, groups: seq<string>, order: Option<(string, string)>, limit: int)
  {
    function CondPart(): seq<string> {
      if cond.Some? && cond.value != "" then [Form("where", cond.value)] else []
    }

    function GroupPart(): seq<string> {
      if groups != [] then [Form("group-by", Spaced(groups))] else []
    }

    function OrderPart(): seq<string> {
      if order.Some? then [Form("order-by", Spaced([order.value.0, order.value.1]))] else []
    }

    /** The clauses after the joins. */
    function Tail(): seq<string> {
      [Form("select", Spaced(FieldTexts(fields)))] + CondPart() + GroupPart() + OrderPart()
      + [Form("limit", DecInt(limit))]
    }

    function Text(): string {
      var parts := [Form("from", Spaced([table, alias]))] + JoinTexts(joins) + Tail();
      Form("nlsql", Spaced(["2", Form("query", Spaced(parts))]))
    }

    /** Every fragment is the text of the matching tree of q. */
    ghost predicate Matches(q: Assembly, ws: set<char>) {
      && DenoteAll([table, alias], [q.table, q.alias], ws)
      && |joins| == |q.joins|
      && (forall i :: 0 <= i < |joins| ==>
            DenoteAll([joins[i].kind, joins[i].table, joins[i].alias, joins[i].on], q.joins[i], ws))
      && |fields| == |q.fields|
      && (forall i :: 0 <= i < |fields| ==> DenoteAll([fields[i].expr, fields[i].name], q.fields[i], ws))
      && cond.Some? == q.cond.Some? && (cond.Some? ==> Den(cond.value, q.cond.value, ws))
      && DenoteAll(groups, q.groups, ws)
      && order.Some? == q.order.Some?
      && (order.Some? ==> DenoteAll([order.value.0, order.value.1], [q.order.value.0, q.order.value.1], ws))
      && limit == q.limit
    }
  }

  lemma {:induction false} JoinsDenote(f: Fragments, q: Assembly, ws: set<char>)
    requires Sane(ws)
    requires f.Matches(q, ws)
    ensures DenoteAll(JoinTexts(f.joins), Lists("join", q.joins), ws)
  {
    forall i | 0 <= i < |f.joins|
      ensures Den(JoinTexts(f.joins)[i], Lists("join", q.joins)[i], ws)
    {
      FormOf("join", [f.joins[i].kind, f.joins[i].table, f.joins[i].alias, f.joins[i].on], q.joins[i], ws);
    }
  }

  lemma {:induction false} FieldsDenote(f: Fragments, q: Assembly, ws: set<char>)
    requires Sane(ws)
    requires f.Matches(q, ws)
    ensures DenoteAll(FieldTexts(f.fields), Lists("field", q.fields), ws)
  {
    forall i | 0 <= i < |f.fields|
      ensures Den(FieldTexts(f.fields)[i], Lists("field", q.fields)[i], ws)
    {
      FormOf("field", [f.fields[i].expr, f.fields[i].name], q.fields[i], ws);
    }
  }

  lemma {:induction false} TailDenotes(f: Fragments, q: Assembly, ws: set<char>)
    requires Sane(ws)
    requires f.Matches(q, ws)
    ensures DenoteAll(f.Tail(), Tail(q), ws)
  {
    FieldsDenote(f, q, ws);
    FormOf("select", FieldTexts(f.fields), Lists("field", q.fields), ws);
    var a, x := [Form("select", Spaced(FieldTexts(f.fields)))], [List("select", Lists("field", q.fields))];
    CondDenotes(f, q, ws);
    DenoteAllAppend(a, x, f.CondPart(), CondPart(q), ws);
    a, x := a + f.CondPart(), x + CondPart(q);
    GroupDenotes(f, q, ws);
    DenoteAllAppend(a, x, f.GroupPart(), GroupPart(q), ws);
    a, x := a + f.GroupPart(), x + GroupPart(q);
    OrderDenotes(f, q, ws);
    DenoteAllAppend(a, x, f.OrderPart(), OrderPart(q), ws);
    a, x := a + f.OrderPart(), x + OrderPart(q);
    NumeralDenotes(f.limit, ws);
    FormOf("limit", [DecInt(f.limit)], [Atom(DecInt(f.limit))], ws);
    DenoteAllAppend(a, x, [Form("limit", DecInt(f.limit))], [List("limit", [Atom(DecInt(f.limit))])], ws);
  }

  lemma {:induction false} CondDenotes(f: Fragments, q: Assembly, ws: set<char>)
    requires Sane(ws) && f.Matches(q, ws)
    ensures DenoteAll(f.CondPart(), CondPart(q), ws)
  {
    if f.cond.Some? {
      assert Lex("", ws) == [];
      FormOf("where", [f.cond.value], [q.cond.value], ws);
    }
  }

  lemma {:induction false} GroupDenotes(f: Fragments, q: Assembly, ws: set<char>)
    requires Sane(ws) && f.Matches(q, ws)
    ensures DenoteAll(f.GroupPart(), GroupPart(q), ws)
  {
    FormOf("group-by", f.groups, q.groups, ws);
  }

  lemma {:induction false} OrderDenotes(f: Fragments, q: Assembly, ws: set<char>)
    requires Sane(ws) && f.Matches(q, ws)
    ensures DenoteAll(f.OrderPart(), OrderPart(q), ws)
  {
    if f.order.Some? {
      FormOf("order-by", [f.order.value.0, f.order.value.1], [q.order.value.0, q.order.value.1], ws);
    }
  }

  lemma {:induction false} ClausesDenote(f: Fragments, q: Assembly, ws: set<char>)
    requires Sane(ws)
    requires f.Matches(q, ws)
    ensures DenoteAll([Form("from", Spaced([f.table, f.alias]))] + JoinTexts(f.joins) + f.Tail(), Clauses(q), ws)
  {
    FormOf("from", [f.table, f.alias], [q.table, q.alias], ws);
    JoinsDenote(f, q, ws);
    TailDenotes(f, q, ws);
    var a, x := [Form("from", Spaced([f.table, f.alias]))], [List("from", [q.table, q.alias])];
    DenoteAllAppend(a, x, JoinTexts(f.joins), Lists("join", q.joins), ws);
    DenoteAllAppend(a + JoinTexts(f.joins), x + Lists("join", q.joins), f.Tail(), Tail(q), ws);
  }

  /** Whatever trees the fragments stand for, the text stands for the query built from them. */
  lemma {:induction false} TextDenotes(f: Fragments, q: Assembly, ws: set<char>)
    requires Sane(ws)
    requires f.Matches(q, ws)
    ensures Den(f.Text(), QueryTree(q), ws)
  {
    var texts := [Form("from", Spaced([f.table, f.alias]))] + JoinTexts(f.joins) + f.Tail();
    var trees := Clauses(q);
    ClausesDenote(f, q, ws);
    FormOf("query", texts, trees, ws);
    WordDenotes("2", ws);
    FormOf("nlsql", ["2", Form("query", Spaced(texts))], [Atom("2"), List("query", trees)], ws);
  }

  lemma {:induction false} EveryReading(f: Fragments)
    ensures forall q :: f.Matches(q, PY_SPACE) ==> PyReader.Denotes(f.Text(), QueryTree(q))
  {
    SaneSpace();
    forall q | f.Matches(q, PY_SPACE) {
      TextDenotes(f, q, PY_SPACE);
    }
  }

  class Query {
    var table: string
    var alias: string
    var fields: seq<Field>
    var joins: seq<Join>
    var cond: Option<string>
    var groups: seq<string>
    var order: Option<(string, string)>
    var count: int

    function Held(): Fragments
      reads this
    {
      Fragments(table, alias, joins, fields, cond, groups, order, count)
    }

    constructor (table: string, alias: Option<string>)
      ensures Held() == Fragments(
        table, if alias.Some? && alias.value != "" then alias.value else table, [], [], None, [], None, 100)
    {
      this.table := table;
      this.alias := if alias.Some? && alias.value != "" then alias.value else table;
      fields, joins, cond, groups, order, count := [], [], None, [], None, 100;
    }

    method Select(expr: string, name: string)
      modifies this
      ensures Held() == old(Held()).(fields := old(fields) + [Field(expr, name)])
    {
      fields := fields + [Field(expr, name)];
    }

    method JoinTable(t: string, a: string, on: string, kind: string)
      modifies this
      ensures Held() == old(Held()).(joins := old(joins) + [Join(kind, t, a, on)])
    {
      joins := joins + [Join(kind, t, a, on)];
    }

    method Where(c: string)
      modifies this
      ensures Held() == old(Held()).(cond := Some(c))
    {
      cond := Some(c);
    }

    method GroupBy(cols: seq<string>)
      modifies this
      ensures Held() == old(Held()).(groups := old(groups) + cols)
    {
      groups := groups + cols;
    }

    method OrderBy(col: string, desc: bool)
      modifies this
      ensures Held() == old(Held()).(order := Some((col, if desc then "desc" else "asc")))
    {
      order := Some((col, if desc then "desc" else "asc"));
    }

    method Limit(n: int)
      modifies this
      ensures Held() == old(Held()).(limit := n)
    {
      count := n;
    }

    /** The text of a builder reads back as the tree its fragments describe, whatever they are. */
    method ToIr() returns (ir: string)
      ensures ir == Held().Text()
      ensures forall q :: Held().Matches(q, PY_SPACE) ==> PyReader.Denotes(ir, QueryTree(q))
    {
      var parts := [Form("from", Spaced([table, alias]))];
      for i := 0 to |joins|
        invariant parts == [Form("from", Spaced([table, alias]))] + JoinTexts(joins[..i])
      {
        assert JoinTexts(joins[..i + 1]) == JoinTexts(joins[..i]) + [JoinText(joins[i])];
        parts := parts + [JoinText(joins[i])];
      }
      assert joins[..|joins|] == joins;
      ghost var f, head := Held(), parts;
      var tail := [Form("select", Spaced(FieldTexts(fields)))];
      if cond.Some? && cond.value != "" {
        tail := tail + [Form("where", cond.value)];
      }
      assert tail == [Form("select", Spaced(FieldTexts(fields)))] + f.CondPart();
      if groups != [] {
        tail := tail + [Form("group-by", Spaced(groups))];
      }
      assert tail == [Form("select", Spaced(FieldTexts(fields)))] + f.CondPart() + f.GroupPart();
      if order.Some? {
        tail := tail + [Form("order-by", Spaced([order.value.0, order.value.1]))];
      }
      tail := tail + [Form("limit", DecInt(count))];
      assert tail == f.Tail();
      ir := Form("nlsql", Spaced(["2", Form("query", Spaced(parts + tail))]));
      EveryReading(f);
    }
  }
}
