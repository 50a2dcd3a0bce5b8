/** The C reader: a bracket scan over the whole text, then recursive descent with a cursor. */
module Reader {
  import opened Wrappers
  import opened Sexpr
  import opened Brackets

  /** What the C reader accepts: the text denotes t, and t keeps every limit. */
  ghost predicate Accepts(ir: string, t: Tree, maxNodes: nat) {
    Lex(ir, C_SPACE) == Flatten(t) && Fits(t) && Size(t) <= maxNodes
  }

  /** No tree of at most room nodes that keeps the limits can be read from the start of toks. */
  ghost predicate NothingFits(toks: seq<Token>, room: int) {
    forall t, rest :: StartsWith(toks, t, rest) && Fits(t) ==> Size(t) > room
  }

  /** Inside a list: its bracket and the children xs have been consumed, toks is to come. */
  ghost predicate InList(all: seq<Token>, xs: seq<Tree>, toks: seq<Token>) {
    all == [Open] + FlattenAll(xs) + toks
  }

  lemma {:induction false} LexStep(s: string, p: nat, ws: set<char>)
    requires p < |s|
    ensures s[p] in ws ==> Lex(s[p..], ws) == Lex(s[p + 1..], ws)
    ensures s[p] !in ws && s[p] == '(' ==> Lex(s[p..], ws) == [Open] + Lex(s[p + 1..], ws)
    ensures s[p] !in ws && s[p] == ')' ==> Lex(s[p..], ws) == [Close] + Lex(s[p + 1..], ws)
  {
    assert s[p..][1..] == s[p + 1..];
  }

  /** After white space the next token is the closing bracket exactly where it is in the text. */
  lemma {:induction false} LexKind(s: string, p: nat)
    requires p < |s| && s[p] !in C_SPACE
    ensures Lex(s[p..], C_SPACE) != []
    ensures Lex(s[p..], C_SPACE)[0] == Close <==> s[p] == ')'
  {
  }

  lemma {:induction false} WordLenIs(s: string, n: nat, ws: set<char>)
    requires n <= |s| && (forall i :: 0 <= i < n ==> WordChar(s[i], ws))
    requires n < |s| ==> !WordChar(s[n], ws)
    ensures WordLen(s, ws) == n
  {
    if n > 0 {
      WordLenIs(s[1..], n - 1, ws);
    }
  }

  /** A maximal run of word characters is one token. */
  lemma {:induction false} LexWord(s: string, p: nat, e: nat, ws: set<char>)
    requires p < e <= |s|
    requires forall i :: p <= i < e ==> WordChar(s[i], ws)
    requires e < |s| ==> !WordChar(s[e], ws)
    ensures Lex(s[p..], ws) == [Word(s[p..e])] + Lex(s[e..], ws)
  {
    WordLenIs(s[p..], e - p, ws);
    assert s[p..][..e - p] == s[p..e] && s[p..][e - p..] == s[e..];
  }

  /** Texts that meet at a word's end are read one after the other. */
  lemma {:induction false} LexConcat(a: string, b: string, ws: set<char>)
    requires b == "" || !WordChar(b[0], ws)
    ensures Lex(a + b, ws) == Lex(a, ws) + Lex(b, ws)
    decreases |a|
  {
    if a == "" {
      assert a + b == b;
    } else if WordChar(a[0], ws) {
      var n := WordLen(a, ws);
      FirstWord(a, b, ws);
      LexConcat(a[n..], b, ws);
      Cat([Word(a[..n])], Lex(a[n..], ws), Lex(b, ws));
    } else {
      assert (a + b)[0] == a[0] && (a + b)[1..] == a[1..] + b;
      LexConcat(a[1..], b, ws);
      Cat([if a[0] == '(' then Open else Close], Lex(a[1..], ws), Lex(b, ws));
    }
  }

  lemma {:induction false} FirstWord(a: string, b: string, ws: set<char>)
    requires a != "" && WordChar(a[0], ws) && (b == "" || !WordChar(b[0], ws))
    ensures var n := WordLen(a, ws); n > 0 && Lex(a + b, ws) == [Word(a[..n])] + Lex(a[n..] + b, ws)
  {
    var s, n := a + b, WordLen(a, ws);
    assert n < |s| ==> s[n] == if n < |a| then a[n] else b[0];
    assert forall i :: 0 <= i < n ==> s[i] == a[i];
    WordLenIs(s, n, ws);
    assert s[..n] == a[..n] && s[n..] == a[n..] + b;
  }

  /** With the children xs read and toks still to come, xs are t's first children. */
  lemma {:induction false} ListPrefix(all: seq<Token>, t: Tree, rest: seq<Token>, xs: seq<Tree>, toks: seq<Token>)
    requires InList(all, xs, toks) && StartsWith(all, t, rest)
    ensures t.Node? && xs <= t.kids
    ensures toks == FlattenAll(t.kids[|xs|..]) + [Close] + rest
  {
    assert all[0] == Open == Flatten(t)[0];
    var inner := FlattenAll(t.kids);
    assert all == [Open] + inner + [Close] + rest;
    assert all[1..] == FlattenAll(xs) + toks;
    assert all[1..] == inner + [Close] + rest;
    FlattenAllPrefix(xs, t.kids, toks, rest);
  }

  /** Either the bracket comes next and the list is complete, or one more child does. */
  lemma {:induction false} ListContinues(all: seq<Token>, t: Tree, rest: seq<Token>, xs: seq<Tree>, toks: seq<Token>)
    requires InList(all, xs, toks) && StartsWith(all, t, rest)
    ensures t.Node? && xs <= t.kids && toks != []
    ensures toks[0] == Close <==> t.kids == xs
    ensures Size(t) == 1 + SizeAll(xs) + SizeAll(t.kids[|xs|..])
    ensures |xs| < |t.kids| ==>
              StartsWith(toks, t.kids[|xs|], FlattenAll(t.kids[|xs| + 1..]) + [Close] + rest)
  {
    ListPrefix(all, t, rest, xs, toks);
    var tail := t.kids[|xs|..];
    assert t.kids == xs + tail;
    FlattenAllAppend(xs, tail);
    if tail == [] {
      assert toks == [Close] + rest;
    } else {
      assert tail[1..] == t.kids[|xs| + 1..];
      var a, b, c := Flatten(tail[0]), FlattenAll(tail[1..]), [Close] + rest;
      assert toks == a + b + [Close] + rest;
      assert toks == a + (b + [Close] + rest);
    }
  }

  lemma {:induction false} TooManyChildren(all: seq<Token>, xs: seq<Tree>, toks: seq<Token>, room: int)
    requires InList(all, xs, toks) && toks != [] && toks[0] != Close && |xs| >= MAX_CHILDREN
    ensures NothingFits(all, room)
  {
    forall t, rest | StartsWith(all, t, rest)
      ensures !Fits(t)
    {
      ListContinues(all, t, rest, xs, toks);
    }
  }

  lemma {:induction false} NoNextChild(all: seq<Token>, xs: seq<Tree>, toks: seq<Token>, room: int)
    requires InList(all, xs, toks) && toks != [] && toks[0] != Close
    requires NothingFits(toks, room - 1 - SizeAll(xs))
    ensures NothingFits(all, room)
  {
    forall t, rest | StartsWith(all, t, rest) && Fits(t)
      ensures Size(t) > room
    {
      ListContinues(all, t, rest, xs, toks);
      assert t.kids[|xs|] in t.kids;
    }
  }

  lemma {:induction false} Unclosed(all: seq<Token>, xs: seq<Tree>, room: int)
    requires InList(all, xs, [])
    ensures NothingFits(all, room)
  {
    forall t, rest | StartsWith(all, t, rest)
      ensures false
    {
      ListContinues(all, t, rest, xs, []);
    }
  }

  lemma {:induction false} ListGrows(all: seq<Token>, xs: seq<Tree>, k: Tree, toks: seq<Token>, left: seq<Token>)
    requires InList(all, xs, toks) && StartsWith(toks, k, left)
    ensures InList(all, xs + [k], left)
    ensures SizeAll(xs + [k]) == SizeAll(xs) + Size(k)
  {
    FlattenAllAppend(xs, [k]);
    assert [k][1..] == [];
    assert FlattenAll([k]) == Flatten(k) + [] == Flatten(k);
  }

  lemma {:induction false} ListEnds(all: seq<Token>, xs: seq<Tree>, toks: seq<Token>, left: seq<Token>)
    requires InList(all, xs, toks) && toks == [Close] + left
    ensures StartsWith(all, Node(xs), left)
  {
  }

  class Parser {
    const s: string
    const maxNodes: nat
    var p: nat
    var nodes: nat
    ghost var deepest: nat  // the most calls of parse_node in progress at any time so far

    constructor (ir: string, maxNodes: nat)
      ensures s == ir && this.maxNodes == maxNodes && p == 0 && nodes == 0 && deepest == 0
    {
      s, this.maxNodes, p, nodes, deepest := ir, maxNodes, 0, 0, 0;
    }

    ghost function Left(): seq<Token>
      requires p <= |s|
      reads this
    {
      Lex(s[p..], C_SPACE)
    }

    method Skip()
      requires p <= |s|
      modifies this`p
      ensures old(p) <= p <= |s|
      ensures p < |s| ==> s[p] !in C_SPACE
      ensures Left() == old(Left())
    {
      while p < |s| && s[p] in C_SPACE
        invariant old(p) <= p <= |s|
        invariant Left() == old(Left())
      {
        LexStep(s, p, C_SPACE);
        p := p + 1;
      }
    }

    /**
      Reads one node, with d calls already in progress. On success the consumed tokens are exactly the node's; on failure no
      tree that keeps the limits could have been read here within the node budget. Either way, where
      the bracket scan goes on through the text at depth d, the calls nest at most 129 deep.
     */
    method ParseNode(ghost d: nat) returns (x: Option<Tree>)
      requires p <= |s|
      modifies this
      ensures old(p) <= p <= |s|
      ensures x.Some? ==>
                && old(p) < p
                && StartsWith(old(Left()), x.value, Left())
                && Fits(x.value)
                && nodes == old(nodes) + Size(x.value) <= maxNodes
      ensures x.None? ==> NothingFits(old(Left()), maxNodes - old(nodes))
      ensures Scans(old(Left()), d) ==> deepest <= Max(old(deepest), MAX_DEPTH + 1)
      decreases |s| - p
    {
      nodes, deepest := nodes + 1, Max(deepest, d + 1);
      if nodes - 1 >= maxNodes {
        return None;
      }
      Skip();
      if p >= |s| {
        assert Left() == [];
        return None;
      }
      if s[p] == '(' {
        x := ParseList(d);
        return;
      }
      var start := p;
      while p < |s| && s[p] !in C_SPACE && s[p] != ')' && s[p] != '('
        invariant start <= p <= |s|
        invariant nodes == old(nodes) + 1 && deepest == Max(old(deepest), d + 1)
        invariant forall i :: start <= i < p ==> WordChar(s[i], C_SPACE)
      {
        p := p + 1;
      }
      var n := p - start;
      if n == 0 {
        LexStep(s, start, C_SPACE);
        assert Lex(s[start..], C_SPACE)[0] == Close;
        return None;
      }
      LexWord(s, start, p, C_SPACE);
      if n >= NAME {
        forall t, rest | StartsWith(old(Left()), t, rest)
          ensures !Fits(t)
        {
          assert (Flatten(t) + rest)[0] == Flatten(t)[0] == Word(s[start..p]);
        }
        return None;
      }
      return Some(Atom(s[start..p]));
    }

    /** The bracketed branch of parse_node. */
    method ParseList(ghost d: nat) returns (x: Option<Tree>)
      requires p < |s| && s[p] == '('
      requires nodes <= maxNodes && nodes > 0
      modifies this
      ensures old(p) <= p <= |s|
      ensures x.Some? ==>
                && old(p) < p
                && StartsWith(old(Left()), x.value, Left())
                && Fits(x.value)
                && nodes == old(nodes) - 1 + Size(x.value) <= maxNodes
      ensures x.None? ==> NothingFits(old(Left()), maxNodes - old(nodes) + 1)
      ensures Scans(old(Left()), d) ==> deepest <= Max(old(deepest), MAX_DEPTH + 1)
      decreases |s| - p, 1
    {
      ghost var all, room := Left(), maxNodes - nodes + 1;
      LexStep(s, p, C_SPACE);
      p := p + 1;
      if Scans(all, d) {
        ScansInside(all, Left(), d);
      }
      Skip();
      var xs := Children(all, room, d + 1);
      if xs.Some? {
        x := Closed(all, room, xs.value);
      } else {
        x := None;
      }
    }

    /** The end of the bracketed branch: the closing bracket, or the end of the text instead. */
    method Closed(ghost all: seq<Token>, ghost room: int, xs: seq<Tree>) returns (x: Option<Tree>)
      requires p <= |s| && (p < |s| ==> s[p] == ')') && InList(all, xs, Left())
      modifies this`p
      ensures old(p) <= p <= |s|
      ensures x.Some? ==> x.value == Node(xs) && StartsWith(all, x.value, Left())
      ensures x.None? ==> NothingFits(all, room)
    {
      if p >= |s| {
        Unclosed(all, xs, room);
        return None;
      }
      ghost var toks := Left();
      LexStep(s, p, C_SPACE);
      p := p + 1;
      ListEnds(all, xs, toks, Left());
      return Some(Node(xs));
    }

    /** The loop of the bracketed branch, up to the closing bracket or the end of the text. */
    method Children(ghost all: seq<Token>, ghost room: int, ghost d: nat) returns (r: Option<seq<Tree>>)
      requires 0 < p <= |s| && InList(all, [], Left())
      requires nodes <= maxNodes && room == maxNodes - nodes + 1
      modifies this
      ensures old(p) <= p <= |s|
      ensures r.Some? ==>
                && InList(all, r.value, Left()) && (p < |s| ==> s[p] == ')')
                && |r.value| <= MAX_CHILDREN && (forall k :: k in r.value ==> Fits(k))
                && nodes == old(nodes) + SizeAll(r.value) <= maxNodes
      ensures r.None? ==> NothingFits(all, room)
      ensures Scans(old(Left()), d) ==> deepest <= Max(old(deepest), MAX_DEPTH + 1)
      decreases |s| - p + 1, 0
    {
      var xs: seq<Tree> := [];
      while true
        invariant old(p) <= p <= |s|
        invariant InList(all, xs, Left())
        invariant |xs| <= MAX_CHILDREN && forall k :: k in xs ==> Fits(k)
        invariant nodes == old(nodes) + SizeAll(xs) <= maxNodes
        invariant Scans(old(Left()), d) ==> Scans(Left(), d) && deepest <= Max(old(deepest), MAX_DEPTH + 1)
        decreases |s| - p
      {
        Skip();
        if p >= |s| || s[p] == ')' {
          return Some(xs);
        }
        ghost var toks := Left();
        LexKind(s, p);
        if |xs| >= MAX_CHILDREN {
          TooManyChildren(all, xs, toks, room);
          return None;
        }
        var k := ParseNode(d);
        if k.None? {
          NoNextChild(all, xs, toks, room);
          return None;
        }
        ListGrows(all, xs, k.value, toks, Left());
        if Scans(toks, d) {
          ScansBehind(toks, k.value, Left(), d);
        }
        xs := xs + [k.value];
        Skip();
      }
    }
  }

  /**
    The reader as compile_tree calls it: one node, then nothing but white space. On every text that
    passes the bracket scan, accepted or not, its calls nest at most 129 deep.
   */
  method Read(ir: string, maxNodes: nat) returns (x: Option<Tree>, ghost deepest: nat)
    ensures Safe(Climb(Lex(ir, C_SPACE), 0, 0)) ==> deepest <= MAX_DEPTH + 1
    ensures forall t :: x == Some(t) <==> Accepts(ir, t, maxNodes)
  {
    var q := new Parser(ir, maxNodes);
    assert ir[0..] == ir;
    ghost var toks := q.Left();
    x := q.ParseNode(0);
    deepest := q.deepest;
    if x.None? {
      forall t | Accepts(ir, t, maxNodes)
        ensures false
      {
        assert Flatten(t) + [] == Flatten(t);
        assert StartsWith(toks, t, []);
      }
      return;
    }
    ghost var left := q.Left();
    q.Skip();
    forall t | Accepts(ir, t, maxNodes)
      ensures t == x.value && left == []
    {
      FlattenPrefixFree(t, x.value, [], left);
    }
    if q.p != |ir| {
      assert q.Left() != [];
      x := None;
      return;
    }
    assert left == [];
  }
}
