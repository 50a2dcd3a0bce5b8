/**
  The S-expression language that the C reader and the Python reader share.

  The meaning of a text is its token sequence, and the meaning of a tree is its bracket
  sequence Flatten. A text denotes a tree exactly when the two sequences are equal;
  FlattenPrefixFree makes that tree unique.
 */
module Sexpr {
  import opened Wrappers

  datatype Token = Open | Close | Word(text: string)

  /** A node of the tree: an atom, or a list of children. */
  datatype Tree = Atom(text: string) | Node(kids: seq<Tree>)

  /** What isspace accepts in the C locale. */
  const C_SPACE: set<char> := {' ', '\t', '\n', '\U{0B}', '\U{0C}', '\r'}

  /** What the regular expression class \s accepts on a Python string. */
  const PY_SPACE: set<char> :=
    C_SPACE + {'\U{1C}', '\U{1D}', '\U{1E}', '\U{1F}', '\U{85}', '\U{A0}', '\U{1680}',
               '\U{2000}', '\U{2001}', '\U{2002}', '\U{2003}', '\U{2004}', '\U{2005}', '\U{2006}',
               '\U{2007}', '\U{2008}', '\U{2009}', '\U{200A}', '\U{2028}', '\U{2029}', '\U{202F}',
               '\U{205F}', '\U{3000}'}

  predicate WordChar(c: char, ws: set<char>) {
    c !in ws && c != '(' && c != ')'
  }

  /** Length of the longest prefix made of word characters. */
  function WordLen(s: string, ws: set<char>): (n: nat)
    ensures n <= |s|
    ensures forall i :: 0 <= i < n ==> WordChar(s[i], ws)
    ensures n < |s| ==> !WordChar(s[n], ws)
  {
    if s == [] || !WordChar(s[0], ws) then 0 else 1 + WordLen(s[1..], ws)
  }

  function Lex(s: string, ws: set<char>): seq<Token>
    decreases |s|
  {
    if s == [] then []
    else if s[0] in ws then Lex(s[1..], ws)
    else if s[0] == '(' then [Open] + Lex(s[1..], ws)
    else if s[0] == ')' then [Close] + Lex(s[1..], ws)
    else
      var n := WordLen(s, ws);
      [Word(s[..n])] + Lex(s[n..], ws)
  }

  function Flatten(t: Tree): (r: seq<Token>)
    ensures r != [] && r[0] != Close
    decreases t, 0
  {
    match t
    case Atom(w) => [Word(w)]
    case Node(ks) => [Open] + FlattenAll(ks) + [Close]
  }

  function FlattenAll(ts: seq<Tree>): (r: seq<Token>)
    ensures r != [] ==> r[0] != Close
    ensures r == [] <==> ts == []
    decreases ts, 1
  {
    if ts == [] then [] else Flatten(ts[0]) + FlattenAll(ts[1..])
  }

  function Size(t: Tree): (n: nat)
    ensures n >= 1
    decreases t, 0
  {
    match t
    case Atom(_) => 1
    case Node(ks) => 1 + SizeAll(ks)
  }

  function SizeAll(ts: seq<Tree>): nat
    decreases ts, 1
  {
    if ts == [] then 0 else Size(ts[0]) + SizeAll(ts[1..])
  }

  const MAX_CHILDREN: nat := 64
  const NAME: nat := 128

  /** The C reader's limits on a single node, at every node of the tree. */
  predicate Fits(t: Tree) {
    match t
    case Atom(w) => 0 < |w| < NAME
    case Node(ks) => |ks| <= MAX_CHILDREN && forall k :: k in ks ==> Fits(k)
  }

  /** The token sequence toks starts with the tree t and goes on with rest. */
  ghost predicate StartsWith(toks: seq<Token>, t: Tree, rest: seq<Token>) {
    toks == Flatten(t) + rest
  }

  lemma {:induction false} FlattenAllAppend(xs: seq<Tree>, ys: seq<Tree>)
    ensures FlattenAll(xs + ys) == FlattenAll(xs) + FlattenAll(ys)
    ensures SizeAll(xs + ys) == SizeAll(xs) + SizeAll(ys)
  {
    if xs == [] {
      assert xs + ys == ys;
    } else {
      FlattenAllAppend(xs[1..], ys);
      Uncons(xs, ys);
      Cat(Flatten(xs[0]), FlattenAll(xs[1..]), FlattenAll(ys));
    }
  }

  /** No bracket sequence is a proper prefix of another one, and none stands for two trees. */
  lemma {:induction false} FlattenPrefixFree(t: Tree, u: Tree, r: seq<Token>, q: seq<Token>)
    requires Flatten(t) + r == Flatten(u) + q
    ensures t == u && r == q
    decreases t, 0
  {
    var all := Flatten(t) + r;
    assert all[0] == Flatten(t)[0] && all[0] == Flatten(u)[0];
    match t
    case Atom(_) =>
      assert r == all[1..] && q == all[1..];
    case Node(ks) =>
      var ls := u.kids;
      assert FlattenAll(ks) + ([Close] + r) == all[1..];
      assert FlattenAll(ls) + [Close] + q == all[1..];
      FlattenAllPrefix(ks, ls, [Close] + r, q);
      var more := FlattenAll(ls[|ks|..]);
      assert ([Close] + r)[0] == Close == (more + [Close] + q)[0];
      assert more == [];
      assert ls == ks;
      assert [] + [Close] + q == [Close] + q;
      assert r == ([Close] + r)[1..] && q == ([Close] + q)[1..];
  }

  /** Trees read so far from inside a list are the first children of that list. */
  lemma {:induction false} FlattenAllPrefix(xs: seq<Tree>, ys: seq<Tree>, r: seq<Token>, q: seq<Token>)
    requires FlattenAll(xs) + r == FlattenAll(ys) + [Close] + q
    ensures xs <= ys
    ensures r == FlattenAll(ys[|xs|..]) + [Close] + q
    decreases xs, 1
  {
    if xs == [] {
      assert ys[|xs|..] == ys;
    } else {
      var all := FlattenAll(xs) + r;
      assert all[0] == Flatten(xs[0])[0] != Close;
      if ys == [] {
        assert false;
      } else {
        var r' := FlattenAll(xs[1..]) + r;
        var q' := FlattenAll(ys[1..]) + [Close] + q;
        assert Flatten(xs[0]) + r' == all;
        assert Flatten(ys[0]) + q' == all;
        FlattenPrefixFree(xs[0], ys[0], r', q');
        FlattenAllPrefix(xs[1..], ys[1..], r, q);
        assert ys[1..][|xs| - 1..] == ys[|xs|..];
      }
    }
  }

  /** A text that denotes a tree denotes only that one. */
  lemma FlattenInjective(t: Tree, u: Tree)
    requires Flatten(t) == Flatten(u)
    ensures t == u
  {
    assert Flatten(t) + [] == Flatten(u) + [];
    FlattenPrefixFree(t, u, [], []);
  }
}
