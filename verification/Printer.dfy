/** Canonical text: what both printers write for a tree, and why reading it gives the tree back. */
module Printer {
  import opened Wrappers
  import opened Sexpr
  import opened Buffer
  import Reader

  function Canon(t: Tree): string
    decreases t, 0
  {
    match t
    case Atom(w) => w
    case Node(ks) => "(" + CanonAll(ks) + ")"
  }

  /** Siblings are separated by one space. */
  function CanonAll(ts: seq<Tree>): string
    decreases ts, 1
  {
    if ts == [] then ""
    else if |ts| == 1 then Canon(ts[0])
    else Canon(ts[0]) + " " + CanonAll(ts[1..])
  }

  predicate PrintableWord(w: string, ws: set<char>) {
    w != "" && forall i :: 0 <= i < |w| ==> WordChar(w[i], ws)
  }

  predicate Printable(t: Tree, ws: set<char>) {
    match t
    case Atom(w) => PrintableWord(w, ws)
    case Node(ks) => forall k :: k in ks ==> Printable(k, ws)
  }

  /** Text that cannot prolong a word to its left. */
  predicate Stops(rest: string, ws: set<char>) {
    rest == "" || !WordChar(rest[0], ws)
  }

  lemma {:induction false} LexCanon(t: Tree, rest: string, ws: set<char>)
    requires Printable(t, ws) && Stops(rest, ws) && ' ' in ws && '(' !in ws && ')' !in ws
    ensures Lex(Canon(t) + rest, ws) == Flatten(t) + Lex(rest, ws)
    decreases t, 0
  {
    var s := Canon(t) + rest;
    match t
    case Atom(w) =>
      assert s[0..] == s && s[0..|w|] == w && s[|w|..] == rest;
      Reader.LexWord(s, 0, |w|, ws);
    case Node(ks) =>
      var tail := ")" + rest;
      assert s == "(" + (CanonAll(ks) + tail);
      assert s[0] == '(' && s[1..] == CanonAll(ks) + tail;
      LexCanonAll(ks, tail, ws);
      assert tail[1..] == rest;
      var a, b := FlattenAll(ks), Lex(rest, ws);
      assert [Open] + (a + ([Close] + b)) == ([Open] + a + [Close]) + b;
  }

  lemma {:induction false} LexCanonAll(ts: seq<Tree>, rest: string, ws: set<char>)
    requires forall k :: k in ts ==> Printable(k, ws)
    requires Stops(rest, ws) && ' ' in ws && '(' !in ws && ')' !in ws
    ensures Lex(CanonAll(ts) + rest, ws) == FlattenAll(ts) + Lex(rest, ws)
    decreases ts, 1
  {
    if ts == [] {
      assert CanonAll(ts) + rest == rest;
    } else {
      var t, us := ts[0], ts[1..];
      assert forall k :: k in us ==> k in ts;
      var a, b, c := Flatten(t), FlattenAll(us), Lex(rest, ws);
      assert a + (b + c) == (a + b) + c;
      if us == [] {
        LexCanon(t, rest, ws);
      } else {
        var tail := " " + (CanonAll(us) + rest);
        assert CanonAll(ts) + rest == Canon(t) + tail;
        LexCanon(t, tail, ws);
        assert tail[1..] == CanonAll(us) + rest;
        LexCanonAll(us, rest, ws);
      }
    }
  }

  /** Printing then reading: every tree comes back from its own canonical text. */
  lemma {:induction false} CanonDenotes(t: Tree, ws: set<char>)
    requires Printable(t, ws) && ' ' in ws && '(' !in ws && ')' !in ws
    ensures Lex(Canon(t), ws) == Flatten(t)
  {
    LexCanon(t, "", ws);
    assert Canon(t) + "" == Canon(t);
  }

  lemma {:induction false} CanonInjective(t: Tree, u: Tree)
    requires Printable(t, C_SPACE) && Printable(u, C_SPACE) && Canon(t) == Canon(u)
    ensures t == u
  {
    CanonDenotes(t, C_SPACE);
    CanonDenotes(u, C_SPACE);
    FlattenInjective(t, u);
  }

  lemma {:induction false} LexPrintable(s: string, ws: set<char>)
    ensures forall x :: x in Lex(s, ws) && x.Word? ==> PrintableWord(x.text, ws)
    decreases |s|
  {
    if s != [] {
      var n := WordLen(s, ws);
      LexPrintable(s[1..], ws);
      if n > 0 {
        LexPrintable(s[n..], ws);
        assert PrintableWord(s[..n], ws);
      }
    }
  }

  lemma {:induction false} FlattenPrintable(t: Tree, ws: set<char>)
    requires forall x :: x in Flatten(t) && x.Word? ==> PrintableWord(x.text, ws)
    ensures Printable(t, ws)
    decreases t, 0
  {
    match t
    case Atom(w) => assert Word(w) in Flatten(t);
    case Node(ks) =>
      assert forall x :: x in FlattenAll(ks) ==> x in Flatten(t);
      FlattenAllPrintable(ks, ws);
  }

  lemma {:induction false} FlattenAllPrintable(ts: seq<Tree>, ws: set<char>)
    requires forall x :: x in FlattenAll(ts) && x.Word? ==> PrintableWord(x.text, ws)
    ensures forall k :: k in ts ==> Printable(k, ws)
    decreases ts, 1
  {
    if ts != [] {
      assert forall x :: x in Flatten(ts[0]) ==> x in FlattenAll(ts);
      assert forall x :: x in FlattenAll(ts[1..]) ==> x in FlattenAll(ts);
      FlattenPrintable(ts[0], ws);
      FlattenAllPrintable(ts[1..], ws);
    }
  }

  /**
    Canonical IR is accepted as the tree it was printed from, passes the bracket scan exactly
    when the original text does, and prints as itself.
   */
  lemma {:induction false} CanonicalIrIsStable(ir: string, t: Tree, maxNodes: nat)
    requires Reader.Accepts(ir, t, maxNodes)
    ensures Reader.Accepts(Canon(t), t, maxNodes)
    ensures Lex(Canon(t), C_SPACE) == Lex(ir, C_SPACE)
    ensures forall u :: Reader.Accepts(Canon(t), u, maxNodes) ==> Canon(u) == Canon(t)
  {
    LexPrintable(ir, C_SPACE);
    FlattenPrintable(t, C_SPACE);
    CanonDenotes(t, C_SPACE);
    forall u | Reader.Accepts(Canon(t), u, maxNodes)
      ensures u == t
    {
      FlattenInjective(u, t);
    }
  }

  /** Texts with the same tokens, whatever their white space, have the same canonical IR. */
  lemma {:induction false} SameTokensSameIr(ir: string, jr: string, t: Tree, u: Tree, maxNodes: nat)
    requires Reader.Accepts(ir, t, maxNodes) && Reader.Accepts(jr, u, maxNodes)
    ensures Lex(ir, C_SPACE) == Lex(jr, C_SPACE) <==> Canon(t) == Canon(u)
  {
    CanonicalIrIsStable(ir, t, maxNodes);
    CanonicalIrIsStable(jr, u, maxNodes);
    if Lex(ir, C_SPACE) == Lex(jr, C_SPACE) {
      FlattenInjective(t, u);
    }
  }

  /** The C printer has no text for a list without children. */
  predicate NoEmptyList(t: Tree) {
    match t
    case Atom(_) => true
    case Node(ks) => ks != [] && forall k :: k in ks ==> NoEmptyList(k)
  }

  lemma {:induction false} CanonAllTake(ts: seq<Tree>, i: nat)
    requires i < |ts|
    ensures CanonAll(ts[..i + 1]) ==
            (if i == 0 then "" else CanonAll(ts[..i]) + " ") + Canon(ts[i])
    decreases i
  {
    if i == 0 {
      assert ts[..1] == [ts[0]];
    } else {
      CanonAllTake(ts[1..], i - 1);
      assert ts[..i + 1][1..] == ts[1..][..i] && ts[..i][1..] == ts[1..][..i - 1];
      assert ts[..i + 1][0] == ts[..i][0] == ts[0];
      assert ts[1..][i - 1] == ts[i];
      if i == 1 {
        assert ts[..1] == [ts[0]];
      }
    }
  }

  lemma {:induction false} CanonAllLength(ts: seq<Tree>, i: nat)
    requires i < |ts|
    ensures |CanonAll(ts[..i + 1])| <= |CanonAll(ts)|
    decreases |ts| - i
  {
    if i + 1 < |ts| {
      CanonAllTake(ts, i + 1);
      CanonAllLength(ts, i + 1);
    } else {
      assert ts[..i + 1] == ts;
    }
  }

  /** One more sibling on the text, and how much is still to come. */
  lemma {:induction false} NextSibling(head: string, ts: seq<Tree>, i: nat)
    requires i < |ts|
    ensures var sep := if i == 0 then "" else " ";
            head + CanonAll(ts[..i]) + sep + Canon(ts[i]) == head + CanonAll(ts[..i + 1])
    ensures |CanonAll(ts[..i])| + (if i == 0 then 0 else 1) + |Canon(ts[i])| <= |CanonAll(ts)|
  {
    CanonAllTake(ts, i);
    CanonAllLength(ts, i);
  }

  // ---- empty lists ----

  /** What the printer has written when it comes to the first empty list, for which it has no text. */
  function Written(t: Tree): string
    decreases t, 0
  {
    match t
    case Atom(w) => w
    case Node(ks) => if ks == [] then "" else "(" + WrittenAll(ks)
  }

  function WrittenAll(ts: seq<Tree>): string
    decreases ts, 1
  {
    if ts == [] then ""
    else if NoEmptyList(ts[0]) then Canon(ts[0]) + " " + WrittenAll(ts[1..])
    else Written(ts[0])
  }

  lemma {:induction false} WrittenAt(ts: seq<Tree>, i: nat)
    requires i < |ts| && !NoEmptyList(ts[i]) && forall k :: 0 <= k < i ==> NoEmptyList(ts[k])
    ensures WrittenAll(ts) == CanonAll(ts[..i]) + (if i == 0 then "" else " ") + Written(ts[i])
  {
    if i == 0 {
      assert ts[..0] == [];
    } else {
      var us := ts[1..];
      assert forall k :: 0 <= k < i - 1 ==> us[k] == ts[k + 1];
      WrittenAt(us, i - 1);
      assert ts[..i][0] == ts[0] && ts[..i][1..] == us[..i - 1];
    }
  }

  /** The text up to a sibling is part of what is written before a later empty list. */
  lemma {:induction false} WrittenLater(ts: seq<Tree>, i: nat, j: nat)
    requires i < j < |ts| && !NoEmptyList(ts[j]) && forall k :: 0 <= k <= i ==> NoEmptyList(ts[k])
    ensures |CanonAll(ts[..i + 1])| <= |WrittenAll(ts)|
  {
    var us := ts[1..];
    if i == 0 {
      assert ts[..1] == [ts[0]];
    } else {
      assert forall k :: 0 <= k < |us| ==> us[k] == ts[k + 1];
      WrittenLater(us, i - 1, j - 1);
      assert ts[..i + 1][0] == ts[0] && ts[..i + 1][1..] == us[..i];
    }
  }

  /** Undefined where the C code has nothing to print and looks for it all the same. */
  datatype Print = Done | Full | Undefined

  predicate Room(b: string, more: string, ceiling: nat) { |b| + |more| + 1 <= ceiling }

  /**
    Done, with the canonical text appended, exactly when there is no empty list and the text fits;
    undefined exactly when everything before the first empty list fits.
   */
  method CanonicalNode(b: Buf, x: Tree) returns (r: Print)
    requires b.Valid() && (x == Node([]) ==> Room(b.text, "", b.Ceiling()))
    modifies b, b.s
    ensures b.Valid() && (b.s == old(b.s) || fresh(b.s))
    ensures r.Done? <==> NoEmptyList(x) && Room(old(b.text), Canon(x), b.Ceiling())
    ensures r.Undefined? <==> !NoEmptyList(x) && Room(old(b.text), Written(x), b.Ceiling())
    ensures r.Done? ==> b.text == old(b.text) + Canon(x)
    decreases x, 2
  {
    if x.Node? && x.kids == [] {
      return Undefined;
    }
    var ok;
    if x.Atom? {
      ok := b.Put(x.text);
      return if ok then Done else Full;
    }
    InBrackets(b.text, CanonAll(x.kids));
    Opened(b.text, WrittenAll(x.kids));
    ok := b.Ch('(');
    if !ok { return Full; }
    r := Siblings(b, x);
    if r.Done? {
      ok := b.Ch(')');
      if !ok { return Full; }
    }
  }

  lemma {:induction false} InBrackets(head: string, inner: string)
    ensures head + "(" + inner + ")" == head + ("(" + inner + ")")
    ensures |head| + |"(" + inner + ")"| == |head + "(" + inner + ")"|
  {
  }

  lemma {:induction false} Opened(head: string, inner: string)
    ensures |head + "("| + |inner| == |head| + |"(" + inner|
  {
  }

  /** The loop over the children. */
  method Siblings(b: Buf, x: Tree) returns (r: Print)
    requires b.Valid() && x.Node? && x.kids != [] && Room(b.text, "", b.Ceiling())
    modifies b, b.s
    ensures b.Valid() && (b.s == old(b.s) || fresh(b.s))
    ensures r.Done? <==> NoEmptyList(x) && Room(old(b.text), CanonAll(x.kids), b.Ceiling())
    ensures r.Undefined? <==> !NoEmptyList(x) && Room(old(b.text), WrittenAll(x.kids), b.Ceiling())
    ensures r.Done? ==> b.text == old(b.text) + CanonAll(x.kids)
    decreases x, 1
  {
    ghost var head := b.text;
    var i := 0;
    while i < |x.kids|
      invariant 0 <= i <= |x.kids|
      invariant b.Valid() && (b.s == old(b.s) || fresh(b.s))
      invariant forall k :: 0 <= k < i ==> NoEmptyList(x.kids[k])
      invariant b.text == head + CanonAll(x.kids[..i])
      invariant Room(b.text, "", b.Ceiling())
    {
      ghost var before := b.text;
      NextSibling(head, x.kids, i);
      r := Sibling(b, x, i);
      if !r.Done? {
        Stopped(head, x, i, before, r, b.Ceiling());
        return;
      }
      i := i + 1;
    }
    assert x.kids[..i] == x.kids;
    r := Done;
  }

  /** Where the loop stops, the whole list stops. */
  lemma {:induction false} Stopped(head: string, x: Tree, i: nat, before: string, r: Print, ceiling: nat)
    requires x.Node? && i < |x.kids| && !r.Done? && forall k :: 0 <= k < i ==> NoEmptyList(x.kids[k])
    requires before == head + CanonAll(x.kids[..i])
    requires var sep := if i == 0 then "" else " ";
             && !(NoEmptyList(x.kids[i]) && Room(before, sep + Canon(x.kids[i]), ceiling))
             && (r.Undefined? <==> !NoEmptyList(x.kids[i]) && Room(before, sep + Written(x.kids[i]), ceiling))
    ensures !(NoEmptyList(x) && Room(head, CanonAll(x.kids), ceiling))
    ensures r.Undefined? <==> !NoEmptyList(x) && Room(head, WrittenAll(x.kids), ceiling)
  {
    assert x.kids[i] in x.kids;
    NextSibling(head, x.kids, i);
    if !NoEmptyList(x.kids[i]) {
      WrittenAt(x.kids, i);
    } else if !NoEmptyList(x) {
      var k :| k in x.kids && !NoEmptyList(k);
      var j :| 0 <= j < |x.kids| && x.kids[j] == k;
      WrittenLater(x.kids, i, j);
    }
  }

  /** The body of the loop over the children. */
  method Sibling(b: Buf, x: Tree, i: nat) returns (r: Print)
    requires x.Node? && i < |x.kids|
    requires b.Valid() && Room(b.text, "", b.Ceiling())
    modifies b, b.s
    ensures b.Valid() && (b.s == old(b.s) || fresh(b.s))
    ensures var sep := if i == 0 then "" else " ";
            && (r.Done? <==> NoEmptyList(x.kids[i]) && Room(old(b.text), sep + Canon(x.kids[i]), b.Ceiling()))
            && (r.Undefined? <==> !NoEmptyList(x.kids[i]) && Room(old(b.text), sep + Written(x.kids[i]), b.Ceiling()))
            && (r.Done? ==> b.text == old(b.text) + sep + Canon(x.kids[i]))
    decreases x, 0
  {
    assert x.kids[i] in x.kids;
    if i > 0 {
      var ok := b.Ch(' ');
      if !ok { return Full; }
    }
    r := CanonicalNode(b, x.kids[i]);
  }
}
