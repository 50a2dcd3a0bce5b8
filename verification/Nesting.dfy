/** The bracket scan that runs before the recursive reader, and the recursion depth it buys. */
module Nesting {
  import opened Wrappers
  import opened Sexpr
  import opened Brackets
  import Reader

  /** How many calls deep a walk that visits every node of the tree goes. */
  function WalkDepth(t: Tree): nat
    decreases t, 0
  {
    match t
    case Atom(_) => 1
    case Node(ks) => 1 + WalkDepthAll(ks)
  }

  function WalkDepthAll(ts: seq<Tree>): nat
    decreases ts, 1
  {
    if ts == [] then 0 else Max(WalkDepth(ts[0]), WalkDepthAll(ts[1..]))
  }

  /** One character further, the counters move as the scan moves them. */
  lemma {:induction false} ClimbChar(s: string, i: nat, d: nat, m: nat)
    requires i < |s|
    ensures var here, next := Lex(s[i..], C_SPACE), Lex(s[i + 1..], C_SPACE);
            Climb(here, d, m) ==
            if s[i] == '(' then if d + 1 > MAX_DEPTH then None else Climb(next, d + 1, Max(m, d + 1))
            else if s[i] == ')' then if d == 0 then None else Climb(next, d - 1, m)
            else Climb(next, d, m)
  {
    Reader.LexStep(s, i, C_SPACE);
    if WordChar(s[i], C_SPACE) {
      var e := i + WordLen(s[i..], C_SPACE);
      assert WordLen(s[i..], C_SPACE) > 0;
      assert forall k :: i <= k < e ==> s[k] == s[i..][k - i];
      assert e < |s| ==> s[e] == s[i..][e - i];
      Reader.LexWord(s, i, e, C_SPACE);
      if i + 1 < e {
        Reader.LexWord(s, i + 1, e, C_SPACE);
      }
    }
  }

  /** On the text of a tree the scan measures exactly the tree's height. */
  lemma {:induction false} SafeIffHeight(ir: string, t: Tree)
    requires Lex(ir, C_SPACE) == Flatten(t)
    ensures Safe(Climb(Lex(ir, C_SPACE), 0, 0)) <==> 1 <= Height(t) <= MAX_DEPTH
  {
    assert Flatten(t) + [] == Flatten(t);
    ClimbTree(t, [], 0, 0);
  }

  lemma {:induction false} WalkBound(t: Tree)
    ensures WalkDepth(t) <= Height(t) + 1
    decreases t, 0
  {
    if t.Node? {
      WalkBoundAll(t.kids);
    }
  }

  lemma {:induction false} WalkBoundAll(ts: seq<Tree>)
    ensures WalkDepthAll(ts) <= HeightAll(ts) + 1
    decreases ts, 1
  {
    if ts != [] {
      WalkBound(ts[0]);
      WalkBoundAll(ts[1..]);
    }
  }

  /** So no walk over an accepted tree, the reader's own included, is more than 129 calls deep. */
  lemma {:induction false} ScanBoundsRecursion(ir: string, t: Tree, maxNodes: nat)
    requires Reader.Accepts(ir, t, maxNodes) && Safe(Climb(Lex(ir, C_SPACE), 0, 0))
    ensures t.Node? && WalkDepth(t) <= MAX_DEPTH + 1
  {
    SafeIffHeight(ir, t);
    WalkBound(t);
  }

  method NestingSafe(s: string) returns (ok: bool)
    ensures ok <==> Safe(Climb(Lex(s, C_SPACE), 0, 0))
  {
    var depth, max: nat := 0, 0;
    var i := 0;
    assert s[0..] == s;
    while i < |s|
      invariant 0 <= i <= |s|
      invariant Climb(Lex(s, C_SPACE), 0, 0) == Climb(Lex(s[i..], C_SPACE), depth, max)
    {
      ClimbChar(s, i, depth, max);
      if s[i] == '(' {
        depth := depth + 1;
        if depth > MAX_DEPTH {
          return false;
        }
        if depth > max {
          max := depth;
        }
      } else if s[i] == ')' {
        if depth == 0 {
          return false;
        }
        depth := depth - 1;
      }
      i := i + 1;
    }
    return depth == 0 && max > 0;
  }
}
