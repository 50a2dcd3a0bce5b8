/** The bracket scan on tokens: what it counts, and what it finds over a whole tree. */
module Brackets {
  import opened Wrappers
  import opened Sexpr

  const MAX_DEPTH: nat := 128

  function Max(a: nat, b: nat): nat {
    if a < b then b else a
  }

  /** How deeply lists are nested in a tree. */
  function Height(t: Tree): nat
    decreases t, 0
  {
    match t
    case Atom(_) => 0
    case Node(ks) => 1 + HeightAll(ks)
  }

  function HeightAll(ts: seq<Tree>): nat
    decreases ts, 1
  {
    if ts == [] then 0 else Max(Height(ts[0]), HeightAll(ts[1..]))
  }

  /** The counters (depth, max) of the scan after toks, or None where the scan gives up. */
  function Climb(toks: seq<Token>, depth: nat, max: nat): Option<(nat, nat)> {
    if toks == [] then Some((depth, max))
    else match toks[0]
      case Word(_) => Climb(toks[1..], depth, max)
      case Open =>
        if depth + 1 > MAX_DEPTH then None else Climb(toks[1..], depth + 1, Max(max, depth + 1))
      case Close =>
        if depth == 0 then None else Climb(toks[1..], depth - 1, max)
  }

  predicate Safe(end: Option<(nat, nat)>) {
    end.Some? && end.value.0 == 0 && end.value.1 > 0
  }

  /** Over a whole tree the scan comes back to the same depth, having peaked by its height. */
  lemma {:induction false} ClimbTree(t: Tree, rest: seq<Token>, d: nat, m: nat)
    requires d <= m && d <= MAX_DEPTH
    ensures Climb(Flatten(t) + rest, d, m) ==
            if d + Height(t) <= MAX_DEPTH then Climb(rest, d, Max(m, d + Height(t))) else None
    decreases t, 0
  {
    var all := Flatten(t) + rest;
    assert all[0] == Flatten(t)[0];
    match t
    case Atom(_) =>
      assert all[1..] == rest;
    case Node(ks) =>
      var tail := [Close] + rest;
      assert all[1..] == FlattenAll(ks) + tail;
      if d + 1 <= MAX_DEPTH {
        ClimbAll(ks, tail, d + 1, Max(m, d + 1));
        assert tail[1..] == rest;
      }
  }

  lemma {:induction false} ClimbAll(ts: seq<Tree>, rest: seq<Token>, d: nat, m: nat)
    requires d <= m && d <= MAX_DEPTH
    ensures Climb(FlattenAll(ts) + rest, d, m) ==
            if d + HeightAll(ts) <= MAX_DEPTH then Climb(rest, d, Max(m, d + HeightAll(ts))) else None
    decreases ts, 1
  {
    if ts == [] {
      assert FlattenAll(ts) + rest == rest;
    } else {
      var more := FlattenAll(ts[1..]) + rest;
      assert FlattenAll(ts) + rest == Flatten(ts[0]) + more;
      ClimbTree(ts[0], more, d, m);
      if d + Height(ts[0]) <= MAX_DEPTH {
        ClimbAll(ts[1..], rest, d, Max(m, d + Height(ts[0])));
      }
    }
  }

  /** Whether the scan gives up does not depend on the maximum so far. */
  lemma {:induction false} ClimbAnyMax(toks: seq<Token>, d: nat, m: nat, n: nat)
    ensures Climb(toks, d, m).Some? == Climb(toks, d, n).Some?
  {
    if toks != [] {
      match toks[0]
      case Word(_) => ClimbAnyMax(toks[1..], d, m, n);
      case Open => ClimbAnyMax(toks[1..], d + 1, Max(m, d + 1), Max(n, d + 1));
      case Close => if d > 0 { ClimbAnyMax(toks[1..], d - 1, m, n); }
    }
  }

  /** At depth d the scan goes on through the rest of the text. */
  ghost predicate Scans(toks: seq<Token>, d: nat) { d <= MAX_DEPTH && Climb(toks, d, d).Some? }

  /** Past an opening bracket it goes on one level deeper, so that level is within the bound. */
  lemma {:induction false} ScansInside(toks: seq<Token>, rest: seq<Token>, d: nat)
    requires Scans(toks, d) && toks == [Open] + rest
    ensures Scans(rest, d + 1)
  {
    assert toks[1..] == rest;
    ClimbAnyMax(rest, d + 1, Max(d, d + 1), d + 1);
  }

  /** Past a whole tree it goes on at the same depth. */
  lemma {:induction false} ScansBehind(toks: seq<Token>, t: Tree, rest: seq<Token>, d: nat)
    requires Scans(toks, d) && toks == Flatten(t) + rest
    ensures Scans(rest, d)
  {
    ClimbTree(t, rest, d, d);
    ClimbAnyMax(rest, d, Max(d, d + Height(t)), d);
  }
}
