/** The growable, always terminated, bounded text buffer every output is written into. */
module Buffer {

  const SIZE_MAX: nat := 0xFFFF_FFFF_FFFF_FFFF
  const INITIAL: nat := 256
  /** The largest capacity that doubling can reach from INITIAL without wrapping. */
  const TOP: nat := 0x8000_0000_0000_0000

  function Pow2(k: nat): (r: nat)
    ensures r >= 1
  {
    if k == 0 then 1 else 2 * Pow2(k - 1)
  }

  lemma {:induction false} Pow2Eight(k: nat)
    ensures Pow2(k + 8) == 256 * Pow2(k)
  {
    assert Pow2(k + 3) == 2 * Pow2(k + 2) == 4 * Pow2(k + 1) == 8 * Pow2(k);
    assert Pow2(k + 6) == 2 * Pow2(k + 5) == 4 * Pow2(k + 4) == 8 * Pow2(k + 3);
    assert Pow2(k + 8) == 2 * Pow2(k + 7) == 4 * Pow2(k + 6);
  }

  lemma {:induction false} TopIsPower()
    ensures INITIAL * Pow2(55) == TOP
  {
    Pow2Eight(0); Pow2Eight(8); Pow2Eight(16); Pow2Eight(24); Pow2Eight(32); Pow2Eight(40);
    assert Pow2(55) == 2 * Pow2(54) == 4 * Pow2(53) == 8 * Pow2(52) == 16 * Pow2(51);
    assert Pow2(51) == 2 * Pow2(50) == 4 * Pow2(49) == 8 * Pow2(48);
  }

  lemma {:induction false} Pow2Monotone(j: nat, k: nat)
    requires j <= k
    ensures Pow2(j) <= Pow2(k)
  {
    if j < k {
      Pow2Monotone(j, k - 1);
    }
  }

  /** The loop that doubles a capacity until it is enough, or until one more step would wrap. */
  method Doubled(from: nat, need: nat, ghost d: nat) returns (cap: nat, ghost k: nat)
    requires from == INITIAL * Pow2(d) && from < need && from <= TOP
    ensures from <= cap < 2 * need && cap == INITIAL * Pow2(k) && cap <= TOP && cap >= from
    ensures cap >= need <==> need <= TOP
    ensures cap >= need ==> cap >= 2 * from
  {
    TopIsPower();
    cap, k := from, d;
    while cap < need
      invariant from <= cap < 2 * need && cap == INITIAL * Pow2(k) && cap <= TOP
      invariant cap > from ==> cap >= 2 * from
    {
      if cap > SIZE_MAX / 2 {
        return;
      }
      if k >= 55 {
        Pow2Monotone(55, k);
      } else {
        Pow2Monotone(k + 1, 55);
      }
      cap := cap * 2;
      k := k + 1;
    }
  }

  class Buf {
    var s: array<char>
    var n: nat
    ghost var text: string       // the contents
    const limit: nat             // max_sql_bytes
    ghost var doublings: nat
    ghost var moved: nat         // characters copied by reallocations so far

    ghost predicate Valid()
      reads this, s
    {
      && n < s.Length && s[n] == '\0' && text == s[..n]
      && s.Length == INITIAL * Pow2(doublings) && s.Length <= TOP
      && moved + INITIAL <= s.Length
      && (s.Length == INITIAL || s.Length < 2 * (n + 1))
    }

    /** The most characters, terminator included, that a buffer with this limit can hold. */
    function Ceiling(): nat {
      if limit < TOP then limit else TOP
    }

    constructor (limit: nat)
      ensures Valid() && fresh(s) && text == "" && this.limit == limit
    {
      s := new char[INITIAL](_ => '\0');
      n, text, this.limit, doublings, moved := 0, "", limit, 0, 0;
    }

    /** Makes room for add characters and the terminator, doubling the array until it does. */
    method Need(add: nat) returns (ok: bool)
      requires Valid()
      modifies this`s, this`doublings, this`moved
      ensures ok <==> n + add + 1 <= Ceiling()
      ensures s == old(s) || fresh(s)
      ensures n < s.Length && s[n] == '\0' && text == s[..n]
      ensures s.Length == INITIAL * Pow2(doublings) && s.Length <= TOP && moved + INITIAL <= s.Length
      ensures ok ==> n + add < s.Length
      ensures s.Length == old(s.Length) || s.Length < 2 * (n + add + 1)
      ensures !ok ==> Valid() && s == old(s)
    {
      if add > SIZE_MAX - n || n + add == SIZE_MAX || n + add + 1 > limit {
        return false;
      }
      var need := n + add + 1;
      if need <= s.Length {
        return true;
      }
      var cap;
      ghost var k;
      cap, k := Doubled(s.Length, need, doublings);
      if cap < need {
        return false;
      }
      var t := new char[cap](_ => '\0');
      forall i | 0 <= i < s.Length {
        t[i] := s[i];
      }
      moved := moved + s.Length;
      doublings := k;
      s := t;
      return true;
    }

    method Put(t: string) returns (ok: bool)
      requires Valid()
      modifies this, s
      ensures Valid() && (s == old(s) || fresh(s))
      ensures ok <==> |old(text)| + |t| + 1 <= Ceiling()
      ensures text == if ok then old(text) + t else old(text)
    {
      ok := Need(|t|);
      if ok {
        forall i | 0 <= i < |t| {
          s[n + i] := t[i];
        }
        s[n + |t|] := '\0';
        n := n + |t|;
        text := text + t;
      }
    }

    method Ch(c: char) returns (ok: bool)
      requires Valid()
      modifies this, s
      ensures Valid() && (s == old(s) || fresh(s))
      ensures ok <==> |old(text)| + 2 <= Ceiling()
      ensures text == if ok then old(text) + [c] else old(text)
    {
      ok := Need(1);
      if ok {
        s[n] := c;
        n := n + 1;
        s[n] := '\0';
        text := text + [c];
      }
    }
  }
}
