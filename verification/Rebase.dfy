/**
  The linker's pass over finished SQL text: every numbered placeholder is moved up by the number
  of parameters that come before it. The pass knows nothing but characters.
 */
module Rebase {
  import opened Wrappers
  import opened Decimal
  import opened Sql
  import opened Buffer

  const WORD: nat := 0x1_0000_0000_0000_0000

  /** unsigned long arithmetic. */
  function Wrap(n: nat): nat { n % WORD }

  predicate Numbered(d: Dialect) { d.Postgres? || d.DuckDb? || d.SqlServer? }

  datatype Start = Plain | Hole(digits: string, rest: string)

  /** What s starts with: a placeholder, given by its digits and what follows it, or neither. */
  function StartOf(s: string, d: Dialect): (r: Start)
    ensures r.Hole? ==>
              && d != MySql && s == Mark(d) + r.digits + r.rest
              && r.digits != "" && AllDigits(r.digits)
              && (r.rest == "" || !IsDigit(r.rest[0]))
  {
    if d == MySql || !IsPrefix(Mark(d), s) then Plain
    else
      var t := s[|Mark(d)|..];
      var n := DigitLen(t);
      if n == 0 then Plain else
        assert s == Mark(d) + t[..n] + t[n..];
        Hole(t[..n], t[n..])
  }

  /** The digits whose value is taken: the ?n branch steps over the first one. */
  function Taken(digits: string, d: Dialect): (r: string)
    requires digits != "" && AllDigits(digits)
    ensures AllDigits(r)
  {
    if d == Sqlite then digits[1..] else digits
  }

  /** The placeholder written for one with these digits. */
  function MovedHole(digits: string, d: Dialect, k: nat): string
    requires digits != "" && AllDigits(digits)
  {
    Mark(d) + Dec(Wrap(Num(Taken(digits, d)) + k))
  }

  function Rebased(s: string, d: Dialect, k: nat): string
    decreases |s|
  {
    if s == "" then ""
    else match StartOf(s, d)
      case Hole(digits, rest) => MovedHole(digits, d, k) + Rebased(rest, d, k)
      case Plain => [s[0]] + Rebased(s[1..], d, k)
  }

  // ---- laws for any text at all ----

  lemma {:induction false} RebasedHead(s: string, d: Dialect, k: nat)
    ensures Rebased(s, d, k) == "" <==> s == ""
    ensures s != "" ==> Rebased(s, d, k)[0] == s[0]
  {
  }

  /** A mark, a run of digits and something else is a placeholder. */
  lemma {:induction false} StartsWithHole(x: string, rest: string, d: Dialect)
    requires d != MySql && x != "" && AllDigits(x) && (rest == "" || !IsDigit(rest[0]))
    ensures StartOf(Mark(d) + x + rest, d) == Hole(x, rest)
  {
    var s := Mark(d) + x + rest;
    assert s[..|Mark(d)|] == Mark(d) && s[|Mark(d)|..] == x + rest;
    DigitLenAppend(x, rest);
    assert (x + rest)[..|x|] == x && (x + rest)[|x|..] == rest;
  }

  lemma {:induction false} RebaseHole(x: string, rest: string, d: Dialect, k: nat)
    requires d != MySql && x != "" && AllDigits(x) && (rest == "" || !IsDigit(rest[0]))
    ensures Rebased(Mark(d) + x + rest, d, k) == MovedHole(x, d, k) + Rebased(rest, d, k)
  {
    StartsWithHole(x, rest, d);
  }

  /** No placeholder appears where there was none. */
  lemma {:induction false} NoNewHole(s: string, d: Dialect, k: nat)
    requires s != "" && StartOf(s, d).Plain?
    ensures StartOf(Rebased(s, d, k), d).Plain?
  {
    var r, m := Rebased(s, d, k), Mark(d);
    if d != MySql && IsPrefix(m, r) {
      RebasedHead(s[1..], d, k);
      assert r[0] == s[0] && r[1..] == Rebased(s[1..], d, k);
      if |m| == 1 {
        assert s[..1] == m;
      } else {
        NoNewLongHole(s, k);
      }
    }
  }

  /** The same where the mark has two characters. */
  lemma {:induction false} NoNewLongHole(s: string, k: nat)
    requires s != "" && StartOf(s, SqlServer).Plain? && IsPrefix("@p", Rebased(s, SqlServer, k))
    ensures StartOf(Rebased(s, SqlServer, k), SqlServer).Plain?
  {
    var r := Rebased(s, SqlServer, k);
    LongHead(s, k);
    assert s[0..] == s && r[0..] == r;
    StartAt(s, 0, SqlServer);
    StartAt(r, 0, SqlServer);
  }

  /** Two characters that are no placeholder stay, and so does what kind of character follows. */
  lemma {:induction false} LongHead(s: string, k: nat)
    requires s != "" && StartOf(s, SqlServer).Plain? && IsPrefix("@p", Rebased(s, SqlServer, k))
    ensures var r := Rebased(s, SqlServer, k); |s| >= 2 && s[..2] == "@p" && (|r| > 2 ==> |s| > 2 && r[2] == s[2])
  {
    var r := Rebased(s, SqlServer, k);
    RebasedHead(s[1..], SqlServer, k);
    assert r[0] == s[0] && r[1..] == Rebased(s[1..], SqlServer, k) && r[..2][1] == 'p' && r[..2][0] == '@';
    assert s[1] == 'p';
    NoHole(s[1..], SqlServer);
    RebasedHead(s[2..], SqlServer, k);
    assert s[1..][1..] == s[2..];
    assert r[2..] == Rebased(s[2..], SqlServer, k);
  }

  lemma {:induction false} WrapTwice(v: nat, k: nat, m: nat)
    ensures Wrap(Wrap(v + k) + m) == Wrap(v + (k + m))
  {
  }

  lemma {:induction false} MovedIs(x: string, d: Dialect, k: nat)
    requires Numbered(d) && x != "" && AllDigits(x)
    ensures MovedHole(x, d, k) == Mark(d) + Dec(Wrap(Num(x) + k))
  {
  }

  lemma {:induction false} MovedTwice(x: string, d: Dialect, k: nat, m: nat)
    requires Numbered(d) && x != "" && AllDigits(x)
    ensures MovedHole(Dec(Wrap(Num(x) + k)), d, m) == MovedHole(x, d, k + m)
  {
    MovedNumeral(Num(x), d, k, m);
    MovedIs(x, d, k + m);
  }

  lemma {:induction false} MovedNumeral(n: nat, d: Dialect, k: nat, m: nat)
    requires Numbered(d)
    ensures MovedHole(Dec(Wrap(n + k)), d, m) == Mark(d) + Dec(Wrap(n + (k + m)))
  {
    MovedDec(Wrap(n + k), d, m);
    WrapTwice(n, k, m);
  }

  lemma {:induction false} MovedDec(v: nat, d: Dialect, m: nat)
    requires Numbered(d)
    ensures MovedHole(Dec(v), d, m) == Mark(d) + Dec(Wrap(v + m))
  {
    MovedIs(Dec(v), d, m);
  }

  /** Moving by k and then by m is moving by k + m, overflow included, for every text. */
  lemma {:induction false} RebaseTwice(s: string, d: Dialect, k: nat, m: nat)
    requires Numbered(d)
    ensures Rebased(Rebased(s, d, k), d, m) == Rebased(s, d, k + m)
    decreases |s|
  {
    if s != "" {
      match StartOf(s, d)
      case Hole(x, rest) =>
        RebaseTwice(rest, d, k, m);
        HoleTwice(x, rest, d, k, m);
        assert Rebased(s, d, k) == MovedHole(x, d, k) + Rebased(rest, d, k);
      case Plain =>
        RebaseTwice(s[1..], d, k, m);
        PlainTwice(s, d, k, m);
    }
  }

  lemma {:induction false} HoleTwice(x: string, rest: string, d: Dialect, k: nat, m: nat)
    requires Numbered(d) && x != "" && AllDigits(x) && (rest == "" || !IsDigit(rest[0]))
    ensures Rebased(MovedHole(x, d, k) + Rebased(rest, d, k), d, m)
            == MovedHole(x, d, k + m) + Rebased(Rebased(rest, d, k), d, m)
  {
    RebasedHead(rest, d, k);
    MovedIs(x, d, k);
    MovedTwice(x, d, k, m);
    SameHole(MovedHole(x, d, k), MovedHole(x, d, k + m), Wrap(Num(x) + k), Rebased(rest, d, k), d, m);
  }

  lemma {:induction false} SameHole(hole: string, moved: string, v: nat, rest: string, d: Dialect, m: nat)
    requires Numbered(d) && (rest == "" || !IsDigit(rest[0]))
    requires hole == Mark(d) + Dec(v) && moved == MovedHole(Dec(v), d, m)
    ensures Rebased(hole + rest, d, m) == moved + Rebased(rest, d, m)
  {
    NumeralHole(v, rest, d, m);
  }

  lemma {:induction false} NumeralHole(v: nat, rest: string, d: Dialect, m: nat)
    requires Numbered(d) && (rest == "" || !IsDigit(rest[0]))
    ensures Rebased(Mark(d) + Dec(v) + rest, d, m) == MovedHole(Dec(v), d, m) + Rebased(rest, d, m)
  {
    RebaseHole(Dec(v), rest, d, m);
  }

  lemma {:induction false} PlainTwice(s: string, d: Dialect, k: nat, m: nat)
    requires s != "" && StartOf(s, d).Plain?
    ensures Rebased(Rebased(s, d, k), d, m) == [s[0]] + Rebased(Rebased(s[1..], d, k), d, m)
  {
    NoNewHole(s, d, k);
    var r := Rebased(s, d, k);
    assert r[1..] == Rebased(s[1..], d, k) && r[0] == s[0];
  }

  // ---- emitted text ----

  /** Where the pass puts a placeholder n. */
  function NewIndex(n: nat, d: Dialect, k: nat): nat {
    Wrap(Num(Taken(Dec(n), d)) + k)
  }

  function Moved(ps: seq<Piece>, d: Dialect, k: nat): (r: seq<Piece>)
    ensures |r| == |ps|
  {
    seq(|ps|, i requires 0 <= i < |ps| =>
      if ps[i].Ph? && d != MySql then Ph(NewIndex(ps[i].n, d, k)) else ps[i])
  }

  lemma {:induction false} MovedGood(ps: seq<Piece>, d: Dialect, k: nat)
    requires Good(ps)
    ensures Good(Moved(ps, d, k))
  {
    var r := Moved(ps, d, k);
    forall i | 0 <= i < |r|
      ensures ValidPiece(r[i])
    {
      assert ValidPiece(ps[i]);
    }
    forall i | 0 <= i < |r| - 1
      ensures Tight(r[i], r[i + 1])
    {
      assert Tight(ps[i], ps[i + 1]);
    }
  }

  predicate NoMark(s: string, d: Dialect) {
    forall i :: 0 <= i < |s| ==> s[i] != Mark(d)[0]
  }

  lemma {:induction false} NoHole(s: string, d: Dialect)
    requires s != "" && s[0] != Mark(d)[0]
    ensures StartOf(s, d).Plain?
  {
    var m := Mark(d);
    if |m| <= |s| {
      assert s[..|m|][0] == s[0];
    }
  }

  /** Text without the mark's first character is copied. */
  lemma {:induction false} CopyPlain(a: string, b: string, d: Dialect, k: nat)
    requires NoMark(a, d)
    ensures Rebased(a + b, d, k) == a + Rebased(b, d, k)
  {
    if a == "" {
      assert a + b == b;
    } else {
      Uncons(a, b);
      NoHole(a + b, d);
      CopyPlain(a[1..], b, d, k);
      Cat([a[0]], a[1..], Rebased(b, d, k));
      assert [a[0]] + a[1..] == a;
    }
  }

  lemma {:induction false} PlainPiece(p: Piece, d: Dialect)
    requires ValidPiece(p) && !p.Ph?
    ensures d != MySql ==> NoMark(SpellOne(p, d), d)
  {
  }

  lemma {:induction false} CopyAll(s: string, k: nat)
    ensures Rebased(s, MySql, k) == s
  {
    if s != "" {
      CopyAll(s[1..], k);
    }
  }

  /** On emitted text the pass rewrites the placeholders and touches nothing else. */
  lemma {:induction false} RebasePieces(ps: seq<Piece>, d: Dialect, k: nat)
    requires Good(ps)
    ensures Rebased(Spell(ps, d), d, k) == Spell(Moved(ps, d, k), d)
  {
    if d == MySql {
      CopyAll(Spell(ps, d), k);
      assert Moved(ps, d, k) == ps;
    } else if ps != [] {
      var p, rest := ps[0], ps[1..];
      assert ValidPiece(p) && (rest != [] ==> Tight(ps[0], ps[1]));
      assert Good(rest) by {
        assert forall i :: 0 <= i < |rest| ==> rest[i] == ps[i + 1];
      }
      RebasePieces(rest, d, k);
      MovedCons(ps, d, k);
      RebaseFirst(p, rest, d, k);
    }
  }

  lemma {:induction false} MovedCons(ps: seq<Piece>, d: Dialect, k: nat)
    requires ps != []
    ensures var q := if ps[0].Ph? && d != MySql then Ph(NewIndex(ps[0].n, d, k)) else ps[0];
            Spell(Moved(ps, d, k), d) == SpellOne(q, d) + Spell(Moved(ps[1..], d, k), d)
  {
    MovedTail(ps, d, k);
  }

  lemma {:induction false} MovedTail(ps: seq<Piece>, d: Dialect, k: nat)
    requires ps != []
    ensures Moved(ps, d, k)[1..] == Moved(ps[1..], d, k)
  {
  }

  lemma {:induction false} RebaseFirst(p: Piece, rest: seq<Piece>, d: Dialect, k: nat)
    requires d != MySql && ValidPiece(p) && Good(rest) && (rest == [] || Tight(p, rest[0]))
    ensures var q := if p.Ph? then Ph(NewIndex(p.n, d, k)) else p;
            Rebased(SpellOne(p, d) + Spell(rest, d), d, k) == SpellOne(q, d) + Rebased(Spell(rest, d), d, k)
  {
    var y := Spell(rest, d);
    if rest != [] {
      FirstChar(rest, d);
    }
    if p.Ph? {
      MovePlaceholder(p.n, y, d, k);
    } else {
      CopyPiece(p, y, d, k);
    }
  }

  lemma {:induction false} MovePlaceholder(n: nat, y: string, d: Dialect, k: nat)
    requires d != MySql && (y == "" || !IsDigit(y[0]))
    ensures Rebased(SpellOne(Ph(n), d) + y, d, k) == SpellOne(Ph(NewIndex(n, d, k)), d) + Rebased(y, d, k)
  {
    RebaseHole(Dec(n), y, d, k);
  }

  lemma {:induction false} CopyPiece(p: Piece, y: string, d: Dialect, k: nat)
    requires d != MySql && ValidPiece(p) && !p.Ph?
    ensures Rebased(SpellOne(p, d) + y, d, k) == SpellOne(p, d) + Rebased(y, d, k)
  {
    PlainPiece(p, d);
    CopyPlain(SpellOne(p, d), y, d, k);
  }

  /** $n and @pn move by k. */
  lemma {:induction false} NumberedMoves(n: nat, d: Dialect, k: nat)
    requires Numbered(d) && n + k < WORD
    ensures NewIndex(n, d, k) == n + k
  {
  }

  /** Moving emitted text by nothing changes nothing; text with a numeral like $01 it would change. */
  lemma {:induction false} RebaseByZero(ps: seq<Piece>, d: Dialect)
    requires Good(ps) && Numbered(d) && forall i :: 0 <= i < |ps| && ps[i].Ph? ==> ps[i].n < WORD
    ensures Rebased(Spell(ps, d), d, 0) == Spell(ps, d)
  {
    RebasePieces(ps, d, 0);
    forall i | 0 <= i < |ps|
      ensures Moved(ps, d, 0)[i] == ps[i]
    {
      if ps[i].Ph? {
        NumberedMoves(ps[i].n, d, 0);
      }
    }
    assert Moved(ps, d, 0) == ps;
  }

  lemma {:induction false} TailIsSmaller(s: string)
    requires s != "" && AllDigits(s) && s[0] != '0'
    ensures Num(Taken(s, Sqlite)) < Num(s)
  {
    if |s| == 1 {
      assert s[1..] == "" && s[..0] == "";
      assert DigitValue(s[0]) > 0;
    } else {
      var t := s[..|s| - 1];
      TailIsSmaller(t);
      assert s[1..][..|s| - 2] == t[1..];
    }
  }

  /** A ?n placeholder is moved by k only if it is ?0, which the emitter never writes. */
  lemma {:induction false} SqliteMovesOnlyZero(n: nat, k: nat)
    requires n + k < WORD
    ensures NewIndex(n, Sqlite, k) == n + k <==> n == 0
  {
    if n == 0 {
      assert Dec(0) == "0" && "0"[1..] == "";
    } else {
      TailIsSmaller(Dec(n));
    }
  }

  // ---- the loops ----

  lemma {:induction false} NumSnoc(s: string, c: char)
    requires AllDigits(s) && IsDigit(c)
    ensures AllDigits(s + [c]) && Num(s + [c]) == 10 * Num(s) + DigitValue(c)
  {
    assert (s + [c])[..|s|] == s;
  }

  lemma {:induction false} WrapDigit(a: nat, v: nat)
    ensures Wrap(10 * Wrap(a) + v) == Wrap(10 * a + v)
  {
    var q, r := a / WORD, a % WORD;
    assert 10 * a + v == (10 * r + v) + WORD * (10 * q);
  }

  /** while (isdigit(s[++i])) n = n * 10 + digit */
  method ScanDigits(s: string, from: nat) returns (n: nat, i: nat)
    requires from <= |s|
    ensures from <= i <= |s| && AllDigits(s[from..i]) && (i < |s| ==> !IsDigit(s[i]))
    ensures n == Wrap(Num(s[from..i]))
  {
    n, i := 0, from;
    while i < |s| && IsDigit(s[i])
      invariant from <= i <= |s| && AllDigits(s[from..i])
      invariant n == Wrap(Num(s[from..i]))
    {
      assert s[from..i + 1] == s[from..i] + [s[i]];
      NumSnoc(s[from..i], s[i]);
      WrapDigit(Num(s[from..i]), DigitValue(s[i]));
      n := Wrap(n * 10 + DigitValue(s[i]));
      i := i + 1;
    }
  }

  lemma {:induction false} WrapOnce(v: nat, k: nat)
    ensures Wrap(Wrap(v) + k) == Wrap(v + k)
  {
  }

  lemma {:induction false} StartAt(s: string, i: nat, d: Dialect)
    requires i < |s|
    ensures var m := i + |Mark(d)|;
            StartOf(s[i..], d).Hole? <==> d != MySql && m < |s| && s[i..m] == Mark(d) && IsDigit(s[m])
  {
    var m := i + |Mark(d)|;
    if m <= |s| {
      assert s[i..][..|Mark(d)|] == s[i..m];
      assert s[i..][|Mark(d)|..] == s[m..];
    }
  }

  lemma {:induction false} HoleAt(s: string, i: nat, m: nat, j: nat, d: Dialect, k: nat)
    requires d != MySql && i + |Mark(d)| == m < j <= |s| && s[i..m] == Mark(d)
    requires AllDigits(s[m..j]) && (j < |s| ==> !IsDigit(s[j]))
    ensures Rebased(s[i..], d, k) == MovedHole(s[m..j], d, k) + Rebased(s[j..], d, k)
  {
    assert s[i..] == Mark(d) + s[m..j] + s[j..];
    RebaseHole(s[m..j], s[j..], d, k);
  }

  /** One digit and the digits after it: what is taken of them is worth n. */
  lemma {:induction false} TakenIs(s: string, m: nat, from: nat, j: nat, d: Dialect)
    requires from == m + (if d == Sqlite then 1 else 0) <= j <= |s| && m < |s| && IsDigit(s[m])
    requires AllDigits(s[from..j]) && (j < |s| ==> !IsDigit(s[j]))
    ensures m < j && AllDigits(s[m..j]) && Taken(s[m..j], d) == s[from..j]
  {
    assert m != j;
    assert s[m..j] == [s[m]] + s[m + 1..j];
    assert d != Sqlite ==> s[m] == s[from..j][0];
  }

  /** The number written for the placeholder at position i, and where the text goes on. */
  method MoveHole(s: string, i: nat, d: Dialect, offset: nat) returns (t: string, j: nat)
    requires d != MySql && i + |Mark(d)| < |s| && s[i..i + |Mark(d)|] == Mark(d) && IsDigit(s[i + |Mark(d)|])
    ensures i < j <= |s| && Rebased(s[i..], d, offset) == t + Rebased(s[j..], d, offset)
  {
    var m := i + |Mark(d)|;
    var from := m + if d == Sqlite then 1 else 0;
    var n;
    n, j := ScanDigits(s, from);
    TakenIs(s, m, from, j, d);
    WrapOnce(Num(s[from..j]), offset);
    t := Mark(d) + Dec(Wrap(n + offset));
    assert t == MovedHole(s[m..j], d, offset);
    HoleAt(s, i, m, j, d, offset);
  }

  /** What the pass writes next, and where it goes on. */
  method Next(s: string, i: nat, d: Dialect, offset: nat) returns (t: string, j: nat)
    requires i < |s|
    ensures i < j <= |s| && Rebased(s[i..], d, offset) == t + Rebased(s[j..], d, offset)
  {
    var m := i + |Mark(d)|;
    if d != MySql && m < |s| && s[i..m] == Mark(d) && IsDigit(s[m]) {
      t, j := MoveHole(s, i, d, offset);
    } else {
      StartAt(s, i, d);
      assert s[i..][1..] == s[i + 1..];
      t, j := [s[i]], i + 1;
    }
  }

  /** Appends s with its placeholders moved by offset; fails only when the result does not fit. */
  method AppendRebased(b: Buf, s: string, d: Dialect, offset: nat) returns (ok: bool)
    requires b.Valid()
    modifies b, b.s
    ensures b.Valid() && (b.s == old(b.s) || fresh(b.s))
    ensures ok <==> s == "" || |old(b.text)| + |Rebased(s, d, offset)| + 1 <= b.Ceiling()
    ensures ok ==> b.text == old(b.text) + Rebased(s, d, offset)
  {
    var i := 0;
    ghost var whole, rest := b.text + Rebased(s, d, offset), Rebased(s, d, offset);
    Whole(s);
    while i < |s|
      invariant 0 <= i <= |s|
      invariant b.Valid() && (b.s == old(b.s) || fresh(b.s))
      invariant rest == Rebased(s[i..], d, offset) && b.text + rest == whole
      invariant i > 0 ==> |b.text| + 1 <= b.Ceiling()
    {
      var t, j := Next(s, i, d, offset);
      Cat(b.text, t, Rebased(s[j..], d, offset));
      rest := Rebased(s[j..], d, offset);
      ok := b.Put(t);
      if !ok { return; }
      i := j;
    }
    Finished(s, b.text, d, offset);
    return true;
  }

  lemma {:induction false} Whole(s: string)
    ensures s[0..] == s
  {
  }

  lemma {:induction false} Finished(s: string, a: string, d: Dialect, k: nat)
    ensures a + Rebased(s[|s|..], d, k) == a
  {
  }
}
