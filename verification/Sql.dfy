/**
  SQL text. The emitter writes pieces: identifiers, placeholders, keywords, symbols and single
  spaces. The database reads tokens. LexPieces says that it reads back the pieces written.
 */
module Sql {
  import opened Wrappers
  import opened Decimal

  datatype Dialect = Postgres | Sqlite | DuckDb | MySql | SqlServer

  predicate IsLetter(c: char) { 'a' <= c <= 'z' || 'A' <= c <= 'Z' }
  predicate IsWordChar(c: char) { IsLetter(c) || IsDigit(c) || c == '_' }

  const NAME: nat := 128

  /** What ident accepts: a short non-empty run of letters, digits and underscores. */
  predicate Ident(s: string) {
    0 < |s| < NAME && forall i :: 0 <= i < |s| ==> IsWordChar(s[i])
  }

  function OpenQuote(d: Dialect): char {
    match d case MySql => '`' case SqlServer => '[' case _ => '\"'
  }

  function CloseQuote(d: Dialect): char {
    match d case SqlServer => ']' case _ => OpenQuote(d)
  }

  /** The mark that precedes the number of a placeholder; MySQL has no numbers. */
  function Mark(d: Dialect): string {
    match d case SqlServer => "@p" case Sqlite => "?" case MySql => "?" case _ => "$"
  }

  datatype Piece = Sp | W(word: string) | S(sym: string) | Id(name: string) | Ph(n: nat)

  function SpellOne(p: Piece, d: Dialect): string {
    match p
    case Sp => " "
    case W(w) => w
    case S(s) => s
    case Id(x) => [OpenQuote(d)] + x + [CloseQuote(d)]
    case Ph(n) => if d == MySql then "?" else Mark(d) + Dec(n)
  }

  function Spell(ps: seq<Piece>, d: Dialect): string {
    if ps == [] then "" else SpellOne(ps[0], d) + Spell(ps[1..], d)
  }

  lemma {:induction false} SpellAppend(a: seq<Piece>, b: seq<Piece>, d: Dialect)
    ensures Spell(a + b, d) == Spell(a, d) + Spell(b, d)
  {
    if a == [] {
      assert a + b == b;
    } else {
      SpellAppend(a[1..], b, d);
      Uncons(a, b);
      Cat(SpellOne(a[0], d), Spell(a[1..], d), Spell(b, d));
    }
  }

  lemma {:induction false} OnePiece(a: Piece, d: Dialect)
    ensures Spell([a], d) == SpellOne(a, d)
  {
    assert [a][1..] == [] && SpellOne(a, d) + "" == SpellOne(a, d);
  }

  lemma {:induction false} SpellWord(a: Piece, b: Piece, c: Piece, d: Dialect)
    ensures Spell([a], d) == SpellOne(a, d) && Spell([a, b], d) == SpellOne(a, d) + SpellOne(b, d)
    ensures Spell([a, b, c], d) == SpellOne(a, d) + SpellOne(b, d) + SpellOne(c, d)
  {
    OnePiece(a, d);
    OnePiece(b, d);
    OnePiece(c, d);
    assert [a, b][1..] == [b] && [a, b, c][1..] == [b, c] && [b, c][1..] == [c];
    assert SpellOne(a, d) + (SpellOne(b, d) + SpellOne(c, d)) == SpellOne(a, d) + SpellOne(b, d) + SpellOne(c, d);
  }

  lemma {:induction false} FramedText(a: seq<Piece>, m: seq<Piece>, z: seq<Piece>, d: Dialect)
    ensures Spell(a + m + z, d) == Spell(a, d) + Spell(m, d) + Spell(z, d)
  {
    SpellAppend(a, m, d);
    SpellAppend(a + m, z, d);
  }

  // ---- tokens ----

  datatype Tok = TWord(w: string) | TSym(s: string) | TId(name: string) | TPar(n: nat) | TBad(c: char)

  function ToksOne(p: Piece, d: Dialect): seq<Tok> {
    match p
    case Sp => []
    case W(w) => [TWord(w)]
    case S(s) => [TSym(s)]
    case Id(x) => [TId(x)]
    case Ph(n) => [TPar(if d == MySql then 0 else n)]
  }

  function Toks(ps: seq<Piece>, d: Dialect): seq<Tok> {
    if ps == [] then [] else ToksOne(ps[0], d) + Toks(ps[1..], d)
  }

  lemma {:induction false} ToksAppend(a: seq<Piece>, b: seq<Piece>, d: Dialect)
    ensures Toks(a + b, d) == Toks(a, d) + Toks(b, d)
  {
    if a == [] {
      assert a + b == b;
    } else {
      ToksAppend(a[1..], b, d);
      Uncons(a, b);
      Cat(ToksOne(a[0], d), Toks(a[1..], d), Toks(b, d));
    }
  }

  function WordRun(s: string): (n: nat)
    ensures n <= |s|
  {
    if s == "" || !IsWordChar(s[0]) then 0 else 1 + WordRun(s[1..])
  }

  lemma {:induction false} WordRunAppend(w: string, rest: string)
    requires forall i :: 0 <= i < |w| ==> IsWordChar(w[i])
    requires rest == "" || !IsWordChar(rest[0])
    ensures WordRun(w + rest) == |w|
  {
    if w == "" {
      assert w + rest == rest;
    } else {
      assert (w + rest)[1..] == w[1..] + rest;
      WordRunAppend(w[1..], rest);
    }
  }

  /** Position of the first c in s, or |s|. */
  function Find(s: string, c: char): (n: nat)
    ensures n <= |s|
  {
    if s == "" || s[0] == c then 0 else 1 + Find(s[1..], c)
  }

  lemma {:induction false} FindAppend(w: string, c: char, rest: string)
    requires forall i :: 0 <= i < |w| ==> w[i] != c
    ensures Find(w + [c] + rest, c) == |w|
  {
    if w != "" {
      assert (w + [c] + rest)[1..] == w[1..] + [c] + rest;
      FindAppend(w[1..], c, rest);
    } else {
      assert w + [c] + rest == [c] + rest;
    }
  }

  predicate IsPrefix(p: string, s: string) { |p| <= |s| && s[..|p|] == p }

  /** The mark m and a number at the start of s: the length of both and the number. */
  function MarkedNumber(m: string, s: string): (r: (nat, nat))
    ensures r.0 <= |s|
  {
    if !IsPrefix(m, s) then (0, 0)
    else
      var digits := s[|m|..];
      var n := DigitLen(digits);
      if n == 0 then (0, 0) else (|m| + n, Num(digits[..n]))
  }

  /** The quotes and the placeholder mark of each database, as its own lexer has them. */
  function QuotePair(d: Dialect): (char, char) {
    match d
    case Postgres => ('\"', '\"')
    case Sqlite => ('\"', '\"')
    case DuckDb => ('\"', '\"')
    case MySql => ('`', '`')
    case SqlServer => ('[', ']')
  }

  function NumberMark(d: Dialect): string {
    match d
    case Postgres => "$"
    case DuckDb => "$"
    case Sqlite => "?"
    case SqlServer => "@p"
    case MySql => "?"
  }

  /** A placeholder at the start of s: its length in characters and its number. */
  function Placeholder(s: string, d: Dialect): (r: (nat, nat))
    ensures r.0 <= |s|
  {
    if d == MySql then (if IsPrefix("?", s) then (1, 0) else (0, 0)) else MarkedNumber(NumberMark(d), s)
  }

  const PUNCT: seq<string> := ["(", ")", ",", "."]
  const OPERATORS: seq<string> := ["=", "<>", "<=", ">=", "<", ">", "+", "-", "*", "/"]

  /** Length of the symbol at the start of s; comment openers are no symbols. */
  function SymbolLen(s: string): nat {
    if s == "" then 0
    else if IsPrefix("--", s) || IsPrefix("/*", s) then 0
    else if |s| >= 2 && s[..2] in OPERATORS then 2
    else if s[..1] in PUNCT || s[..1] in OPERATORS then 1
    else 0
  }

  /** The database's view of a text; a doubled closing quote and anything unknown is TBad. */
  function LexSql(s: string, d: Dialect): seq<Tok>
    decreases |s|
  {
    if s == "" then []
    else if s[0] == ' ' then LexSql(s[1..], d)
    else if IsWordChar(s[0]) then
      var n := WordRun(s);
      [TWord(s[..n])] + LexSql(s[n..], d)
    else if s[0] == QuotePair(d).0 then
      var n := Find(s[1..], QuotePair(d).1);
      if n == |s| - 1 || (n + 2 < |s| && s[n + 2] == QuotePair(d).1) then [TBad(s[0])] + LexSql(s[1..], d)
      else [TId(s[1..n + 1])] + LexSql(s[n + 2..], d)
    else if Placeholder(s, d).0 > 0 then
      var (n, k) := Placeholder(s, d);
      [TPar(k)] + LexSql(s[n..], d)
    else if SymbolLen(s) > 0 then
      [TSym(s[..SymbolLen(s)])] + LexSql(s[SymbolLen(s)..], d)
    else [TBad(s[0])] + LexSql(s[1..], d)
  }

  // ---- what may stand next to what ----

  predicate ValidPiece(p: Piece) {
    match p
    case Sp => true
    case W(w) => w != "" && forall i :: 0 <= i < |w| ==> IsWordChar(w[i])
    case S(s) => s in PUNCT || s in OPERATORS
    case Id(x) => Ident(x)
    case Ph(_) => true
  }

  /** q may follow p without changing how p is read. */
  predicate Tight(p: Piece, q: Piece) {
    match p
    case Sp => true
    case W(_) => !q.W?
    case Ph(_) => !q.W?
    case Id(_) => !q.Id?
    case S(s) => s in PUNCT || q.Sp?
  }

  predicate Good(ps: seq<Piece>) {
    && (forall i :: 0 <= i < |ps| ==> ValidPiece(ps[i]))
    && (forall i :: 0 <= i < |ps| - 1 ==> Tight(ps[i], ps[i + 1]))
  }

  lemma {:induction false} SymbolAlone(s: string, rest: string)
    requires s in PUNCT || (s in OPERATORS && (rest == "" || rest[0] == ' '))
    ensures s != "" && SymbolLen(s + rest) == |s|
    ensures s[0] != ' ' && !IsWordChar(s[0]) && s[0] !in "\"`[$@?"
  {
    var t := s + rest;
    assert t[..|s|] == s;
    if |t| >= 2 {
      assert t[..2] == [t[0], t[1]];
    }
  }

  lemma {:induction false} PlaceholderAlone(m: string, n: nat, rest: string)
    requires rest == "" || !IsDigit(rest[0])
    ensures MarkedNumber(m, m + Dec(n) + rest) == (|m + Dec(n)|, n)
  {
    var s := m + Dec(n) + rest;
    assert s[..|m|] == m && s[|m|..] == Dec(n) + rest;
    NumeralAlone(n, rest);
  }

  lemma {:induction false} NumeralAlone(n: nat, rest: string)
    requires rest == "" || !IsDigit(rest[0])
    ensures var k := DigitLen(Dec(n) + rest); k == |Dec(n)| > 0 && (Dec(n) + rest)[..k] == Dec(n) && Num(Dec(n)) == n
  {
    DigitLenAppend(Dec(n), rest);
  }

  /** How the spelling of a good list of pieces can begin. */
  lemma {:induction false} FirstChar(ps: seq<Piece>, d: Dialect)
    requires Good(ps) && ps != []
    ensures var s := Spell(ps, d);
            && s != ""
            && (ps[0].Sp? ==> s[0] == ' ')
            && (!ps[0].W? ==> !IsWordChar(s[0]))
            && (!ps[0].Id? ==> s[0] != OpenQuote(d) && s[0] != CloseQuote(d))
  {
    assert ValidPiece(ps[0]);
  }

  lemma {:induction false} LexWord(w: string, y: string, d: Dialect)
    requires w != "" && (forall i :: 0 <= i < |w| ==> IsWordChar(w[i]))
    requires y == "" || !IsWordChar(y[0])
    ensures LexSql(w + y, d) == [TWord(w)] + LexSql(y, d)
  {
    var s := w + y;
    assert s[0] == w[0];
    WordRunAppend(w, y);
    assert s[..|w|] == w && s[|w|..] == y;
  }

  lemma {:induction false} NoPlaceholder(s: string, d: Dialect)
    requires s != "" && s[0] !in "$@?"
    ensures Placeholder(s, d) == (0, 0)
  {
    var m := Mark(d);
    assert m[0] in "$@?";
    assert |m| <= |s| ==> s[..|m|][0] == s[0];
  }

  lemma {:induction false} LexSymbol(sym: string, y: string, d: Dialect)
    requires sym in PUNCT || (sym in OPERATORS && (y == "" || y[0] == ' '))
    ensures LexSql(sym + y, d) == [TSym(sym)] + LexSql(y, d)
  {
    var s := sym + y;
    SymbolAlone(sym, y);
    assert s[0] == sym[0];
    assert s[..|sym|] == sym && s[|sym|..] == y;
    NoPlaceholder(s, d);
  }

  lemma {:induction false} LexIdent(x: string, y: string, d: Dialect)
    requires Ident(x) && (y == "" || y[0] != CloseQuote(d))
    ensures LexSql([OpenQuote(d)] + x + [CloseQuote(d)] + y, d) == [TId(x)] + LexSql(y, d)
  {
    var s := [OpenQuote(d)] + x + [CloseQuote(d)] + y;
    var n := |x|;
    assert s[1..] == x + [CloseQuote(d)] + y;
    assert !IsWordChar(CloseQuote(d)) && !IsWordChar(OpenQuote(d)) && OpenQuote(d) != ' ';
    FindAppend(x, CloseQuote(d), y);
    assert s[1..n + 1] == x && s[n + 2..] == y;
    assert n + 2 < |s| ==> s[n + 2] == y[0];
    assert |s| == n + 2 + |y|;
  }

  lemma {:induction false} LexPlaceholder(n: nat, y: string, d: Dialect)
    requires y == "" || !IsDigit(y[0])
    ensures LexSql(SpellOne(Ph(n), d) + y, d) == [TPar(if d == MySql then 0 else n)] + LexSql(y, d)
  {
    var x := SpellOne(Ph(n), d);
    var s := x + y;
    assert s[|x|..] == y;
    if d == MySql {
      assert s[..1] == "?";
    } else {
      PlaceholderAlone(Mark(d), n, y);
      assert s[0] == Mark(d)[0];
    }
  }

  lemma {:induction false} LexOne(p: Piece, rest: seq<Piece>, d: Dialect)
    requires Good([p] + rest)
    ensures LexSql(SpellOne(p, d) + Spell(rest, d), d) == ToksOne(p, d) + LexSql(Spell(rest, d), d)
  {
    var y, ps := Spell(rest, d), [p] + rest;
    assert ValidPiece(ps[0]);
    if rest != [] {
      assert Tight(ps[0], ps[1]);
      assert forall i :: 0 <= i < |rest| ==> rest[i] == ps[i + 1];
      FirstChar(rest, d);
    }
    match p
    case Sp => assert (" " + y)[1..] == y;
    case W(w) => LexWord(w, y, d);
    case S(sym) => LexSymbol(sym, y, d);
    case Id(name) => LexIdent(name, y, d);
    case Ph(n) => LexPlaceholder(n, y, d);
  }

  /** The database reads back exactly the pieces that were written. */
  lemma {:induction false} LexPieces(ps: seq<Piece>, d: Dialect)
    requires Good(ps)
    ensures LexSql(Spell(ps, d), d) == Toks(ps, d)
  {
    if ps != [] {
      assert [ps[0]] + ps[1..] == ps;
      LexOne(ps[0], ps[1..], d);
      LexPieces(ps[1..], d);
    }
  }
}
