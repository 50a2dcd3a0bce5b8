/** The Python reader: a token list and an explicit stack of unfinished lists. */
module PyReader {
  import opened Wrappers
  import opened Sexpr
  import Reader
  import Printer

  /** The tokens that led to a stack: one open bracket for every unfinished list. */
  ghost function Consumed(stack: seq<seq<Tree>>): seq<Token>
    requires stack != []
  {
    var n := |stack| - 1;
    if n == 0 then FlattenAll(stack[0])
    else Consumed(stack[..n]) + [Open] + FlattenAll(stack[n])
  }

  lemma {:induction false} PushChild(stack: seq<seq<Tree>>, k: Tree)
    requires stack != []
    ensures var n := |stack| - 1;
            Consumed(stack[n := stack[n] + [k]]) == Consumed(stack) + Flatten(k)
  {
    var n := |stack| - 1;
    var next := stack[n := stack[n] + [k]];
    FlattenAllAppend(stack[n], [k]);
    assert [k][1..] == [];
    assert FlattenAll([k]) == Flatten(k) + [] == Flatten(k);
    assert next[..n] == stack[..n];
    if n > 0 {
      var a, b, c := Consumed(stack[..n]) + [Open], FlattenAll(stack[n]), Flatten(k);
      assert a + (b + c) == (a + b) + c;
    }
  }

  lemma {:induction false} PopList(stack: seq<seq<Tree>>)
    requires |stack| > 1
    ensures var n := |stack| - 1;
            var below := stack[..n];
            Consumed(below[n - 1 := below[n - 1] + [Node(stack[n])]]) == Consumed(stack) + [Close]
  {
    var n := |stack| - 1;
    PushChild(stack[..n], Node(stack[n]));
    var a, b := Consumed(stack[..n]), FlattenAll(stack[n]);
    assert a + ([Open] + b + [Close]) == (a + [Open] + b) + [Close];
  }

  /** Unclosed brackets in a token sequence; negative where brackets are missing. */
  ghost function Balance(toks: seq<Token>): int {
    if toks == [] then 0
    else Balance(toks[1..]) + (match toks[0] case Open => 1 case Close => -1 case Word(_) => 0)
  }

  lemma {:induction false} BalanceAppend(a: seq<Token>, b: seq<Token>)
    ensures Balance(a + b) == Balance(a) + Balance(b)
  {
    if a == [] {
      assert a + b == b;
    } else {
      BalanceAppend(a[1..], b);
      assert (a + b)[1..] == a[1..] + b;
    }
  }

  lemma {:induction false} BalanceTree(t: Tree)
    ensures Balance(Flatten(t)) == 0
    decreases t, 0
  {
    match t
    case Atom(w) =>
      assert [Word(w)][1..] == [];
    case Node(ks) =>
      BalanceAll(ks);
      BalanceAppend([Open] + FlattenAll(ks), [Close]);
      BalanceAppend([Open], FlattenAll(ks));
      assert [Open][1..] == [] && [Close][1..] == [];
  }

  lemma {:induction false} BalanceAll(ts: seq<Tree>)
    ensures Balance(FlattenAll(ts)) == 0
    decreases ts, 1
  {
    if ts != [] {
      BalanceTree(ts[0]);
      BalanceAll(ts[1..]);
      BalanceAppend(Flatten(ts[0]), FlattenAll(ts[1..]));
    }
  }

  lemma {:induction false} BalanceConsumed(stack: seq<seq<Tree>>)
    requires stack != []
    ensures Balance(Consumed(stack)) == |stack| - 1
  {
    var n := |stack| - 1;
    BalanceAll(stack[n]);
    if n > 0 {
      BalanceConsumed(stack[..n]);
      BalanceAppend(Consumed(stack[..n]) + [Open], FlattenAll(stack[n]));
      BalanceAppend(Consumed(stack[..n]), [Open]);
      assert [Open][1..] == [];
    }
  }

  /** With no list open, a closing bracket cannot continue the text of a tree. */
  lemma {:induction false} StrayClose(xs: seq<Tree>, rest: seq<Token>, t: Tree)
    ensures FlattenAll(xs) + [Close] + rest != Flatten(t)
  {
    var toks := FlattenAll(xs) + [Close] + rest;
    if xs == [] {
      assert toks[0] == Close;
    } else {
      var more := FlattenAll(xs[1..]) + ([Close] + rest);
      assert toks == Flatten(xs[0]) + more;
      if toks == Flatten(t) {
        assert toks == Flatten(t) + [];
        FlattenPrefixFree(xs[0], t, more, []);
      }
    }
  }

  /** A stack that has consumed exactly one tree holds just that tree. */
  lemma {:induction false} FinishedStack(stack: seq<seq<Tree>>, t: Tree)
    requires stack != [] && Consumed(stack) == Flatten(t)
    ensures stack == [[t]]
  {
    BalanceConsumed(stack);
    BalanceTree(t);
    var xs := stack[0];
    assert FlattenAll(xs) == Flatten(t);
    assert Flatten(xs[0]) + FlattenAll(xs[1..]) == Flatten(t) + [];
    FlattenPrefixFree(xs[0], t, FlattenAll(xs[1..]), []);
    assert xs == [t];
  }

  /** What the Python reader accepts: any tree at all, of any size. */
  ghost predicate Denotes(text: string, t: Tree) {
    Lex(text, PY_SPACE) == Flatten(t)
  }

  method ParseSexpr(text: string) returns (r: Option<Tree>)
    ensures forall t :: r == Some(t) <==> Denotes(text, t)
  {
    var tokens := Lex(text, PY_SPACE);
    if tokens == [] {
      return None;
    }
    var stack: seq<seq<Tree>> := [[]];
    for i := 0 to |tokens|
      invariant stack != []
      invariant Consumed(stack) == tokens[..i]
    {
      OneToken(tokens, i);
      var n := |stack| - 1;
      match tokens[i]
      case Open =>
        OpenList(stack);
        stack := stack + [[]];
      case Close =>
        if |stack| <= 1 {
          forall t { StrayClose(stack[0], tokens[i + 1..], t); }
          return None;
        }
        PopList(stack);
        var below := stack[..n];
        stack := below[n - 1 := below[n - 1] + [Node(stack[n])]];
      case Word(w) =>
        PushChild(stack, Atom(w));
        stack := stack[n := stack[n] + [Atom(w)]];
    }
    assert tokens[..|tokens|] == tokens;
    WholeStack(stack);
    if |stack| != 1 || |stack[0]| != 1 {
      return None;
    }
    return Some(stack[0][0]);
  }

  lemma {:induction false} WholeStack(stack: seq<seq<Tree>>)
    requires stack != []
    ensures forall t :: Consumed(stack) == Flatten(t) <==> stack == [[t]]
  {
    forall t
      ensures Consumed(stack) == Flatten(t) <==> stack == [[t]]
    {
      if stack == [[t]] {
        assert stack[0][1..] == [];
        assert FlattenAll(stack[0]) == Flatten(t) + [];
      }
      if Consumed(stack) == Flatten(t) {
        FinishedStack(stack, t);
      }
    }
  }

  lemma {:induction false} OneToken(tokens: seq<Token>, i: nat)
    requires i < |tokens|
    ensures tokens[..i + 1] == tokens[..i] + [tokens[i]]
    ensures tokens == tokens[..i] + [tokens[i]] + tokens[i + 1..]
  {
  }

  lemma {:induction false} OpenList(stack: seq<seq<Tree>>)
    requires stack != []
    ensures Consumed(stack + [[]]) == Consumed(stack) + [Open]
  {
    assert (stack + [[]])[..|stack|] == stack;
    assert Consumed(stack + [[]]) == Consumed(stack) + [Open] + [];
  }

  /** The two languages class every character of the text alike. */
  predicate SameSpace(ir: string) {
    forall i :: 0 <= i < |ir| ==> (ir[i] in C_SPACE <==> ir[i] in PY_SPACE)
  }

  lemma {:induction false} WordLenAgrees(s: string)
    requires SameSpace(s)
    ensures WordLen(s, C_SPACE) == WordLen(s, PY_SPACE)
  {
    if s != [] && WordChar(s[0], C_SPACE) {
      assert forall i :: 0 <= i < |s[1..]| ==> s[1..][i] == s[i + 1];
      WordLenAgrees(s[1..]);
    }
  }

  lemma {:induction false} LexAgrees(s: string)
    requires SameSpace(s)
    ensures Lex(s, C_SPACE) == Lex(s, PY_SPACE)
    decreases |s|
  {
    if s != [] {
      var n := WordLen(s, C_SPACE);
      WordLenAgrees(s);
      assert forall i :: 0 <= i < |s[1..]| ==> s[1..][i] == s[i + 1];
      assert forall i :: 0 <= i < |s[n..]| ==> s[n..][i] == s[i + n];
      LexAgrees(s[1..]);
      if n > 0 {
        LexAgrees(s[n..]);
      }
    }
  }

  /** The recursive C reader is the stack reader of Python with the size limits added. */
  lemma {:induction false} ReadersAgree(ir: string, t: Tree, maxNodes: nat)
    requires SameSpace(ir)
    ensures Reader.Accepts(ir, t, maxNodes) <==> Denotes(ir, t) && Fits(t) && Size(t) <= maxNodes
  {
    LexAgrees(ir);
  }

  /** Every character that is neither space nor bracket stands in some word of the text. */
  lemma {:induction false} InSomeWord(s: string, i: nat, ws: set<char>)
    requires i < |s| && WordChar(s[i], ws)
    ensures exists x :: x in Lex(s, ws) && x.Word? && s[i] in x.text
    decreases |s|
  {
    if WordChar(s[0], ws) {
      var n := WordLen(s, ws);
      var first := Word(s[..n]);
      assert first in Lex(s, ws);
      if i < n {
        assert s[..n][i] == s[i];
      } else {
        assert s[n..][i - n] == s[i];
        InSomeWord(s[n..], i - n, ws);
        var x :| x in Lex(s[n..], ws) && x.Word? && s[i] in x.text;
        assert x in Lex(s, ws);
      }
    } else {
      assert s[1..][i - 1] == s[i];
      InSomeWord(s[1..], i - 1, ws);
      var x :| x in Lex(s[1..], ws) && x.Word? && s[i] in x.text;
      assert x in Lex(s, ws);
    }
  }

  /** Text that holds a character on which the two languages differ has different tokens. */
  lemma {:induction false} LexDiffers(s: string, c: set<char>, py: set<char>, i: nat)
    requires i < |s| && WordChar(s[i], c) && s[i] in py
    ensures Lex(s, c) != Lex(s, py)
  {
    InSomeWord(s, i, c);
    var x :| x in Lex(s, c) && x.Word? && s[i] in x.text;
    Printer.LexPrintable(s, py);
    var k :| 0 <= k < |x.text| && x.text[k] == s[i];
    assert !WordChar(x.text[k], py);
    assert x !in Lex(s, py);
  }

  lemma {:induction false} WherePythonSeesSpace(ir: string) returns (i: nat)
    requires !SameSpace(ir)
    ensures i < |ir| && WordChar(ir[i], C_SPACE) && ir[i] in PY_SPACE
  {
    i :| 0 <= i < |ir| && !(ir[i] in C_SPACE <==> ir[i] in PY_SPACE);
  }

  /** For every tree: the C reader accepts it exactly when the Python reader returns it within the limits. */
  ghost predicate Agree(ir: string, maxNodes: nat) {
    forall t :: Reader.Accepts(ir, t, maxNodes) <==> Denotes(ir, t) && Fits(t) && Size(t) <= maxNodes
  }

  /** One of the two readers gets a tree within the limits out of the text. */
  ghost predicate Readable(ir: string, maxNodes: nat) {
    exists t :: Fits(t) && Size(t) <= maxNodes && (Lex(ir, C_SPACE) == Flatten(t) || Denotes(ir, t))
  }

  /** The readers agree on a text exactly when they class its characters alike, or neither reads it. */
  lemma {:induction false} ReadersAgreeExactly(ir: string, maxNodes: nat)
    ensures Agree(ir, maxNodes) <==> SameSpace(ir) || !Readable(ir, maxNodes)
  {
    if SameSpace(ir) {
      LexAgrees(ir);
    } else {
      var i := WherePythonSeesSpace(ir);
      LexDiffers(ir, C_SPACE, PY_SPACE, i);
      if t :| Fits(t) && Size(t) <= maxNodes && (Lex(ir, C_SPACE) == Flatten(t) || Denotes(ir, t)) {
        assert !(Reader.Accepts(ir, t, maxNodes) <==> Denotes(ir, t) && Fits(t) && Size(t) <= maxNodes);
      }
    }
  }

  lemma {:induction false} OneWordForC()
    ensures Lex("a\U{1C}b", C_SPACE) == [Word("a\U{1C}b")]
  {
    var ir := "a\U{1C}b";
    Reader.WordLenIs(ir, 3, C_SPACE);
    assert ir[..3] == ir && ir[3..] == [];
  }

  lemma {:induction false} TwoWordsForPython()
    ensures var toks := Lex("a\U{1C}b", PY_SPACE); |toks| == 2 && toks[0].Word?
  {
    var ir := "a\U{1C}b";
    Reader.WordLenIs(ir, 1, PY_SPACE);
    var b := ir[1..][1..];
    assert b == "b";
    Reader.WordLenIs(b, 1, PY_SPACE);
    assert Lex(ir, PY_SPACE) == [Word(ir[..1])] + Lex(ir[1..], PY_SPACE);
    assert Lex(ir[1..], PY_SPACE) == Lex(b, PY_SPACE) == [Word(b[..1])] + Lex(b[1..], PY_SPACE);
  }

  /** Where they do disagree about white space: one atom for C, two of them for Python. */
  lemma {:induction false} ReadersDisagree()
    ensures var ir := "a\U{1C}b";
            Reader.Accepts(ir, Atom(ir), 1) && !exists t :: Denotes(ir, t)
  {
    var ir := "a\U{1C}b";
    OneWordForC();
    TwoWordsForPython();
    var toks := Lex(ir, PY_SPACE);
    forall t
      ensures !Denotes(ir, t)
    {
      assert t.Atom? ==> |Flatten(t)| == 1;
      assert t.Node? ==> Flatten(t)[0] == Open;
    }
  }
}
