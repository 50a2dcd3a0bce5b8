/** The optional value used wherever the C code returns a null pointer or a zero status. */
module Wrappers {
  datatype Option<+T> = None | Some(value: T)

  lemma {:induction false} Cat<T>(a: seq<T>, b: seq<T>, c: seq<T>)
    ensures a + b + c == a + (b + c)
  {
  }

  lemma {:induction false} Uncons<T>(a: seq<T>, b: seq<T>)
    requires a != []
    ensures (a + b)[1..] == a[1..] + b && (a + b)[0] == a[0]
  {
  }

  lemma {:induction false} SameParts<T>(a: seq<T>, b: seq<T>, c: seq<T>, e: seq<T>)
    requires |a| == |c|
    ensures a + b == c + e <==> a == c && b == e
  {
    if a + b == c + e {
      assert a == (a + b)[..|a|] && c == (c + e)[..|c|];
      assert b == (a + b)[|a|..] && e == (c + e)[|c|..];
    }
  }
}
