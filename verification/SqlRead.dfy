/**
  The database's reading of an expression: a precedence parser (OR below AND below NOT below
  comparison below + - below * /), which knows nothing of how the text was produced.
 */
module SqlRead {
  import opened Wrappers
  import opened Decimal
  import opened Sql
  import opened SqlExpr

  datatype Keyword =
    | KSelect | KTop | KAs | KFrom | KInner | KLeft | KRight | KFull | KOuter | KJoin | KOn | KWhere
    | KGroup | KBy | KOrder | KLimit | KAnd | KOr | KNot | KIs | KNull | KOver | KPartition | KDistinct
    | KDesc | KAsc

  /** A token, classified. */
  datatype Lexeme = K(k: Keyword) | Open | Close | Comma | Dot | Op(op: BinOp) | Word(w: string)
    | Name(name: string) | Param(n: nat) | Bad

  function KeywordOf(w: string): Option<Keyword> {
    match |w|
    case 2 =>
      if w == "OR" then Some(KOr) else if w == "IS" then Some(KIs) else if w == "BY" then Some(KBy)
      else if w == "AS" then Some(KAs) else if w == "ON" then Some(KOn) else None
    case 3 =>
      if w == "AND" then Some(KAnd) else if w == "NOT" then Some(KNot) else if w == "ASC" then Some(KAsc)
      else if w == "TOP" then Some(KTop) else None
    case 4 =>
      if w == "NULL" then Some(KNull) else if w == "OVER" then Some(KOver) else if w == "DESC" then Some(KDesc)
      else if w == "FROM" then Some(KFrom) else if w == "LEFT" then Some(KLeft) else if w == "FULL" then Some(KFull)
      else if w == "JOIN" then Some(KJoin) else None
    case 5 =>
      if w == "ORDER" then Some(KOrder) else if w == "INNER" then Some(KInner) else if w == "RIGHT" then Some(KRight)
      else if w == "OUTER" then Some(KOuter) else if w == "WHERE" then Some(KWhere) else if w == "GROUP" then Some(KGroup)
      else if w == "LIMIT" then Some(KLimit) else None
    case _ =>
      if w == "SELECT" then Some(KSelect) else if w == "DISTINCT" then Some(KDistinct)
      else if w == "PARTITION" then Some(KPartition) else None
  }

  function OpOf(s: string): Option<BinOp> {
    if s == "=" then Some(Eq) else if s == ">=" then Some(Gte) else if s == ">" then Some(Gt)
    else if s == "<=" then Some(Lte) else if s == "<" then Some(Lt) else if s == "<>" then Some(Neq)
    else if s == "*" then Some(Mul) else if s == "+" then Some(Add) else if s == "-" then Some(Sub)
    else if s == "/" then Some(Div) else None
  }

  function Classify(t: Tok): Lexeme {
    match t
    case TWord(w) => if KeywordOf(w).Some? then K(KeywordOf(w).value) else Word(w)
    case TSym(s) =>
      if s == "(" then Open else if s == ")" then Close else if s == "," then Comma else if s == "." then Dot
      else if OpOf(s).Some? then Op(OpOf(s).value) else Bad
    case TId(n) => Name(n)
    case TPar(n) => Param(n)
    case TBad(_) => Bad
  }

  function ClassifyAll(ts: seq<Tok>): seq<Lexeme> {
    seq(|ts|, i requires 0 <= i < |ts| => Classify(ts[i]))
  }

  /** Everything the database sees of a text. */
  function Read(s: string, d: Dialect): seq<Lexeme> {
    ClassifyAll(LexSql(s, d))
  }

  // ---- the parser ----

  type Parse<T> = Option<(T, seq<Lexeme>)>

  predicate At(ts: seq<Lexeme>, x: Lexeme) { ts != [] && ts[0] == x }

  predicate IsComparison(op: BinOp) { op.Eq? || op.Gte? || op.Gt? || op.Lte? || op.Lt? || op.Neq? }
  predicate IsSum(op: BinOp) { op.Add? || op.Sub? }
  predicate IsProduct(op: BinOp) { op.Mul? || op.Div? }

  function ParseOr(ts: seq<Lexeme>): (r: Parse<Expr>)
    ensures r.Some? ==> |r.value.1| < |ts|
    decreases |ts|, 9
  {
    match ParseAnd(ts)
    case None => None
    case Some((e, rest)) => OrRest([e], rest)
  }

  function OrRest(es: seq<Expr>, ts: seq<Lexeme>): (r: Parse<Expr>)
    requires es != []
    ensures r.Some? ==> |r.value.1| <= |ts|
    decreases |ts|, 10
  {
    if At(ts, K(KOr)) then
      match ParseAnd(ts[1..])
      case None => None
      case Some((e, rest)) => OrRest(es + [e], rest)
    else Some((if |es| == 1 then es[0] else Or(es), ts))
  }

  function ParseAnd(ts: seq<Lexeme>): (r: Parse<Expr>)
    ensures r.Some? ==> |r.value.1| < |ts|
    decreases |ts|, 7
  {
    match ParseNot(ts)
    case None => None
    case Some((e, rest)) => AndRest([e], rest)
  }

  function AndRest(es: seq<Expr>, ts: seq<Lexeme>): (r: Parse<Expr>)
    requires es != []
    ensures r.Some? ==> |r.value.1| <= |ts|
    decreases |ts|, 8
  {
    if At(ts, K(KAnd)) then
      match ParseNot(ts[1..])
      case None => None
      case Some((e, rest)) => AndRest(es + [e], rest)
    else Some((if |es| == 1 then es[0] else And(es), ts))
  }

  function ParseNot(ts: seq<Lexeme>): (r: Parse<Expr>)
    ensures r.Some? ==> |r.value.1| < |ts|
    decreases |ts|, 6
  {
    if At(ts, K(KNot)) then
      match ParseNot(ts[1..])
      case None => None
      case Some((e, rest)) => Some((Not(e), rest))
    else
      match ParseSum(ts)
      case None => None
      case Some((e, rest)) => Test(e, rest)
  }

  /** An optional comparison or null test after a sum. */
  function Test(e: Expr, ts: seq<Lexeme>): (r: Parse<Expr>)
    ensures r.Some? ==> |r.value.1| <= |ts|
    decreases |ts|, 5
  {
    if ts != [] && ts[0].Op? && IsComparison(ts[0].op) then
      match ParseSum(ts[1..])
      case None => None
      case Some((f, rest)) => Some((Bin(ts[0].op, e, f), rest))
    else if At(ts, K(KIs)) then
      if At(ts[1..], K(KNull)) then Some((IsNull(e, false), ts[2..]))
      else if At(ts[1..], K(KNot)) && At(ts[2..], K(KNull)) then Some((IsNull(e, true), ts[3..]))
      else None
    else Some((e, ts))
  }

  function ParseSum(ts: seq<Lexeme>): (r: Parse<Expr>)
    ensures r.Some? ==> |r.value.1| < |ts|
    decreases |ts|, 4
  {
    match ParseProduct(ts)
    case None => None
    case Some((e, rest)) => SumRest(e, rest)
  }

  function SumRest(e: Expr, ts: seq<Lexeme>): (r: Parse<Expr>)
    ensures r.Some? ==> |r.value.1| <= |ts|
    decreases |ts|, 5
  {
    if ts != [] && ts[0].Op? && IsSum(ts[0].op) then
      match ParseProduct(ts[1..])
      case None => None
      case Some((f, rest)) => SumRest(Bin(ts[0].op, e, f), rest)
    else Some((e, ts))
  }

  function ParseProduct(ts: seq<Lexeme>): (r: Parse<Expr>)
    ensures r.Some? ==> |r.value.1| < |ts|
    decreases |ts|, 2
  {
    match ParsePost(ts)
    case None => None
    case Some((e, rest)) => ProductRest(e, rest)
  }

  function ProductRest(e: Expr, ts: seq<Lexeme>): (r: Parse<Expr>)
    ensures r.Some? ==> |r.value.1| <= |ts|
    decreases |ts|, 3
  {
    if ts != [] && ts[0].Op? && IsProduct(ts[0].op) then
      match ParsePost(ts[1..])
      case None => None
      case Some((f, rest)) => ProductRest(Bin(ts[0].op, e, f), rest)
    else Some((e, ts))
  }

  /** A primary expression with any number of windows after it. */
  function ParsePost(ts: seq<Lexeme>): (r: Parse<Expr>)
    ensures r.Some? ==> |r.value.1| < |ts|
    decreases |ts|, 1
  {
    match ParsePrimary(ts)
    case None => None
    case Some((e, rest)) => Windows(e, rest)
  }

  function Windows(e: Expr, ts: seq<Lexeme>): (r: Parse<Expr>)
    ensures r.Some? ==> |r.value.1| <= |ts|
    decreases |ts|, 1
  {
    if !At(ts, K(KOver)) then Some((e, ts))
    else match ParseWindow(e, ts)
      case None => None
      case Some((f, rest)) => Windows(f, rest)
  }

  function ParseWindow(e: Expr, ts: seq<Lexeme>): (r: Parse<Expr>)
    ensures r.Some? ==> |r.value.1| < |ts|
    decreases |ts|, 0
  {
    if !([K(KOver), Open, K(KPartition), K(KBy)] <= ts) then None
    else match ParseList(ts[4..])
      case None => None
      case Some((part, r1)) =>
        if !([K(KOrder), K(KBy)] <= r1) then None
        else match ParseOr(r1[2..])
          case None => None
          case Some((o, r2)) =>
            if [K(KDesc), Close] <= r2 then Some((Over(e, part, o, true), r2[2..]))
            else if [K(KAsc), Close] <= r2 then Some((Over(e, part, o, false), r2[2..]))
            else None
  }

  function ParsePrimary(ts: seq<Lexeme>): (r: Parse<Expr>)
    ensures r.Some? ==> |r.value.1| < |ts|
    decreases |ts|, 0
  {
    if ts == [] then None
    else match ts[0]
      case Open =>
        (match ParseOr(ts[1..])
         case None => None
         case Some((e, rest)) => if At(rest, Close) then Some((e, rest[1..])) else None)
      case Param(n) => Some((Par(n), ts[1..]))
      case Name(a) =>
        if At(ts[1..], Dot) && |ts| > 2 && ts[2].Name? then Some((Col(a, ts[2].name), ts[3..]))
        else Some((Ref(a), ts[1..]))
      case Word(f) =>
        if !At(ts[1..], Open) then None
        else
          var distinct := At(ts[2..], K(KDistinct));
          (match ParseList(if distinct then ts[3..] else ts[2..])
           case None => None
           case Some((args, rest)) => if At(rest, Close) then Some((Call(f, distinct, args), rest[1..])) else None)
      case _ => None
  }

  /** Expressions separated by commas. */
  function ParseList(ts: seq<Lexeme>): (r: Parse<seq<Expr>>)
    ensures r.Some? ==> |r.value.1| < |ts|
    decreases |ts|, 11
  {
    match ParseOr(ts)
    case None => None
    case Some((e, rest)) =>
      if At(rest, Comma) then
        match ParseList(rest[1..])
        case None => None
        case Some((es, r1)) => Some(([e] + es, r1))
      else Some(([e], rest))
  }
}
