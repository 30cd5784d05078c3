/** The S-expression parser of robiphora/opdl.py (`separse`, lines 123-153): a
    shift-reduce stack machine without lookahead over the token stream the OPDL
    lexer produces. */
module OpdlParse {
  import opened Outcomes
  import opened StackMatch

  /** A complete expression: a symbol, a string literal, or a parenthesised
      expression with positional arguments and keyword arguments. */
  datatype Expr =
    | Symbol(text: string)
    | Str(text: string)
    | SExpr(args: seq<Expr>, kwargs: map<string, Expr>)

  /** An OPDL token. The lexer produces `)` as an empty partial expression. */
  datatype SeToken =
    | Open
    | Close
    | Keyword(name: string)
    | SymbolTok(text: string)
    | StringTok(text: string)

  /** A parse-stack entry. A partial expression collects, from right to left, the
      arguments of an expression whose `)` has been read. */
  datatype Elem =
    | OpenParen
    | PartialSE(args: seq<Expr>, kwargs: map<string, Expr>)
    | KeywordArgName(name: string)
    | KeywordArg(name: string, value: Expr)
    | Complete(expr: Expr)

  /** The classes the stack patterns test for. */
  datatype SeKind = KOpenParen | KPartialSE | KKeywordArgName | KKeywordArg | KComplete

  /** `isinstance`: symbols, strings and finished expressions are complete
      expressions; a partial expression is not. */
  predicate IsKind(e: Elem, k: SeKind) {
    match k
    case KOpenParen => e.OpenParen?
    case KPartialSE => e.PartialSE?
    case KKeywordArgName => e.KeywordArgName?
    case KKeywordArg => e.KeywordArg?
    case KComplete => e.Complete?
  }

  /** The stack entry a token becomes when it is shifted. */
  function Element(t: SeToken): Elem {
    match t
    case Open => OpenParen
    case Close => PartialSE([], map[])
    case Keyword(n) => KeywordArgName(n)
    case SymbolTok(s) => Complete(Symbol(s))
    case StringTok(s) => Complete(Str(s))
  }

  /** The syntax errors `separse` raises. */
  datatype SeError =
    | KeywordsNotAtEnd     // a positional argument after a keyword argument
    | DefinedTwice(name: string)
    | Leftover             // tokens exhausted with entries left on the stack

  /** The stack patterns of the parse loop, bottom entry first. */
  const RuleKeywordValue: seq<SeKind> := [KKeywordArgName, KComplete]
  const RuleKeyword: seq<SeKind> := [KKeywordArg, KPartialSE]
  const RulePositional: seq<SeKind> := [KComplete, KPartialSE]
  const RuleClose: seq<SeKind> := [KOpenParen, KPartialSE]

  /** What one iteration of the parse loop does. */
  datatype SeAction =
    | Combine(stack: seq<Elem>)
    | Reject(error: SeError)
    | Emit(expr: Expr, stack: seq<Elem>)
    | Read

  lemma {:induction false} MatchPair(stack: seq<Elem>, a: SeKind, b: SeKind)
    ensures Match(stack, [a, b], IsKind) <==>
      (|stack| >= 2 && IsKind(stack[|stack| - 2], a) && IsKind(stack[|stack| - 1], b))
  {
    MatchKinds(stack, [a, b], IsKind);
  }

  /** The body of the parse loop: the four reductions in the source's order, then
      the emission of a lone finished expression, then a shift. Every reduction and
      every emission shortens the stack. */
  function SeStep(stack: seq<Elem>): (a: SeAction)
    ensures a.Combine? ==> |a.stack| < |stack|
    ensures a.Emit? ==> |a.stack| < |stack| && a.expr.SExpr?
  {
    var n := |stack|;
    if Match(stack, RuleKeywordValue, IsKind) then
      MatchPair(stack, KKeywordArgName, KComplete);
      Combine(stack[..n - 2] + [KeywordArg(stack[n - 2].name, stack[n - 1].expr)])
    else if Match(stack, RuleKeyword, IsKind) then
      MatchPair(stack, KKeywordArg, KPartialSE);
      var e := stack[n - 1];
      var k := stack[n - 2];
      if e.args != [] then Reject(KeywordsNotAtEnd)
      else if k.name in e.kwargs then Reject(DefinedTwice(k.name))
      else Combine(stack[..n - 2] + [PartialSE(e.args, e.kwargs[k.name := k.value])])
    else if Match(stack, RulePositional, IsKind) then
      MatchPair(stack, KComplete, KPartialSE);
      var e := stack[n - 1];
      Combine(stack[..n - 2] + [PartialSE(e.args + [stack[n - 2].expr], e.kwargs)])
    else if Match(stack, RuleClose, IsKind) then
      MatchPair(stack, KOpenParen, KPartialSE);
      var e := stack[n - 1];
      Combine(stack[..n - 2] + [Complete(SExpr(Reversed(e.args), e.kwargs))])
    else if n == 1 && stack[0].Complete? && stack[0].expr.SExpr? then Emit(stack[0].expr, [])
    else Read
  }

  /** The stream of expressions the parse loop yields from `stack` with `input`
      left to read. */
  function SeRun(stack: seq<Elem>, input: seq<SeToken>): Emitted<Expr, SeError>
    decreases |input|, |stack|
  {
    match SeStep(stack)
    case Combine(s) => SeRun(s, input)
    case Reject(e) => Failed(e)
    case Emit(x, s) => Prepend([x], SeRun(s, input))
    case Read =>
      if input == [] then (if stack == [] then Done() else Failed(Leftover))
      else SeRun(stack + [Element(input[0])], input[1..])
  }

  /** One unfolding of `SeRun`, one case per kind of action. */
  lemma {:induction false} SeRunUnfolds(stack: seq<Elem>, input: seq<SeToken>)
    ensures SeStep(stack).Combine? ==> SeRun(stack, input) == SeRun(SeStep(stack).stack, input)
    ensures SeStep(stack).Reject? ==> SeRun(stack, input) == Failed(SeStep(stack).error)
    ensures SeStep(stack).Emit? ==>
      SeRun(stack, input) == Prepend([SeStep(stack).expr], SeRun(SeStep(stack).stack, input))
    ensures SeStep(stack).Read? && input == [] ==>
      SeRun(stack, input) == (if stack == [] then Done() else Failed(Leftover))
    ensures SeStep(stack).Read? && input != [] ==>
      SeRun(stack, input) == SeRun(stack + [Element(input[0])], input[1..])
  {
  }

  /** The parser yields only parenthesised expressions, never a bare symbol or
      string. */
  lemma {:induction false} RunYieldsExpressions(stack: seq<Elem>, input: seq<SeToken>)
    ensures forall x :: x in SeRun(stack, input).items ==> x.SExpr?
    decreases |input|, |stack|
  {
    SeRunUnfolds(stack, input);
    match SeStep(stack)
    case Combine(s) => RunYieldsExpressions(s, input);
    case Reject(_) =>
    case Emit(_, s) => RunYieldsExpressions(s, input);
    case Read =>
      if input != [] {
        RunYieldsExpressions(stack + [Element(input[0])], input[1..]);
      }
  }

  /** What `separse(tokens)` yields, and the error it raises after, if any. */
  function Separsed(tokens: seq<SeToken>): Emitted<Expr, SeError> {
    SeRun([], tokens)
  }

  /** The parse loop itself, over the token sequence with a read position. */
  method Separse(tokens: seq<SeToken>) returns (out: Emitted<Expr, SeError>)
    ensures out == Separsed(tokens)
  {
    var stack: seq<Elem> := [];
    var exprs: seq<Expr> := [];
    var i := 0;
    while true
      invariant 0 <= i <= |tokens|
      invariant Separsed(tokens) == Prepend(exprs, SeRun(stack, tokens[i..]))
      decreases |tokens| - i, |stack|
    {
      var action := SeStep(stack);
      SeRunUnfolds(stack, tokens[i..]);
      match action
      case Combine(s) =>
        stack := s;
      case Reject(e) =>
        return Prepend(exprs, Failed(e));
      case Emit(x, s) =>
        PrependTwice(exprs, [x], SeRun(s, tokens[i..]));
        exprs, stack := exprs + [x], s;
      case Read =>
        if i == |tokens| {
          break;
        }
        assert tokens[i..][1..] == tokens[i + 1..];
        stack := stack + [Element(tokens[i])];
        i := i + 1;
    }
    if stack != [] {
      return Prepend(exprs, Failed(Leftover));
    }
    return Prepend(exprs, Done());
  }
}
