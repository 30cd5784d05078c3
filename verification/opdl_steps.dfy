/** Which rule of `separse` (robiphora/opdl.py, lines 126-151) fires on the stack
    shapes that expressions produce, and what remains of the run after it. */
module OpdlSteps {
  import opened Outcomes
  import opened StackMatch
  import opened OpdlParse

  /** Stacks on which no rule fires, so the next token is read: an open
      parenthesis, a keyword name or a keyword argument on top, or a complete
      expression that neither follows a keyword name nor is a lone finished
      expression. */
  predicate Quiet(stack: seq<Elem>) {
    var n := |stack|;
    stack == [] ||
    stack[n - 1].OpenParen? || stack[n - 1].KeywordArgName? || stack[n - 1].KeywordArg? ||
    (stack[n - 1].Complete? && (n == 1 ==> !stack[0].expr.SExpr?) &&
     (n >= 2 ==> !stack[n - 2].KeywordArgName?))
  }

  lemma {:induction false} StepQuiet(stack: seq<Elem>)
    requires Quiet(stack)
    ensures SeStep(stack) == Read
  {
    MatchPair(stack, KKeywordArgName, KComplete);
    MatchPair(stack, KKeywordArg, KPartialSE);
    MatchPair(stack, KComplete, KPartialSE);
    MatchPair(stack, KOpenParen, KPartialSE);
  }

  lemma {:induction false} StepKeywordValue(below: seq<Elem>, k: string, v: Expr)
    ensures SeStep(below + [KeywordArgName(k), Complete(v)]) == Combine(below + [KeywordArg(k, v)])
  {
    var s := below + [KeywordArgName(k), Complete(v)];
    MatchPair(s, KKeywordArgName, KComplete);
    assert s[..|s| - 2] == below;
  }

  /** A keyword argument meets the partial expression to its right: it is added
      unless positional arguments were collected already or the name is taken. */
  lemma {:induction false} StepKeyword(below: seq<Elem>, k: string, v: Expr, args: seq<Expr>, kwargs: map<string, Expr>)
    ensures SeStep(below + [KeywordArg(k, v), PartialSE(args, kwargs)]) ==
      if args != [] then Reject(KeywordsNotAtEnd)
      else if k in kwargs then Reject(DefinedTwice(k))
      else Combine(below + [PartialSE(args, kwargs[k := v])])
  {
    var s := below + [KeywordArg(k, v), PartialSE(args, kwargs)];
    MatchPair(s, KKeywordArgName, KComplete);
    MatchPair(s, KKeywordArg, KPartialSE);
    assert s[..|s| - 2] == below;
  }

  lemma {:induction false} StepPositional(below: seq<Elem>, x: Expr, args: seq<Expr>, kwargs: map<string, Expr>)
    ensures SeStep(below + [Complete(x), PartialSE(args, kwargs)])
         == Combine(below + [PartialSE(args + [x], kwargs)])
  {
    var s := below + [Complete(x), PartialSE(args, kwargs)];
    MatchPair(s, KKeywordArgName, KComplete);
    MatchPair(s, KKeywordArg, KPartialSE);
    MatchPair(s, KComplete, KPartialSE);
    assert s[..|s| - 2] == below;
  }

  lemma {:induction false} StepClose(below: seq<Elem>, args: seq<Expr>, kwargs: map<string, Expr>)
    ensures SeStep(below + [OpenParen, PartialSE(args, kwargs)])
         == Combine(below + [Complete(SExpr(Reversed(args), kwargs))])
  {
    var s := below + [OpenParen, PartialSE(args, kwargs)];
    MatchPair(s, KKeywordArgName, KComplete);
    MatchPair(s, KKeywordArg, KPartialSE);
    MatchPair(s, KComplete, KPartialSE);
    MatchPair(s, KOpenParen, KPartialSE);
    assert s[..|s| - 2] == below;
  }

  lemma {:induction false} StepEmit(args: seq<Expr>, kwargs: map<string, Expr>)
    ensures SeStep([Complete(SExpr(args, kwargs))]) == Emit(SExpr(args, kwargs), [])
  {
    var s := [Complete(SExpr(args, kwargs))];
    MatchPair(s, KKeywordArgName, KComplete);
    MatchPair(s, KKeywordArg, KPartialSE);
    MatchPair(s, KComplete, KPartialSE);
    MatchPair(s, KOpenParen, KPartialSE);
  }

  // ------------------------------------------------- moves on the whole run

  lemma {:induction false} ReadToken(stack: seq<Elem>, tok: SeToken, rest: seq<SeToken>)
    requires Quiet(stack)
    ensures SeRun(stack, [tok] + rest) == SeRun(stack + [Element(tok)], rest)
  {
    StepQuiet(stack);
    SeRunUnfolds(stack, [tok] + rest);
    assert ([tok] + rest)[1..] == rest;
  }

  lemma {:induction false} ReadEnd(stack: seq<Elem>)
    requires Quiet(stack)
    ensures SeRun(stack, []) == if stack == [] then Done() else Failed(Leftover)
  {
    StepQuiet(stack);
  }

  lemma {:induction false} CombineKeywordValue(below: seq<Elem>, k: string, v: Expr, input: seq<SeToken>)
    ensures SeRun(below + [KeywordArgName(k), Complete(v)], input)
         == SeRun(below + [KeywordArg(k, v)], input)
  {
    StepKeywordValue(below, k, v);
    SeRunUnfolds(below + [KeywordArgName(k), Complete(v)], input);
  }

  lemma {:induction false} CombineKeyword(below: seq<Elem>, k: string, v: Expr, args: seq<Expr>,
                       kwargs: map<string, Expr>, input: seq<SeToken>)
    ensures SeRun(below + [KeywordArg(k, v), PartialSE(args, kwargs)], input) ==
      if args != [] then Failed(KeywordsNotAtEnd)
      else if k in kwargs then Failed(DefinedTwice(k))
      else SeRun(below + [PartialSE(args, kwargs[k := v])], input)
  {
    StepKeyword(below, k, v, args, kwargs);
    SeRunUnfolds(below + [KeywordArg(k, v), PartialSE(args, kwargs)], input);
  }

  lemma {:induction false} CombinePositional(below: seq<Elem>, x: Expr, args: seq<Expr>, kwargs: map<string, Expr>,
                          input: seq<SeToken>)
    ensures SeRun(below + [Complete(x), PartialSE(args, kwargs)], input)
         == SeRun(below + [PartialSE(args + [x], kwargs)], input)
  {
    StepPositional(below, x, args, kwargs);
    SeRunUnfolds(below + [Complete(x), PartialSE(args, kwargs)], input);
  }

  lemma {:induction false} CombineClose(below: seq<Elem>, args: seq<Expr>, kwargs: map<string, Expr>,
                     input: seq<SeToken>)
    ensures SeRun(below + [OpenParen, PartialSE(args, kwargs)], input)
         == SeRun(below + [Complete(SExpr(Reversed(args), kwargs))], input)
  {
    StepClose(below, args, kwargs);
    SeRunUnfolds(below + [OpenParen, PartialSE(args, kwargs)], input);
  }

  /** A lone finished expression at the bottom of the stack is yielded at once. */
  lemma {:induction false} EmitLone(args: seq<Expr>, kwargs: map<string, Expr>, input: seq<SeToken>)
    ensures SeRun([Complete(SExpr(args, kwargs))], input)
         == Prepend([SExpr(args, kwargs)], SeRun([], input))
  {
    StepEmit(args, kwargs);
    SeRunUnfolds([Complete(SExpr(args, kwargs))], input);
  }
}
