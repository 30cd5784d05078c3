/** Which rule of the grammar parse loop fires on the stack shapes that well-formed
    grammar text produces (robiphora/ccg.py, lines 215-325). */
module CcgSteps {
  import opened Outcomes
  import opened StackMatch
  import opened CcgTerms
  import opened CcgParse

  /** A control entry on top that no reduction rule ends with: `:=`, `:` and `[`
      shift the lookahead unguarded by the end of the stream; the rest shift it
      normally. */
  lemma {:induction false} StepOnControl(stack: seq<Sym>, input: seq<Token>, typectx: bool)
    requires stack != [] && stack[|stack| - 1].CtlSym?
    requires stack[|stack| - 1].c != RParen && stack[|stack| - 1].c != RBrack
    ensures Step(stack, input, typectx) ==
      match stack[|stack| - 1].c
      case Define => ShiftGuarded(true)
      case Colon => ShiftGuarded(false)
      case LBrack => ShiftGuarded(false)
      case _ => Shift
  {
  }

  /** A production on top before a control token is never reduced: every rule
      that ends in a production waits for a lookahead that is not a control token. */
  lemma {:induction false} StepBeforeControl(stack: seq<Sym>, input: seq<Token>)
    requires stack != [] && stack[|stack| - 1].Prod?
    requires input != [] && input[0].Ctl?
    ensures Step(stack, input, false) == Shift
  {
  }

  /** A weight-table name, after `[` or `,`, waits for its number. */
  lemma {:induction false} StepTableName(below: seq<Sym>, w: string, input: seq<Token>)
    requires below != [] && below[|below| - 1] in {CtlSym(LBrack), CtlSym(Comma)}
    ensures Step(below + [Prod(Name(w))], input, false) == Shift
  {
  }

  /** A number on top waits for the rest of its weight-table entry. */
  lemma {:induction false} StepOnNumber(stack: seq<Sym>, input: seq<Token>, typectx: bool)
    requires stack != [] && stack[|stack| - 1].Float?
    ensures Step(stack, input, typectx) == Shift
  {
  }

  /** A finished weight table after `[` waits for the `:`. */
  lemma {:induction false} StepAfterTable(below: seq<Sym>, table: map<string, real>, default: real,
                       input: seq<Token>, typectx: bool)
    requires below != [] && below[|below| - 1] == CtlSym(LBrack)
    ensures Step(below + [ProbabilityRelation(table), DefaultProbability(default)], input, typectx)
         == Shift
  {
    MatchMoreWeights(below + [ProbabilityRelation(table), DefaultProbability(default)]);
  }

  /** A type after `:=` or `(` waits for what follows it. */
  lemma {:induction false} StepAfterType(below: seq<Sym>, t: Type, input: seq<Token>, typectx: bool)
    requires below != [] && below[|below| - 1] in {CtlSym(Define), CtlSym(LParen)}
    ensures Step(below + [TypeSym(t)], input, typectx) == Shift
  {
  }

  /** In type context a name becomes an atomic type at once. */
  lemma {:induction false} StepTypeName(below: seq<Sym>, w: string, input: seq<Token>)
    ensures Step(below + [Prod(Name(w))], input, true) == Reduce(below + [TypeSym(Type(w))])
  {
  }

  lemma {:induction false} StepParenType(below: seq<Sym>, t: Type, input: seq<Token>, typectx: bool)
    ensures Step(below + [CtlSym(LParen), TypeSym(t), CtlSym(RParen)], input, typectx)
         == Reduce(below + [TypeSym(t)])
  {
    MatchOnTop(below, [CtlSym(LParen), TypeSym(t), CtlSym(RParen)], RuleParenType, IsA);
  }

  /** `lhs \ missing` and `lhs / missing` reduce as soon as both types are on top. */
  lemma {:induction false} StepMissing(below: seq<Sym>, lhs: Type, slash: Control, missing: Type,
                    input: seq<Token>, typectx: bool)
    requires slash == Whack || slash == Slash
    ensures Step(below + [TypeSym(lhs), CtlSym(slash), TypeSym(missing)], input, typectx)
         == Reduce(below + [TypeSym(if slash == Whack then TypeMissingLeft(lhs, missing)
                                    else TypeMissingRight(lhs, missing))])
  {
    var top := [TypeSym(lhs), CtlSym(slash), TypeSym(missing)];
    if slash == Whack {
      MatchOnTop(below, top, RuleMissingLeft, IsA);
    } else {
      MatchOnTop(below, top, RuleMissingRight, IsA);
    }
  }

  lemma {:induction false} StepLastWeight(below: seq<Sym>, w: string, p: real, input: seq<Token>, typectx: bool)
    ensures Step(below + [Prod(Name(w)), Float(p), CtlSym(RBrack)], input, typectx)
         == Reduce(below + [ProbabilityRelation(map[w := p]), DefaultProbability(1.0)])
  {
    MatchOnTop(below, [Prod(Name(w)), Float(p), CtlSym(RBrack)], RuleLastWeight, IsA);
  }

  lemma {:induction false} StepDefaultWeight(below: seq<Sym>, p: real, input: seq<Token>, typectx: bool)
    requires below != [] && below[|below| - 1] in {CtlSym(LBrack), CtlSym(Comma)}
    ensures Step(below + [Float(p), CtlSym(RBrack)], input, typectx)
         == Reduce(below + [ProbabilityRelation(map[]), DefaultProbability(p)])
  {
    MatchLastWeight(below + [Float(p), CtlSym(RBrack)]);
    MatchOnTop(below, [Float(p), CtlSym(RBrack)], RuleDefaultWeight, IsA);
  }

  lemma {:induction false} StepMoreWeights(below: seq<Sym>, w: string, p: real, table: map<string, real>,
                        default: real, input: seq<Token>, typectx: bool)
    ensures Step(below + [Prod(Name(w)), Float(p), CtlSym(Comma), ProbabilityRelation(table),
                          DefaultProbability(default)], input, typectx)
         == Reduce(below + [ProbabilityRelation(table[w := p]), DefaultProbability(default)])
  {
    MatchOnTop(below, [Prod(Name(w)), Float(p), CtlSym(Comma), ProbabilityRelation(table),
                       DefaultProbability(default)], RuleMoreWeights, IsA);
  }

  lemma {:induction false} StepNoArgs(below: seq<Sym>, input: seq<Token>)
    requires below != [] && (below[|below| - 1].Prod? || below[|below| - 1] == CtlSym(LParen))
    ensures Step(below + [CtlSym(RParen)], input, false) == Reduce(below + [PartialPredicate([])])
  {
    MatchOnTop(below, [CtlSym(RParen)], RuleNoArgs, IsA);
  }

  lemma {:induction false} StepArg(below: seq<Sym>, p: Production, items: seq<Production>, input: seq<Token>)
    ensures Step(below + [Prod(p), PartialPredicate(items)], input, false)
         == Reduce(below + [PartialPredicate(items + [p])])
  {
    MatchOnTop(below, [Prod(p), PartialPredicate(items)], RuleArg, IsA);
  }

  lemma {:induction false} StepCommaArg(below: seq<Sym>, p: Production, items: seq<Production>, input: seq<Token>)
    ensures Step(below + [Prod(p), CtlSym(Comma), PartialPredicate(items)], input, false)
         == Reduce(below + [PartialPredicate(items + [p])])
  {
    MatchOnTop(below, [Prod(p), CtlSym(Comma), PartialPredicate(items)], RuleCommaArg, IsA);
  }

  lemma {:induction false} StepPredicate(below: seq<Sym>, n: string, items: seq<Production>, input: seq<Token>)
    ensures Step(below + [Prod(Name(n)), CtlSym(LParen), PartialPredicate(items)], input, false)
         == Reduce(below + [Prod(Predicate(n, Reversed(items)))])
  {
    MatchOnTop(below, [Prod(Name(n)), CtlSym(LParen), PartialPredicate(items)], RulePredicate, IsA);
  }

  lemma {:induction false} StepAbstraction(below: seq<Sym>, v: string, p: Production, input: seq<Token>)
    requires Calm(input)
    ensures Step(below + [CtlSym(Lambda), Prod(Name(v)), CtlSym(Dot), Prod(p)], input, false)
         == Reduce(below + [Prod(Abstraction(v, p))])
  {
    MatchOnTop(below, [CtlSym(Lambda), Prod(Name(v)), CtlSym(Dot), Prod(p)], RuleAbstraction, IsA);
  }

  lemma {:induction false} StepAnd(below: seq<Sym>, l: Production, r: Production, input: seq<Token>)
    requires Calm(input)
    ensures Step(below + [Prod(l), CtlSym(AndOp), Prod(r)], input, false)
         == Reduce(below + [Prod(And(l, r))])
  {
    MatchOnTop(below, [Prod(l), CtlSym(AndOp), Prod(r)], RuleAnd, IsA);
  }

  lemma {:induction false} StepDefinition(below: seq<Sym>, w: string, t: Type, p: Production, input: seq<Token>)
    requires Calm(input)
    ensures Step(below + [Prod(Name(w)), CtlSym(Define), TypeSym(t), CtlSym(Colon), Prod(p)],
                 input, false)
         == Yield(Definition(w, t, p, map[], 1.0), below)
  {
    MatchWeightedDefinition(below + [Prod(Name(w)), CtlSym(Define), TypeSym(t), CtlSym(Colon), Prod(p)]);
    MatchOnTop(below, [Prod(Name(w)), CtlSym(Define), TypeSym(t), CtlSym(Colon), Prod(p)],
               RuleDefinition, IsA);
  }

  lemma {:induction false} StepWeightedDefinition(below: seq<Sym>, w: string, t: Type, table: map<string, real>,
                               default: real, p: Production, input: seq<Token>)
    requires Calm(input)
    ensures Step(below + [Prod(Name(w)), CtlSym(Define), TypeSym(t), CtlSym(LBrack),
                          ProbabilityRelation(table), DefaultProbability(default),
                          CtlSym(Colon), Prod(p)], input, false)
         == Yield(Definition(w, t, p, table, default), below)
  {
    MatchOnTop(below, [Prod(Name(w)), CtlSym(Define), TypeSym(t), CtlSym(LBrack),
                       ProbabilityRelation(table), DefaultProbability(default),
                       CtlSym(Colon), Prod(p)], RuleWeightedDefinition, IsA);
  }
}
