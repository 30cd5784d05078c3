/** Single moves of the grammar parse loop (robiphora/ccg.py, lines 207-327) on the
    stack shapes that well-formed grammar text produces, stated on the whole run:
    what remains of the run after one shift, reduction or yield. */
module CcgMoves {
  import opened Outcomes
  import opened CcgTerms
  import opened CcgParse
  import opened CcgSteps

  /** The type context after shifting over control symbol `c`. */
  function After(c: Control, typectx: bool): bool {
    if c == Define then true else if c == Colon || c == LBrack then false else typectx
  }

  /** With nothing on the stack the first token is shifted. */
  lemma {:induction false} ShiftOntoEmpty(tok: Token, rest: seq<Token>, tolerant: bool)
    ensures Run([], [tok] + rest, false, tolerant) == Run([Lift(tok)], rest, false, tolerant)
  {
    assert Step([], [tok] + rest, false) == Shift;
    assert ([tok] + rest)[1..] == rest;
    assert [] + [Lift(tok)] == [Lift(tok)];
  }

  /** The token after a control entry is shifted; after `:=`, `:` and `[` the shift
      needs a token behind it unless the parser is tolerant. */
  lemma {:induction false} ShiftAfterControl(below: seq<Sym>, tok: Token, rest: seq<Token>, typectx: bool,
                          tolerant: bool)
    requires below != [] && below[|below| - 1].CtlSym?
    requires below[|below| - 1].c != RParen && below[|below| - 1].c != RBrack
    requires below[|below| - 1].c in {Define, Colon, LBrack} ==> rest != [] || tolerant
    ensures Run(below, [tok] + rest, typectx, tolerant)
         == Run(below + [Lift(tok)], rest, After(below[|below| - 1].c, typectx), tolerant)
  {
    StepOnControl(below, [tok] + rest, typectx);
    assert ([tok] + rest)[1..] == rest;
  }

  /** A production before a control token waits for it. */
  lemma {:induction false} ShiftBeforeControl(below: seq<Sym>, p: Production, c: Control, rest: seq<Token>,
                           tolerant: bool)
    ensures Run(below + [Prod(p)], [Ctl(c)] + rest, false, tolerant)
         == Run(below + [Prod(p), CtlSym(c)], rest, false, tolerant)
  {
    StepBeforeControl(below + [Prod(p)], [Ctl(c)] + rest);
    assert ([Ctl(c)] + rest)[1..] == rest;
    assert below + [Prod(p)] + [CtlSym(c)] == below + [Prod(p), CtlSym(c)];
  }

  lemma {:induction false} ShiftAfterType(below: seq<Sym>, t: Type, tok: Token, rest: seq<Token>, tolerant: bool)
    requires below != [] && below[|below| - 1] in {CtlSym(Define), CtlSym(LParen)}
    ensures Run(below + [TypeSym(t)], [tok] + rest, true, tolerant)
         == Run(below + [TypeSym(t), Lift(tok)], rest, true, tolerant)
  {
    StepAfterType(below, t, [tok] + rest, true);
    assert ([tok] + rest)[1..] == rest;
    assert below + [TypeSym(t)] + [Lift(tok)] == below + [TypeSym(t), Lift(tok)];
  }

  lemma {:induction false} ShiftAfterTableName(below: seq<Sym>, w: string, tok: Token, rest: seq<Token>, tolerant: bool)
    requires below != [] && below[|below| - 1] in {CtlSym(LBrack), CtlSym(Comma)}
    ensures Run(below + [Prod(Name(w))], [tok] + rest, false, tolerant)
         == Run(below + [Prod(Name(w)), Lift(tok)], rest, false, tolerant)
  {
    StepTableName(below, w, [tok] + rest);
    assert ([tok] + rest)[1..] == rest;
    assert below + [Prod(Name(w))] + [Lift(tok)] == below + [Prod(Name(w)), Lift(tok)];
  }

  lemma {:induction false} ShiftAfterNumber(below: seq<Sym>, p: real, tok: Token, rest: seq<Token>, tolerant: bool)
    ensures Run(below + [Float(p)], [tok] + rest, false, tolerant)
         == Run(below + [Float(p), Lift(tok)], rest, false, tolerant)
  {
    StepOnNumber(below + [Float(p)], [tok] + rest, false);
    assert ([tok] + rest)[1..] == rest;
    assert below + [Float(p)] + [Lift(tok)] == below + [Float(p), Lift(tok)];
  }

  lemma {:induction false} ShiftAfterTable(below: seq<Sym>, table: map<string, real>, default: real, tok: Token,
                        rest: seq<Token>, tolerant: bool)
    requires below != [] && below[|below| - 1] == CtlSym(LBrack)
    ensures Run(below + [ProbabilityRelation(table), DefaultProbability(default)], [tok] + rest,
                false, tolerant)
         == Run(below + [ProbabilityRelation(table), DefaultProbability(default), Lift(tok)], rest,
                false, tolerant)
  {
    var s := below + [ProbabilityRelation(table), DefaultProbability(default)];
    StepAfterTable(below, table, default, [tok] + rest, false);
    assert ([tok] + rest)[1..] == rest;
    assert s + [Lift(tok)]
        == below + [ProbabilityRelation(table), DefaultProbability(default), Lift(tok)];
  }

  lemma {:induction false} ReduceTypeName(below: seq<Sym>, n: string, input: seq<Token>, tolerant: bool)
    ensures Run(below + [Prod(Name(n))], input, true, tolerant)
         == Run(below + [TypeSym(Type(n))], input, true, tolerant)
  {
    StepTypeName(below, n, input);
  }

  lemma {:induction false} ReduceParenType(below: seq<Sym>, t: Type, input: seq<Token>, tolerant: bool)
    ensures Run(below + [CtlSym(LParen), TypeSym(t), CtlSym(RParen)], input, true, tolerant)
         == Run(below + [TypeSym(t)], input, true, tolerant)
  {
    StepParenType(below, t, input, true);
  }

  /** The slash type of result side `l` and missing argument `m`. */
  function Slashed(l: Type, slash: Control, m: Type): Type {
    if slash == Whack then TypeMissingLeft(l, m) else TypeMissingRight(l, m)
  }

  lemma {:induction false} ReduceSlash(below: seq<Sym>, l: Type, slash: Control, m: Type, input: seq<Token>,
                    tolerant: bool)
    requires slash == Whack || slash == Slash
    ensures Run(below + [TypeSym(l), CtlSym(slash), TypeSym(m)], input, true, tolerant)
         == Run(below + [TypeSym(Slashed(l, slash, m))], input, true, tolerant)
  {
    StepMissing(below, l, slash, m, input, true);
  }

  lemma {:induction false} ReduceLastWeight(below: seq<Sym>, w: string, p: real, input: seq<Token>, tolerant: bool)
    ensures Run(below + [Prod(Name(w)), Float(p), CtlSym(RBrack)], input, false, tolerant)
         == Run(below + [ProbabilityRelation(map[w := p]), DefaultProbability(1.0)], input, false,
                tolerant)
  {
    StepLastWeight(below, w, p, input, false);
  }

  lemma {:induction false} ReduceDefaultWeight(below: seq<Sym>, p: real, input: seq<Token>, tolerant: bool)
    requires below != [] && below[|below| - 1] in {CtlSym(LBrack), CtlSym(Comma)}
    ensures Run(below + [Float(p), CtlSym(RBrack)], input, false, tolerant)
         == Run(below + [ProbabilityRelation(map[]), DefaultProbability(p)], input, false, tolerant)
  {
    StepDefaultWeight(below, p, input, false);
  }

  lemma {:induction false} ReduceMoreWeights(below: seq<Sym>, w: string, p: real, table: map<string, real>,
                          default: real, input: seq<Token>, tolerant: bool)
    ensures Run(below + [Prod(Name(w)), Float(p), CtlSym(Comma), ProbabilityRelation(table),
                         DefaultProbability(default)], input, false, tolerant)
         == Run(below + [ProbabilityRelation(table[w := p]), DefaultProbability(default)], input,
                false, tolerant)
  {
    StepMoreWeights(below, w, p, table, default, input, false);
  }

  lemma {:induction false} ReduceNoArgs(below: seq<Sym>, input: seq<Token>, tolerant: bool)
    requires below != [] && (below[|below| - 1].Prod? || below[|below| - 1] == CtlSym(LParen))
    ensures Run(below + [CtlSym(RParen)], input, false, tolerant)
         == Run(below + [PartialPredicate([])], input, false, tolerant)
  {
    StepNoArgs(below, input);
  }

  lemma {:induction false} ReduceArg(below: seq<Sym>, p: Production, items: seq<Production>, input: seq<Token>,
                  tolerant: bool)
    ensures Run(below + [Prod(p), PartialPredicate(items)], input, false, tolerant)
         == Run(below + [PartialPredicate(items + [p])], input, false, tolerant)
  {
    StepArg(below, p, items, input);
  }

  lemma {:induction false} ReduceCommaArg(below: seq<Sym>, p: Production, items: seq<Production>, input: seq<Token>,
                       tolerant: bool)
    ensures Run(below + [Prod(p), CtlSym(Comma), PartialPredicate(items)], input, false, tolerant)
         == Run(below + [PartialPredicate(items + [p])], input, false, tolerant)
  {
    StepCommaArg(below, p, items, input);
  }

  lemma {:induction false} ReducePredicate(below: seq<Sym>, n: string, items: seq<Production>, input: seq<Token>,
                        tolerant: bool)
    ensures Run(below + [Prod(Name(n)), CtlSym(LParen), PartialPredicate(items)], input, false,
                tolerant)
         == Run(below + [Prod(Predicate(n, Reversed(items)))], input, false, tolerant)
  {
    StepPredicate(below, n, items, input);
  }

  lemma {:induction false} ReduceAbstraction(below: seq<Sym>, v: string, p: Production, input: seq<Token>,
                          tolerant: bool)
    requires Calm(input)
    ensures Run(below + [CtlSym(Lambda), Prod(Name(v)), CtlSym(Dot), Prod(p)], input, false, tolerant)
         == Run(below + [Prod(Abstraction(v, p))], input, false, tolerant)
  {
    StepAbstraction(below, v, p, input);
  }

  lemma {:induction false} ReduceAnd(below: seq<Sym>, l: Production, r: Production, input: seq<Token>, tolerant: bool)
    requires Calm(input)
    ensures Run(below + [Prod(l), CtlSym(AndOp), Prod(r)], input, false, tolerant)
         == Run(below + [Prod(And(l, r))], input, false, tolerant)
  {
    StepAnd(below, l, r, input);
  }

  lemma {:induction false} EmitDefinition(w: string, t: Type, p: Production, input: seq<Token>, tolerant: bool)
    requires Calm(input)
    ensures Run([Prod(Name(w)), CtlSym(Define), TypeSym(t), CtlSym(Colon), Prod(p)], input, false,
                tolerant)
         == Prepend([Definition(w, t, p, map[], 1.0)], Run([], input, false, tolerant))
  {
    var s := [Prod(Name(w)), CtlSym(Define), TypeSym(t), CtlSym(Colon), Prod(p)];
    assert [] + s == s;
    StepDefinition([], w, t, p, input);
  }

  lemma {:induction false} EmitWeightedDefinition(w: string, t: Type, table: map<string, real>, default: real,
                               p: Production, input: seq<Token>, tolerant: bool)
    requires Calm(input)
    ensures Run([Prod(Name(w)), CtlSym(Define), TypeSym(t), CtlSym(LBrack),
                 ProbabilityRelation(table), DefaultProbability(default), CtlSym(Colon), Prod(p)],
                input, false, tolerant)
         == Prepend([Definition(w, t, p, table, default)], Run([], input, false, tolerant))
  {
    var s := [Prod(Name(w)), CtlSym(Define), TypeSym(t), CtlSym(LBrack),
              ProbabilityRelation(table), DefaultProbability(default), CtlSym(Colon), Prod(p)];
    assert [] + s == s;
    StepWeightedDefinition([], w, t, table, default, p, input);
  }
}
