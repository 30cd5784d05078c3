/** The grammar-definition parser (robiphora/ccg.py `parse`): a shift-reduce stack
    machine with one token of lookahead and a type-context flag, over the token
    stream the grammar lexer produces. */
module CcgParse {
  import opened Outcomes
  import opened StackMatch
  import opened CcgTerms

  datatype Control =
    | Comma | Lambda | Dot | Define | LParen | RParen
    | LBrack | RBrack | AndOp | Colon | Whack | Slash

  /** A grammar token: a control symbol, a name, or a number literal. */
  datatype Token = Ctl(c: Control) | NameTok(word: string) | NumTok(value: real)

  /** A parse-stack entry. A name token is pushed as the production `Name`, since in
      the source a `Name` is at once a token and a `Production`. */
  datatype Sym =
    | CtlSym(c: Control)
    | Prod(p: Production)
    | Float(value: real)
    | TypeSym(t: Type)
    | PartialPredicate(items: seq<Production>)
    | ProbabilityRelation(table: map<string, real>)
    | DefaultProbability(value: real)

  /** The classes the stack patterns test for. */
  datatype Kind =
    | KCtl(c: Control)
    | KName | KFloat | KType | KProduction
    | KPartialPredicate | KProbabilityRelation | KDefaultProbability

  /** `isinstance` with the source's subclassing: a `Name` is a `Production`, and a
      `DefaultProbability` is a `float`. */
  predicate IsA(s: Sym, k: Kind) {
    match k
    case KCtl(c) => s == CtlSym(c)
    case KName => s.Prod? && s.p.Name?
    case KFloat => s.Float? || s.DefaultProbability?
    case KType => s.TypeSym?
    case KProduction => s.Prod?
    case KPartialPredicate => s.PartialPredicate?
    case KProbabilityRelation => s.ProbabilityRelation?
    case KDefaultProbability => s.DefaultProbability?
  }

  function Lift(t: Token): Sym {
    match t
    case Ctl(c) => CtlSym(c)
    case NameTok(w) => Prod(Name(w))
    case NumTok(v) => Float(v)
  }

  datatype ParseError =
    | StreamEnded      // `next(tokens)` on an exhausted stream (lines 210, 219, 224, 228)
    | IncompleteParse  // tokens exhausted with entries left on the stack

  /** The lookahead guard of the abstraction, conjunction and definition rules. An
      absent lookahead (end of input) is not a control token. */
  predicate Calm(input: seq<Token>) {
    input == [] || !input[0].Ctl?
  }

  /** 1 when the top entry is one that a reduction rewrites in place into a
      different entry: a name (into a type), `)` (into an empty argument list) or
      `]` (into a weight table); the parse loop's measure after the input and the
      stack length. */
  function TopWeight(stack: seq<Sym>): nat {
    if stack == [] then 0
    else
      var s := stack[|stack| - 1];
      if IsA(s, KName) || s == CtlSym(RParen) || s == CtlSym(RBrack) then 1 else 0
  }

  /** The stack patterns of the parse loop, bottom entry first. */
  const RuleDefine: seq<Kind> := [KCtl(Define)]
  const RuleColon: seq<Kind> := [KCtl(Colon)]
  const RuleLBrack: seq<Kind> := [KCtl(LBrack)]
  const RuleTypeName: seq<Kind> := [KName]
  const RuleParenType: seq<Kind> := [KCtl(LParen), KType, KCtl(RParen)]
  const RuleMissingLeft: seq<Kind> := [KType, KCtl(Whack), KType]
  const RuleMissingRight: seq<Kind> := [KType, KCtl(Slash), KType]
  const RuleLastWeight: seq<Kind> := [KName, KFloat, KCtl(RBrack)]
  const RuleDefaultWeight: seq<Kind> := [KFloat, KCtl(RBrack)]
  const RuleMoreWeights: seq<Kind> :=
    [KName, KFloat, KCtl(Comma), KProbabilityRelation, KDefaultProbability]
  const RuleAbstraction: seq<Kind> := [KCtl(Lambda), KName, KCtl(Dot), KProduction]
  const RuleAnd: seq<Kind> := [KProduction, KCtl(AndOp), KProduction]
  const RuleNoArgs: seq<Kind> := [KCtl(RParen)]
  const RuleArg: seq<Kind> := [KProduction, KPartialPredicate]
  const RuleCommaArg: seq<Kind> := [KProduction, KCtl(Comma), KPartialPredicate]
  const RulePredicate: seq<Kind> := [KName, KCtl(LParen), KPartialPredicate]
  const RuleWeightedDefinition: seq<Kind> :=
    [KName, KCtl(Define), KType, KCtl(LBrack), KProbabilityRelation, KDefaultProbability,
     KCtl(Colon), KProduction]
  const RuleDefinition: seq<Kind> := [KName, KCtl(Define), KType, KCtl(Colon), KProduction]

  /** What one iteration of the parse loop does. */
  datatype Action =
    | ShiftGuarded(typectx: bool)  // shift that does not survive the end of the stream
    | Reduce(stack: seq<Sym>)
    | Yield(def: Definition, stack: seq<Sym>)
    | Shift

  /** The body of the parse loop as written: the three guarded shifts and the
      reduction rules, tried in the source's order, then the generic shift. */
  function Cascade(stack: seq<Sym>, input: seq<Token>, typectx: bool): Action {
    var n := |stack|;
    if Match(stack, RuleDefine, IsA) then ShiftGuarded(true)
    else if Match(stack, RuleColon, IsA) then ShiftGuarded(false)
    else if Match(stack, RuleLBrack, IsA) then ShiftGuarded(false)
    else if Match(stack, RuleTypeName, IsA) && typectx then
      MatchTypeName(stack);
      Reduce(stack[..n - 1] + [TypeSym(Type(stack[n - 1].p.word))])
    else if Match(stack, RuleParenType, IsA) then
      MatchParenType(stack);
      Reduce(stack[..n - 3] + [stack[n - 2]])
    else if Match(stack, RuleMissingLeft, IsA) then
      MatchMissingLeft(stack);
      Reduce(stack[..n - 3] + [TypeSym(TypeMissingLeft(stack[n - 3].t, stack[n - 1].t))])
    else if Match(stack, RuleMissingRight, IsA) then
      MatchMissingRight(stack);
      Reduce(stack[..n - 3] + [TypeSym(TypeMissingRight(stack[n - 3].t, stack[n - 1].t))])
    else WeightCascade(stack, input, typectx)
  }

  /** The weight-table rules, which follow the type rules. */
  function WeightCascade(stack: seq<Sym>, input: seq<Token>, typectx: bool): Action {
    var n := |stack|;
    if Match(stack, RuleLastWeight, IsA) then
      MatchLastWeight(stack);
      Reduce(stack[..n - 3] + [ProbabilityRelation(map[stack[n - 3].p.word := stack[n - 2].value]),
                               DefaultProbability(1.0)])
    else if Match(stack, RuleDefaultWeight, IsA) then
      MatchDefaultWeight(stack);
      Reduce(stack[..n - 2] + [ProbabilityRelation(map[]), DefaultProbability(stack[n - 2].value)])
    else if Match(stack, RuleMoreWeights, IsA) then
      MatchMoreWeights(stack);
      Reduce(stack[..n - 5] +
             [ProbabilityRelation(stack[n - 2].table[stack[n - 5].p.word := stack[n - 4].value]),
              stack[n - 1]])
    else ProductionCascade(stack, input, typectx)
  }

  /** The production rules, which follow the weight-table rules. */
  function ProductionCascade(stack: seq<Sym>, input: seq<Token>, typectx: bool): Action {
    var n := |stack|;
    if Match(stack, RuleAbstraction, IsA) && Calm(input) then
      MatchAbstraction(stack);
      Reduce(stack[..n - 4] + [Prod(Abstraction(stack[n - 3].p.word, stack[n - 1].p))])
    else if Match(stack, RuleAnd, IsA) && Calm(input) then
      MatchAnd(stack);
      Reduce(stack[..n - 3] + [Prod(And(stack[n - 3].p, stack[n - 1].p))])
    else if Match(stack, RuleNoArgs, IsA) && !typectx then
      MatchNoArgs(stack);
      Reduce(stack[..n - 1] + [PartialPredicate([])])
    else if Match(stack, RuleArg, IsA) then
      MatchArg(stack);
      Reduce(stack[..n - 2] + [PartialPredicate(stack[n - 1].items + [stack[n - 2].p])])
    else if Match(stack, RuleCommaArg, IsA) then
      MatchCommaArg(stack);
      Reduce(stack[..n - 3] + [PartialPredicate(stack[n - 1].items + [stack[n - 3].p])])
    else if Match(stack, RulePredicate, IsA) then
      MatchPredicate(stack);
      Reduce(stack[..n - 3] + [Prod(Predicate(stack[n - 3].p.word, Reversed(stack[n - 1].items)))])
    else DefinitionCascade(stack, input)
  }

  /** The two definition-completion rules, tried last before shifting. */
  function DefinitionCascade(stack: seq<Sym>, input: seq<Token>): Action {
    var n := |stack|;
    if Match(stack, RuleWeightedDefinition, IsA) && Calm(input) then
      MatchWeightedDefinition(stack);
      Yield(Definition(stack[n - 8].p.word, stack[n - 6].t, stack[n - 1].p,
                       stack[n - 4].table, stack[n - 3].value),
            stack[..n - 8])
    else if Match(stack, RuleDefinition, IsA) && Calm(input) then
      MatchDefinition(stack);
      Yield(Definition(stack[n - 5].p.word, stack[n - 3].t, stack[n - 1].p, map[], 1.0),
            stack[..n - 5])
    else Shift
  }

  /** The same rules, grouped by the entry on top of the stack: a rule fires only
      when the top entry has the rule's last kind. Within a group the source's
      order is kept (`StepIsCascade` proves the two agree). Every reduction
      shortens the stack or rewrites a heavier top entry into a lighter one, and a
      yield shortens the stack. */
  function Step(stack: seq<Sym>, input: seq<Token>, typectx: bool): (a: Action)
    ensures a.Reduce? ==>
      |a.stack| < |stack| || (|a.stack| == |stack| && TopWeight(a.stack) < TopWeight(stack))
    ensures a.Yield? ==> |a.stack| < |stack|
  {
    if stack == [] then Shift
    else
      match stack[|stack| - 1]
      case CtlSym(c) => ControlStep(stack, typectx)
      case TypeSym(_) => TypeStep(stack)
      case DefaultProbability(_) => WeightStep(stack)
      case PartialPredicate(_) => ArgumentStep(stack)
      case Prod(_) => ProductionStep(stack, input, typectx)
      case _ => Shift
  }

  /** A control token on top: the guarded shifts, `( Type )`, the empty argument
      list and the last weight-table entry. */
  function ControlStep(stack: seq<Sym>, typectx: bool): (a: Action)
    requires stack != [] && stack[|stack| - 1].CtlSym?
    ensures a.Reduce? ==>
      |a.stack| < |stack| || (|a.stack| == |stack| && TopWeight(a.stack) < TopWeight(stack))
    ensures a.Yield? ==> |a.stack| < |stack|
  {
    var n := |stack|;
    var c := stack[n - 1].c;
    if c == Define then ShiftGuarded(true)
    else if c == Colon || c == LBrack then ShiftGuarded(false)
    else if Match(stack, RuleParenType, IsA) then
      MatchParenType(stack);
      Reduce(stack[..n - 3] + [stack[n - 2]])
    else if c == RParen && !typectx then Reduce(stack[..n - 1] + [PartialPredicate([])])
    else if Match(stack, RuleLastWeight, IsA) then
      MatchLastWeight(stack);
      Reduce(stack[..n - 3] + [ProbabilityRelation(map[stack[n - 3].p.word := stack[n - 2].value]),
                               DefaultProbability(1.0)])
    else if Match(stack, RuleDefaultWeight, IsA) then
      MatchDefaultWeight(stack);
      Reduce(stack[..n - 2] + [ProbabilityRelation(map[]), DefaultProbability(stack[n - 2].value)])
    else Shift
  }

  /** A type on top: the two slash types. */
  function TypeStep(stack: seq<Sym>): (a: Action)
    requires stack != [] && stack[|stack| - 1].TypeSym?
    ensures a.Reduce? ==>
      |a.stack| < |stack| || (|a.stack| == |stack| && TopWeight(a.stack) < TopWeight(stack))
    ensures a.Yield? ==> |a.stack| < |stack|
  {
    var n := |stack|;
    if Match(stack, RuleMissingLeft, IsA) then
      MatchMissingLeft(stack);
      Reduce(stack[..n - 3] + [TypeSym(TypeMissingLeft(stack[n - 3].t, stack[n - 1].t))])
    else if Match(stack, RuleMissingRight, IsA) then
      MatchMissingRight(stack);
      Reduce(stack[..n - 3] + [TypeSym(TypeMissingRight(stack[n - 3].t, stack[n - 1].t))])
    else Shift
  }

  /** A default weight on top: one more weight-table entry. */
  function WeightStep(stack: seq<Sym>): (a: Action)
    requires stack != [] && stack[|stack| - 1].DefaultProbability?
    ensures a.Reduce? ==>
      |a.stack| < |stack| || (|a.stack| == |stack| && TopWeight(a.stack) < TopWeight(stack))
    ensures a.Yield? ==> |a.stack| < |stack|
  {
    var n := |stack|;
    if Match(stack, RuleMoreWeights, IsA) then
      MatchMoreWeights(stack);
      Reduce(stack[..n - 5] +
             [ProbabilityRelation(stack[n - 2].table[stack[n - 5].p.word := stack[n - 4].value]),
              stack[n - 1]])
    else Shift
  }

  /** An argument list on top: one more argument, or the finished predicate. */
  function ArgumentStep(stack: seq<Sym>): (a: Action)
    requires stack != [] && stack[|stack| - 1].PartialPredicate?
    ensures a.Reduce? ==>
      |a.stack| < |stack| || (|a.stack| == |stack| && TopWeight(a.stack) < TopWeight(stack))
    ensures a.Yield? ==> |a.stack| < |stack|
  {
    var n := |stack|;
    var items := stack[n - 1].items;
    if Match(stack, RuleArg, IsA) then
      MatchArg(stack);
      Reduce(stack[..n - 2] + [PartialPredicate(items + [stack[n - 2].p])])
    else if Match(stack, RuleCommaArg, IsA) then
      MatchCommaArg(stack);
      Reduce(stack[..n - 3] + [PartialPredicate(items + [stack[n - 3].p])])
    else if Match(stack, RulePredicate, IsA) then
      MatchPredicate(stack);
      Reduce(stack[..n - 3] + [Prod(Predicate(stack[n - 3].p.word, Reversed(items)))])
    else Shift
  }

  /** A production on top: a name in type context becomes a type; otherwise, when
      the lookahead is not a control token, abstraction, conjunction and the two
      definition completions. */
  function ProductionStep(stack: seq<Sym>, input: seq<Token>, typectx: bool): (a: Action)
    requires stack != [] && stack[|stack| - 1].Prod?
    ensures a.Reduce? ==>
      |a.stack| < |stack| || (|a.stack| == |stack| && TopWeight(a.stack) < TopWeight(stack))
    ensures a.Yield? ==> |a.stack| < |stack|
  {
    var n := |stack|;
    var p := stack[n - 1].p;
    if p.Name? && typectx then Reduce(stack[..n - 1] + [TypeSym(Type(p.word))])
    else if !Calm(input) then Shift
    else if Match(stack, RuleAbstraction, IsA) then
      MatchAbstraction(stack);
      Reduce(stack[..n - 4] + [Prod(Abstraction(stack[n - 3].p.word, p))])
    else if Match(stack, RuleAnd, IsA) then
      MatchAnd(stack);
      Reduce(stack[..n - 3] + [Prod(And(stack[n - 3].p, p))])
    else CompletionStep(stack)
  }

  /** The two definition completions, tried last. */
  function CompletionStep(stack: seq<Sym>): (a: Action)
    requires stack != [] && stack[|stack| - 1].Prod?
    ensures a.Yield? ==> |a.stack| < |stack|
    ensures !a.Reduce?
  {
    var n := |stack|;
    if Match(stack, RuleWeightedDefinition, IsA) then
      MatchWeightedDefinition(stack);
      Yield(Definition(stack[n - 8].p.word, stack[n - 6].t, stack[n - 1].p,
                       stack[n - 4].table, stack[n - 3].value),
            stack[..n - 8])
    else if Match(stack, RuleDefinition, IsA) then
      MatchDefinition(stack);
      Yield(Definition(stack[n - 5].p.word, stack[n - 3].t, stack[n - 1].p, map[], 1.0),
            stack[..n - 5])
    else Shift
  }

  /** Each rule's pattern spelled out entry by entry. */
  lemma {:induction false} MatchDefine(stack: seq<Sym>)
    ensures Match(stack, RuleDefine, IsA) <==>
      (|stack| >= 1 && IsA(stack[|stack| - 1], KCtl(Define)))
  {
    MatchKinds(stack, RuleDefine, IsA);
  }

  lemma {:induction false} MatchColon(stack: seq<Sym>)
    ensures Match(stack, RuleColon, IsA) <==>
      (|stack| >= 1 && IsA(stack[|stack| - 1], KCtl(Colon)))
  {
    MatchKinds(stack, RuleColon, IsA);
  }

  lemma {:induction false} MatchLBrack(stack: seq<Sym>)
    ensures Match(stack, RuleLBrack, IsA) <==>
      (|stack| >= 1 && IsA(stack[|stack| - 1], KCtl(LBrack)))
  {
    MatchKinds(stack, RuleLBrack, IsA);
  }

  lemma {:induction false} MatchTypeName(stack: seq<Sym>)
    ensures Match(stack, RuleTypeName, IsA) <==>
      (|stack| >= 1 && IsA(stack[|stack| - 1], KName))
  {
    MatchKinds(stack, RuleTypeName, IsA);
  }

  lemma {:induction false} MatchParenType(stack: seq<Sym>)
    ensures Match(stack, RuleParenType, IsA) <==>
      (|stack| >= 3 && IsA(stack[|stack| - 3], KCtl(LParen)) && IsA(stack[|stack| - 2], KType) && IsA(stack[|stack| - 1], KCtl(RParen)))
  {
    MatchKinds(stack, RuleParenType, IsA);
  }

  lemma {:induction false} MatchMissingLeft(stack: seq<Sym>)
    ensures Match(stack, RuleMissingLeft, IsA) <==>
      (|stack| >= 3 && IsA(stack[|stack| - 3], KType) && IsA(stack[|stack| - 2], KCtl(Whack)) && IsA(stack[|stack| - 1], KType))
  {
    MatchKinds(stack, RuleMissingLeft, IsA);
  }

  lemma {:induction false} MatchMissingRight(stack: seq<Sym>)
    ensures Match(stack, RuleMissingRight, IsA) <==>
      (|stack| >= 3 && IsA(stack[|stack| - 3], KType) && IsA(stack[|stack| - 2], KCtl(Slash)) && IsA(stack[|stack| - 1], KType))
  {
    MatchKinds(stack, RuleMissingRight, IsA);
  }

  lemma {:induction false} MatchLastWeight(stack: seq<Sym>)
    ensures Match(stack, RuleLastWeight, IsA) <==>
      (|stack| >= 3 && IsA(stack[|stack| - 3], KName) && IsA(stack[|stack| - 2], KFloat) && IsA(stack[|stack| - 1], KCtl(RBrack)))
  {
    MatchKinds(stack, RuleLastWeight, IsA);
  }

  lemma {:induction false} MatchDefaultWeight(stack: seq<Sym>)
    ensures Match(stack, RuleDefaultWeight, IsA) <==>
      (|stack| >= 2 && IsA(stack[|stack| - 2], KFloat) && IsA(stack[|stack| - 1], KCtl(RBrack)))
  {
    MatchKinds(stack, RuleDefaultWeight, IsA);
  }

  lemma {:induction false} MatchMoreWeights(stack: seq<Sym>)
    ensures Match(stack, RuleMoreWeights, IsA) <==>
      (|stack| >= 5 && IsA(stack[|stack| - 5], KName) && IsA(stack[|stack| - 4], KFloat) && IsA(stack[|stack| - 3], KCtl(Comma)) && IsA(stack[|stack| - 2], KProbabilityRelation) && IsA(stack[|stack| - 1], KDefaultProbability))
  {
    MatchKinds(stack, RuleMoreWeights, IsA);
  }

  lemma {:induction false} MatchAbstraction(stack: seq<Sym>)
    ensures Match(stack, RuleAbstraction, IsA) <==>
      (|stack| >= 4 && IsA(stack[|stack| - 4], KCtl(Lambda)) && IsA(stack[|stack| - 3], KName) && IsA(stack[|stack| - 2], KCtl(Dot)) && IsA(stack[|stack| - 1], KProduction))
  {
    MatchKinds(stack, RuleAbstraction, IsA);
  }

  lemma {:induction false} MatchAnd(stack: seq<Sym>)
    ensures Match(stack, RuleAnd, IsA) <==>
      (|stack| >= 3 && IsA(stack[|stack| - 3], KProduction) && IsA(stack[|stack| - 2], KCtl(AndOp)) && IsA(stack[|stack| - 1], KProduction))
  {
    MatchKinds(stack, RuleAnd, IsA);
  }

  lemma {:induction false} MatchNoArgs(stack: seq<Sym>)
    ensures Match(stack, RuleNoArgs, IsA) <==>
      (|stack| >= 1 && IsA(stack[|stack| - 1], KCtl(RParen)))
  {
    MatchKinds(stack, RuleNoArgs, IsA);
  }

  lemma {:induction false} MatchArg(stack: seq<Sym>)
    ensures Match(stack, RuleArg, IsA) <==>
      (|stack| >= 2 && IsA(stack[|stack| - 2], KProduction) && IsA(stack[|stack| - 1], KPartialPredicate))
  {
    MatchKinds(stack, RuleArg, IsA);
  }

  lemma {:induction false} MatchCommaArg(stack: seq<Sym>)
    ensures Match(stack, RuleCommaArg, IsA) <==>
      (|stack| >= 3 && IsA(stack[|stack| - 3], KProduction) && IsA(stack[|stack| - 2], KCtl(Comma)) && IsA(stack[|stack| - 1], KPartialPredicate))
  {
    MatchKinds(stack, RuleCommaArg, IsA);
  }

  lemma {:induction false} MatchPredicate(stack: seq<Sym>)
    ensures Match(stack, RulePredicate, IsA) <==>
      (|stack| >= 3 && IsA(stack[|stack| - 3], KName) && IsA(stack[|stack| - 2], KCtl(LParen)) && IsA(stack[|stack| - 1], KPartialPredicate))
  {
    MatchKinds(stack, RulePredicate, IsA);
  }

  lemma {:induction false} MatchWeightedDefinition(stack: seq<Sym>)
    ensures Match(stack, RuleWeightedDefinition, IsA) <==>
      (|stack| >= 8 && IsA(stack[|stack| - 8], KName) && IsA(stack[|stack| - 7], KCtl(Define)) && IsA(stack[|stack| - 6], KType) && IsA(stack[|stack| - 5], KCtl(LBrack)) && IsA(stack[|stack| - 4], KProbabilityRelation) && IsA(stack[|stack| - 3], KDefaultProbability) && IsA(stack[|stack| - 2], KCtl(Colon)) && IsA(stack[|stack| - 1], KProduction))
  {
    MatchKinds(stack, RuleWeightedDefinition, IsA);
  }

  lemma {:induction false} MatchDefinition(stack: seq<Sym>)
    ensures Match(stack, RuleDefinition, IsA) <==>
      (|stack| >= 5 && IsA(stack[|stack| - 5], KName) && IsA(stack[|stack| - 4], KCtl(Define)) && IsA(stack[|stack| - 3], KType) && IsA(stack[|stack| - 2], KCtl(Colon)) && IsA(stack[|stack| - 1], KProduction))
  {
    MatchKinds(stack, RuleDefinition, IsA);
  }

  /** Grouping the rules by the top entry changes nothing: `Step` picks the rule
      the source's cascade picks. */
  lemma {:induction false} StepIsCascade(stack: seq<Sym>, input: seq<Token>, typectx: bool)
    ensures Step(stack, input, typectx) == Cascade(stack, input, typectx)
  {
    if stack != [] {
      match stack[|stack| - 1]
      case CtlSym(_) => StepIsCascadeOnCtlSym(stack, input, typectx);
      case TypeSym(_) => StepIsCascadeOnTypeSym(stack, input, typectx);
      case DefaultProbability(_) => StepIsCascadeOnDefaultProbability(stack, input, typectx);
      case PartialPredicate(_) => StepIsCascadeOnPartialPredicate(stack, input, typectx);
      case Prod(_) => StepIsCascadeOnProd(stack, input, typectx);
      case Float(_) => StepIsCascadeOnFloat(stack, input, typectx);
      case ProbabilityRelation(_) => StepIsCascadeOnProbabilityRelation(stack, input, typectx);
    }
  }

  lemma {:induction false} StepIsCascadeOnCtlSym(stack: seq<Sym>, input: seq<Token>, typectx: bool)
    requires stack != [] && stack[|stack| - 1].CtlSym?
    ensures Step(stack, input, typectx) == Cascade(stack, input, typectx)
  {
    if stack[|stack| - 1].c in {Define, Colon, LBrack} {
      StepIsCascadeOnGuardedControl(stack, input, typectx);
    } else if stack[|stack| - 1].c == RParen {
      StepIsCascadeOnRParen(stack, input, typectx);
    } else if stack[|stack| - 1].c == RBrack {
      StepIsCascadeOnRBrack(stack, input, typectx);
    } else if stack[|stack| - 1].c !in {Define, Colon, LBrack, RParen, RBrack} {
      StepIsCascadeOnOtherControl(stack, input, typectx);
    }
  }

  lemma {:induction false} StepIsCascadeOnGuardedControl(stack: seq<Sym>, input: seq<Token>, typectx: bool)
    requires stack != [] && stack[|stack| - 1].CtlSym? && stack[|stack| - 1].c in {Define, Colon, LBrack}
    ensures Step(stack, input, typectx) == Cascade(stack, input, typectx)
  {
    MatchDefine(stack);
    MatchColon(stack);
    MatchLBrack(stack);
    MatchTypeName(stack);
    MatchParenType(stack);
    MatchMissingLeft(stack);
    MatchMissingRight(stack);
    MatchLastWeight(stack);
    MatchDefaultWeight(stack);
    MatchMoreWeights(stack);
    MatchAbstraction(stack);
    MatchAnd(stack);
    MatchNoArgs(stack);
    MatchArg(stack);
    MatchCommaArg(stack);
    MatchPredicate(stack);
    MatchWeightedDefinition(stack);
    MatchDefinition(stack);
  }

  lemma {:induction false} StepIsCascadeOnRParen(stack: seq<Sym>, input: seq<Token>, typectx: bool)
    requires stack != [] && stack[|stack| - 1].CtlSym? && stack[|stack| - 1].c == RParen
    ensures Step(stack, input, typectx) == Cascade(stack, input, typectx)
  {
    MatchDefine(stack);
    MatchColon(stack);
    MatchLBrack(stack);
    MatchTypeName(stack);
    MatchParenType(stack);
    MatchMissingLeft(stack);
    MatchMissingRight(stack);
    MatchLastWeight(stack);
    MatchDefaultWeight(stack);
    MatchMoreWeights(stack);
    MatchAbstraction(stack);
    MatchAnd(stack);
    MatchNoArgs(stack);
    MatchArg(stack);
    MatchCommaArg(stack);
    MatchPredicate(stack);
    MatchWeightedDefinition(stack);
    MatchDefinition(stack);
  }

  lemma {:induction false} StepIsCascadeOnRBrack(stack: seq<Sym>, input: seq<Token>, typectx: bool)
    requires stack != [] && stack[|stack| - 1].CtlSym? && stack[|stack| - 1].c == RBrack
    ensures Step(stack, input, typectx) == Cascade(stack, input, typectx)
  {
    MatchDefine(stack);
    MatchColon(stack);
    MatchLBrack(stack);
    MatchTypeName(stack);
    MatchParenType(stack);
    MatchMissingLeft(stack);
    MatchMissingRight(stack);
    MatchLastWeight(stack);
    MatchDefaultWeight(stack);
    MatchMoreWeights(stack);
    MatchAbstraction(stack);
    MatchAnd(stack);
    MatchNoArgs(stack);
    MatchArg(stack);
    MatchCommaArg(stack);
    MatchPredicate(stack);
    MatchWeightedDefinition(stack);
    MatchDefinition(stack);
  }

  lemma {:induction false} StepIsCascadeOnOtherControl(stack: seq<Sym>, input: seq<Token>, typectx: bool)
    requires stack != [] && stack[|stack| - 1].CtlSym? && stack[|stack| - 1].c !in {Define, Colon, LBrack, RParen, RBrack}
    ensures Step(stack, input, typectx) == Cascade(stack, input, typectx)
  {
    MatchDefine(stack);
    MatchColon(stack);
    MatchLBrack(stack);
    MatchTypeName(stack);
    MatchParenType(stack);
    MatchMissingLeft(stack);
    MatchMissingRight(stack);
    MatchLastWeight(stack);
    MatchDefaultWeight(stack);
    MatchMoreWeights(stack);
    MatchAbstraction(stack);
    MatchAnd(stack);
    MatchNoArgs(stack);
    MatchArg(stack);
    MatchCommaArg(stack);
    MatchPredicate(stack);
    MatchWeightedDefinition(stack);
    MatchDefinition(stack);
  }

  lemma {:induction false} StepIsCascadeOnTypeSym(stack: seq<Sym>, input: seq<Token>, typectx: bool)
    requires stack != [] && stack[|stack| - 1].TypeSym?
    ensures Step(stack, input, typectx) == Cascade(stack, input, typectx)
  {
    MatchDefine(stack);
    MatchColon(stack);
    MatchLBrack(stack);
    MatchTypeName(stack);
    MatchParenType(stack);
    MatchMissingLeft(stack);
    MatchMissingRight(stack);
    MatchLastWeight(stack);
    MatchDefaultWeight(stack);
    MatchMoreWeights(stack);
    MatchAbstraction(stack);
    MatchAnd(stack);
    MatchNoArgs(stack);
    MatchArg(stack);
    MatchCommaArg(stack);
    MatchPredicate(stack);
    MatchWeightedDefinition(stack);
    MatchDefinition(stack);
  }

  lemma {:induction false} StepIsCascadeOnDefaultProbability(stack: seq<Sym>, input: seq<Token>, typectx: bool)
    requires stack != [] && stack[|stack| - 1].DefaultProbability?
    ensures Step(stack, input, typectx) == Cascade(stack, input, typectx)
  {
    MatchDefine(stack);
    MatchColon(stack);
    MatchLBrack(stack);
    MatchTypeName(stack);
    MatchParenType(stack);
    MatchMissingLeft(stack);
    MatchMissingRight(stack);
    MatchLastWeight(stack);
    MatchDefaultWeight(stack);
    MatchMoreWeights(stack);
    MatchAbstraction(stack);
    MatchAnd(stack);
    MatchNoArgs(stack);
    MatchArg(stack);
    MatchCommaArg(stack);
    MatchPredicate(stack);
    MatchWeightedDefinition(stack);
    MatchDefinition(stack);
  }

  lemma {:induction false} StepIsCascadeOnPartialPredicate(stack: seq<Sym>, input: seq<Token>, typectx: bool)
    requires stack != [] && stack[|stack| - 1].PartialPredicate?
    ensures Step(stack, input, typectx) == Cascade(stack, input, typectx)
  {
    MatchDefine(stack);
    MatchColon(stack);
    MatchLBrack(stack);
    MatchTypeName(stack);
    MatchParenType(stack);
    MatchMissingLeft(stack);
    MatchMissingRight(stack);
    MatchLastWeight(stack);
    MatchDefaultWeight(stack);
    MatchMoreWeights(stack);
    MatchAbstraction(stack);
    MatchAnd(stack);
    MatchNoArgs(stack);
    MatchArg(stack);
    MatchCommaArg(stack);
    MatchPredicate(stack);
    MatchWeightedDefinition(stack);
    MatchDefinition(stack);
  }

  lemma {:induction false} StepIsCascadeOnProd(stack: seq<Sym>, input: seq<Token>, typectx: bool)
    requires stack != [] && stack[|stack| - 1].Prod?
    ensures Step(stack, input, typectx) == Cascade(stack, input, typectx)
  {
    if stack[|stack| - 1].p.Name? && typectx {
      StepIsCascadeOnTypeContextName(stack, input, typectx);
    } else if !(stack[|stack| - 1].p.Name? && typectx) && !Calm(input) {
      StepIsCascadeOnControlLookahead(stack, input, typectx);
    } else if !(stack[|stack| - 1].p.Name? && typectx) && Calm(input) {
      StepIsCascadeOnCalmLookahead(stack, input, typectx);
    }
  }

  lemma {:induction false} StepIsCascadeOnTypeContextName(stack: seq<Sym>, input: seq<Token>, typectx: bool)
    requires stack != [] && stack[|stack| - 1].Prod? && stack[|stack| - 1].p.Name? && typectx
    ensures Step(stack, input, typectx) == Cascade(stack, input, typectx)
  {
    MatchDefine(stack);
    MatchColon(stack);
    MatchLBrack(stack);
    MatchTypeName(stack);
    MatchParenType(stack);
    MatchMissingLeft(stack);
    MatchMissingRight(stack);
    MatchLastWeight(stack);
    MatchDefaultWeight(stack);
    MatchMoreWeights(stack);
    MatchAbstraction(stack);
    MatchAnd(stack);
    MatchNoArgs(stack);
    MatchArg(stack);
    MatchCommaArg(stack);
    MatchPredicate(stack);
    MatchWeightedDefinition(stack);
    MatchDefinition(stack);
  }

  lemma {:induction false} StepIsCascadeOnControlLookahead(stack: seq<Sym>, input: seq<Token>, typectx: bool)
    requires stack != [] && stack[|stack| - 1].Prod? && !(stack[|stack| - 1].p.Name? && typectx) && !Calm(input)
    ensures Step(stack, input, typectx) == Cascade(stack, input, typectx)
  {
    MatchDefine(stack);
    MatchColon(stack);
    MatchLBrack(stack);
    MatchTypeName(stack);
    MatchParenType(stack);
    MatchMissingLeft(stack);
    MatchMissingRight(stack);
    MatchLastWeight(stack);
    MatchDefaultWeight(stack);
    MatchMoreWeights(stack);
    MatchAbstraction(stack);
    MatchAnd(stack);
    MatchNoArgs(stack);
    MatchArg(stack);
    MatchCommaArg(stack);
    MatchPredicate(stack);
    MatchWeightedDefinition(stack);
    MatchDefinition(stack);
  }

  lemma {:induction false} StepIsCascadeOnCalmLookahead(stack: seq<Sym>, input: seq<Token>, typectx: bool)
    requires stack != [] && stack[|stack| - 1].Prod? && !(stack[|stack| - 1].p.Name? && typectx) && Calm(input)
    ensures Step(stack, input, typectx) == Cascade(stack, input, typectx)
  {
    MatchDefine(stack);
    MatchColon(stack);
    MatchLBrack(stack);
    MatchTypeName(stack);
    MatchParenType(stack);
    MatchMissingLeft(stack);
    MatchMissingRight(stack);
    MatchLastWeight(stack);
    MatchDefaultWeight(stack);
    MatchMoreWeights(stack);
    MatchAbstraction(stack);
    MatchAnd(stack);
    MatchNoArgs(stack);
    MatchArg(stack);
    MatchCommaArg(stack);
    MatchPredicate(stack);
    MatchWeightedDefinition(stack);
    MatchDefinition(stack);
  }

  lemma {:induction false} StepIsCascadeOnFloat(stack: seq<Sym>, input: seq<Token>, typectx: bool)
    requires stack != [] && stack[|stack| - 1].Float?
    ensures Step(stack, input, typectx) == Cascade(stack, input, typectx)
  {
    MatchDefine(stack);
    MatchColon(stack);
    MatchLBrack(stack);
    MatchTypeName(stack);
    MatchParenType(stack);
    MatchMissingLeft(stack);
    MatchMissingRight(stack);
    MatchLastWeight(stack);
    MatchDefaultWeight(stack);
    MatchMoreWeights(stack);
    MatchAbstraction(stack);
    MatchAnd(stack);
    MatchNoArgs(stack);
    MatchArg(stack);
    MatchCommaArg(stack);
    MatchPredicate(stack);
    MatchWeightedDefinition(stack);
    MatchDefinition(stack);
  }

  lemma {:induction false} StepIsCascadeOnProbabilityRelation(stack: seq<Sym>, input: seq<Token>, typectx: bool)
    requires stack != [] && stack[|stack| - 1].ProbabilityRelation?
    ensures Step(stack, input, typectx) == Cascade(stack, input, typectx)
  {
    MatchDefine(stack);
    MatchColon(stack);
    MatchLBrack(stack);
    MatchTypeName(stack);
    MatchParenType(stack);
    MatchMissingLeft(stack);
    MatchMissingRight(stack);
    MatchLastWeight(stack);
    MatchDefaultWeight(stack);
    MatchMoreWeights(stack);
    MatchAbstraction(stack);
    MatchAnd(stack);
    MatchNoArgs(stack);
    MatchArg(stack);
    MatchCommaArg(stack);
    MatchPredicate(stack);
    MatchWeightedDefinition(stack);
    MatchDefinition(stack);
  }

  /** The stream of definitions the parse loop yields from `stack`, with `input`
      the lookahead followed by the unread tokens. `tolerant` selects how a guarded
      shift (after `:=`, `:` or `[`) meets the end of the stream: as written it reads
      past the end and fails; the tolerant reading ends the stream there as the
      generic shift does. */
  function Run(stack: seq<Sym>, input: seq<Token>, typectx: bool, tolerant: bool)
    : Emitted<Definition, ParseError>
    decreases |input|, |stack|, TopWeight(stack)
  {
    match Step(stack, input, typectx)
    case ShiftGuarded(ctx) =>
      if input == [] then Failed(if tolerant then IncompleteParse else StreamEnded)
      else if |input| == 1 && !tolerant then Failed(StreamEnded)
      else Run(stack + [Lift(input[0])], input[1..], ctx, tolerant)
    case Reduce(s) => Run(s, input, typectx, tolerant)
    case Yield(d, s) => Prepend([d], Run(s, input, typectx, tolerant))
    case Shift =>
      if input == [] then (if stack == [] then Done() else Failed(IncompleteParse))
      else Run(stack + [Lift(input[0])], input[1..], typectx, tolerant)
  }

  /** One unfolding of `Run`, one case per kind of action. */
  lemma {:induction false} RunUnfolds(stack: seq<Sym>, input: seq<Token>, typectx: bool, tolerant: bool)
    ensures Step(stack, input, typectx).ShiftGuarded? && |input| < 2 && !tolerant ==>
      Run(stack, input, typectx, tolerant) == Failed(StreamEnded)
    ensures Step(stack, input, typectx).ShiftGuarded? && input == [] && tolerant ==>
      Run(stack, input, typectx, tolerant) == Failed(IncompleteParse)
    ensures Step(stack, input, typectx).ShiftGuarded? && |input| == 1 && tolerant ==>
      Run(stack, input, typectx, tolerant) ==
        Run(stack + [Lift(input[0])], [], Step(stack, input, typectx).typectx, tolerant)
    ensures Step(stack, input, typectx).ShiftGuarded? && |input| >= 2 ==>
      Run(stack, input, typectx, tolerant) ==
        Run(stack + [Lift(input[0])], input[1..], Step(stack, input, typectx).typectx, tolerant)
    ensures Step(stack, input, typectx).Reduce? ==>
      Run(stack, input, typectx, tolerant) ==
        Run(Step(stack, input, typectx).stack, input, typectx, tolerant)
    ensures Step(stack, input, typectx).Yield? ==>
      Run(stack, input, typectx, tolerant) ==
        Prepend([Step(stack, input, typectx).def],
                Run(Step(stack, input, typectx).stack, input, typectx, tolerant))
    ensures Step(stack, input, typectx).Shift? && input == [] ==>
      Run(stack, input, typectx, tolerant) ==
        (if stack == [] then Done() else Failed(IncompleteParse))
    ensures Step(stack, input, typectx).Shift? && input != [] ==>
      Run(stack, input, typectx, tolerant) ==
        Run(stack + [Lift(input[0])], input[1..], typectx, tolerant)
  {
  }

  /** What `parse(tokens)` yields. As written, reading the first lookahead fails on
      empty input; the tolerant reading yields nothing. */
  function Parsed(tokens: seq<Token>, tolerant: bool): Emitted<Definition, ParseError> {
    if tokens == [] then (if tolerant then Done() else Failed(StreamEnded))
    else Run([], tokens, false, tolerant)
  }

  function Input(lookahead: Option<Token>, rest: seq<Token>): seq<Token> {
    if lookahead.None? then [] else [lookahead.value] + rest
  }

  /** Reading the next token moves the lookahead one place along the input. */
  lemma {:induction false} Advance(lookahead: Option<Token>, rest: seq<Token>)
    requires lookahead.Some?
    ensures Input(lookahead, rest)[0] == lookahead.value
    ensures rest == [] ==> Input(lookahead, rest)[1..] == Input(None, [])
    ensures rest != [] ==> Input(lookahead, rest)[1..] == Input(Some(rest[0]), rest[1..])
  {
  }

  /** The parse loop itself: each iteration applies the first rule of `Step` that
      fires. `lookahead` is None once the stream is exhausted. With `tolerant` false
      this is the loop as written; with `tolerant` true a guarded shift at the end
      of the stream ends it like the generic shift does. */
  method Parse(tokens: seq<Token>, tolerant: bool) returns (out: Emitted<Definition, ParseError>)
    ensures out == Parsed(tokens, tolerant)
  {
    if tokens == [] {
      return if tolerant then Done() else Failed(StreamEnded);
    }
    var defs: seq<Definition> := [];
    var stack: seq<Sym> := [];
    var lookahead: Option<Token> := Some(tokens[0]);
    var rest := tokens[1..];
    var typectx := false;
    while true
      invariant lookahead.None? ==> rest == []
      invariant Parsed(tokens, tolerant) == Prepend(defs, Run(stack, Input(lookahead, rest), typectx, tolerant))
      decreases |Input(lookahead, rest)|, |stack|, TopWeight(stack)
    {
      var input := Input(lookahead, rest);
      var action := Step(stack, input, typectx);
      RunUnfolds(stack, input, typectx, tolerant);
      match action
      case ShiftGuarded(ctx) =>
        typectx := ctx;
        if lookahead.None? {
          return Prepend(defs, Failed(if tolerant then IncompleteParse else StreamEnded));
        }
        if rest == [] && !tolerant {
          // the shift reads past the end of the stream
          return Prepend(defs, Failed(StreamEnded));
        }
        Advance(lookahead, rest);
        stack := stack + [Lift(lookahead.value)];
        if rest == [] {
          lookahead := None;
        } else {
          lookahead, rest := Some(rest[0]), rest[1..];
        }
      case Reduce(s) =>
        stack := s;
      case Yield(d, s) =>
        PrependTwice(defs, [d], Run(s, input, typectx, tolerant));
        defs, stack := defs + [d], s;
      case Shift =>
        if lookahead.None? {
          break;
        }
        Advance(lookahead, rest);
        stack := stack + [Lift(lookahead.value)];
        if rest == [] {
          lookahead := None;
        } else {
          lookahead, rest := Some(rest[0]), rest[1..];
        }
    }
    if stack != [] {
      return Prepend(defs, Failed(IncompleteParse));
    }
    return Prepend(defs, Done());
  }
}
