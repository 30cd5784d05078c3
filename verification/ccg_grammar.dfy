/** Grammar text in token form, and what the parse loop of robiphora/ccg.py makes
    of it: every lexicon entry written in the grammar notation reads back as the
    `Definition` it denotes. */
module CcgGrammar {
  import opened Outcomes
  import opened CcgTerms
  import opened CcgParse
  import opened CcgMoves

  // ---------------------------------------------------------------- types

  /** A type as written: slashes associate to the left, so the result side is
      written bare and a compound missing argument is parenthesised. */
  function TypeTokens(t: Type): seq<Token>
    decreases t, 0
  {
    match t
    case Type(n) => [NameTok(n)]
    case TypeMissingLeft(l, m) => TypeTokens(l) + [Ctl(Whack)] + MissingTokens(m)
    case TypeMissingRight(l, m) => TypeTokens(l) + [Ctl(Slash)] + MissingTokens(m)
  }

  function MissingTokens(m: Type): seq<Token>
    decreases m, 1
  {
    if m.Type? then [NameTok(m.name)] else [Ctl(LParen)] + TypeTokens(m) + [Ctl(RParen)]
  }

  /** A type after `:=` or `(` reads back as that type, whatever follows it. */
  lemma {:induction false} ParseType(below: seq<Sym>, t: Type, rest: seq<Token>, typectx: bool,
                                     tolerant: bool)
    requires below != [] && below[|below| - 1] in {CtlSym(Define), CtlSym(LParen)}
    requires below[|below| - 1] == CtlSym(LParen) ==> typectx
    requires rest != []
    ensures Run(below, TypeTokens(t) + rest, typectx, tolerant)
         == Run(below + [TypeSym(t)], rest, true, tolerant)
    decreases t, 2
  {
    match t
    case Type(n) =>
      ParseAtomicType(below, n, rest, typectx, tolerant);
    case TypeMissingLeft(l, m) =>
      ParseSlashType(below, l, Whack, m, rest, typectx, tolerant);
    case TypeMissingRight(l, m) =>
      ParseSlashType(below, l, Slash, m, rest, typectx, tolerant);
  }

  lemma {:induction false} ParseAtomicType(below: seq<Sym>, n: string, rest: seq<Token>, typectx: bool, tolerant: bool)
    requires below != [] && below[|below| - 1].CtlSym?
    requires below[|below| - 1].c in {Define, LParen, Whack, Slash}
    requires below[|below| - 1].c != Define ==> typectx
    requires rest != []
    ensures Run(below, [NameTok(n)] + rest, typectx, tolerant)
         == Run(below + [TypeSym(Type(n))], rest, true, tolerant)
  {
    ShiftAfterControl(below, NameTok(n), rest, typectx, tolerant);
    ReduceTypeName(below, n, rest, tolerant);
  }

  lemma {:induction false} ParseSlashType(below: seq<Sym>, l: Type, slash: Control, m: Type,
                                          rest: seq<Token>, typectx: bool, tolerant: bool)
    requires below != [] && below[|below| - 1] in {CtlSym(Define), CtlSym(LParen)}
    requires below[|below| - 1] == CtlSym(LParen) ==> typectx
    requires slash == Whack || slash == Slash
    requires rest != []
    ensures Run(below, TypeTokens(l) + [Ctl(slash)] + MissingTokens(m) + rest, typectx, tolerant)
         == Run(below + [TypeSym(Slashed(l, slash, m))], rest, true, tolerant)
    decreases Slashed(l, slash, m), 1
  {
    var after := [Ctl(slash)] + (MissingTokens(m) + rest);
    calc {
      Run(below, TypeTokens(l) + [Ctl(slash)] + MissingTokens(m) + rest, typectx, tolerant);
    == { assert TypeTokens(l) + [Ctl(slash)] + MissingTokens(m) + rest == TypeTokens(l) + after; }
      Run(below, TypeTokens(l) + after, typectx, tolerant);
    == { ParseType(below, l, after, typectx, tolerant); }
      Run(below + [TypeSym(l)], after, true, tolerant);
    == { ReadMissing(below, l, slash, m, rest, tolerant); }
      Run(below + [TypeSym(Slashed(l, slash, m))], rest, true, tolerant);
    }
  }

  /** After the result side of a slash type: the slash, the missing argument, and
      the reduction to the slash type. */
  lemma {:induction false} ReadMissing(below: seq<Sym>, l: Type, slash: Control, m: Type,
                                       rest: seq<Token>, tolerant: bool)
    requires below != [] && below[|below| - 1] in {CtlSym(Define), CtlSym(LParen)}
    requires slash == Whack || slash == Slash
    requires rest != []
    ensures Run(below + [TypeSym(l)], [Ctl(slash)] + (MissingTokens(m) + rest), true, tolerant)
         == Run(below + [TypeSym(Slashed(l, slash, m))], rest, true, tolerant)
    decreases Slashed(l, slash, m), 0
  {
    var s2 := below + [TypeSym(l), CtlSym(slash)];
    calc {
      Run(below + [TypeSym(l)], [Ctl(slash)] + (MissingTokens(m) + rest), true, tolerant);
    == { ShiftAfterType(below, l, Ctl(slash), MissingTokens(m) + rest, tolerant); }
      Run(s2, MissingTokens(m) + rest, true, tolerant);
    == { ParseMissing(s2, m, rest, tolerant); }
      Run(s2 + [TypeSym(m)], rest, true, tolerant);
    == { assert s2 + [TypeSym(m)] == below + [TypeSym(l), CtlSym(slash), TypeSym(m)];
         ReduceSlash(below, l, slash, m, rest, tolerant); }
      Run(below + [TypeSym(Slashed(l, slash, m))], rest, true, tolerant);
    }
  }

  /** A missing argument after a slash reads back as that type. */
  lemma {:induction false} ParseMissing(below: seq<Sym>, m: Type, rest: seq<Token>, tolerant: bool)
    requires below != [] && below[|below| - 1] in {CtlSym(Whack), CtlSym(Slash)}
    requires rest != []
    ensures Run(below, MissingTokens(m) + rest, true, tolerant)
         == Run(below + [TypeSym(m)], rest, true, tolerant)
    decreases m, 4
  {
    if m.Type? {
      ParseAtomicType(below, m.name, rest, true, tolerant);
    } else {
      assert MissingTokens(m) + rest == [Ctl(LParen)] + (TypeTokens(m) + ([Ctl(RParen)] + rest));
      ParseParenType(below, m, rest, tolerant);
    }
  }

  lemma {:induction false} ParseParenType(below: seq<Sym>, m: Type, rest: seq<Token>, tolerant: bool)
    requires below != [] && below[|below| - 1] in {CtlSym(Whack), CtlSym(Slash)}
    requires rest != []
    ensures Run(below, [Ctl(LParen)] + (TypeTokens(m) + ([Ctl(RParen)] + rest)), true, tolerant)
         == Run(below + [TypeSym(m)], rest, true, tolerant)
    decreases m, 3
  {
    var front := below + [CtlSym(LParen)];
    calc {
      Run(below, [Ctl(LParen)] + (TypeTokens(m) + ([Ctl(RParen)] + rest)), true, tolerant);
    == { ShiftAfterControl(below, Ctl(LParen), TypeTokens(m) + ([Ctl(RParen)] + rest), true, tolerant); }
      Run(front, TypeTokens(m) + ([Ctl(RParen)] + rest), true, tolerant);
    == { ParseType(front, m, [Ctl(RParen)] + rest, true, tolerant); }
      Run(front + [TypeSym(m)], [Ctl(RParen)] + rest, true, tolerant);
    == { ShiftAfterType(front, m, Ctl(RParen), rest, tolerant); }
      Run(front + [TypeSym(m), CtlSym(RParen)], rest, true, tolerant);
    == { assert front + [TypeSym(m), CtlSym(RParen)]
             == below + [CtlSym(LParen), TypeSym(m), CtlSym(RParen)];
         ReduceParenType(below, m, rest, tolerant); }
      Run(below + [TypeSym(m)], rest, true, tolerant);
    }
  }

  /** `S\N/N` is read as `(S\N)/N`: the printed form of that type carries no
      parentheses, and it reads back as the left-grouped type. */
  lemma {:induction false} SlashesGroupLeft(below: seq<Sym>, s: string, n: string, rest: seq<Token>, tolerant: bool)
    requires below != [] && below[|below| - 1] == CtlSym(Define) && rest != []
    ensures Run(below, [NameTok(s), Ctl(Whack), NameTok(n), Ctl(Slash), NameTok(n)] + rest,
                false, tolerant)
         == Run(below + [TypeSym(TypeMissingRight(TypeMissingLeft(Type(s), Type(n)), Type(n)))],
                rest, true, tolerant)
  {
    var l := TypeMissingLeft(Type(s), Type(n));
    var t := TypeMissingRight(l, Type(n));
    assert TypeTokens(l) == [NameTok(s), Ctl(Whack), NameTok(n)];
    assert TypeTokens(t) == [NameTok(s), Ctl(Whack), NameTok(n), Ctl(Slash), NameTok(n)];
    ParseType(below, t, rest, false, tolerant);
  }

  // --------------------------------------------------------- weight tables

  /** The last entry of a weight table: a named weight, or a bare default weight. */
  datatype LastWeight = LastEntry(word: string, weight: real) | Fallback(weight: real)

  /** The inside of `[ ... ]`: `n p ,` entries, then the last entry, then `]`. */
  function WeightTokens(entries: seq<(string, real)>, last: LastWeight): seq<Token> {
    if entries == [] then
      match last
      case LastEntry(w, p) => [NameTok(w), NumTok(p), Ctl(RBrack)]
      case Fallback(p) => [NumTok(p), Ctl(RBrack)]
    else [NameTok(entries[0].0), NumTok(entries[0].1), Ctl(Comma)] + WeightTokens(entries[1..], last)
  }

  /** The table the reductions build: the last entry first, then the earlier
      entries inserted from right to left. */
  function Table(entries: seq<(string, real)>, last: LastWeight): map<string, real> {
    if entries == [] then (if last.LastEntry? then map[last.word := last.weight] else map[])
    else Table(entries[1..], last)[entries[0].0 := entries[0].1]
  }

  /** A bare last weight is the default; otherwise the default is 1.0. */
  function DefaultOf(last: LastWeight): real {
    if last.Fallback? then last.weight else 1.0
  }

  function TableEntries(below: seq<Sym>, entries: seq<(string, real)>, last: LastWeight): seq<Sym> {
    below + [ProbabilityRelation(Table(entries, last)), DefaultProbability(DefaultOf(last))]
  }

  /** A weight table after `[` (or, inside it, after `,`) reads back as its
      relation and default, and leaves type context. */
  lemma {:induction false} ParseWeights(below: seq<Sym>, entries: seq<(string, real)>,
                                        last: LastWeight, rest: seq<Token>, typectx: bool,
                                        tolerant: bool)
    requires below != [] && below[|below| - 1] in {CtlSym(LBrack), CtlSym(Comma)}
    requires below[|below| - 1] == CtlSym(Comma) ==> !typectx
    requires rest != []
    ensures Run(below, WeightTokens(entries, last) + rest, typectx, tolerant)
         == Run(TableEntries(below, entries, last), rest, false, tolerant)
    decreases |entries|, 1
  {
    if entries == [] {
      ParseLastWeight(below, last, rest, typectx, tolerant);
    } else {
      ParseMoreWeights(below, entries, last, rest, typectx, tolerant);
    }
  }

  lemma {:induction false} ParseLastWeight(below: seq<Sym>, last: LastWeight, rest: seq<Token>, typectx: bool,
                        tolerant: bool)
    requires below != [] && below[|below| - 1] in {CtlSym(LBrack), CtlSym(Comma)}
    requires below[|below| - 1] == CtlSym(Comma) ==> !typectx
    requires rest != []
    ensures Run(below, WeightTokens([], last) + rest, typectx, tolerant)
         == Run(TableEntries(below, [], last), rest, false, tolerant)
  {
    match last
    case LastEntry(w, p) =>
      calc {
        Run(below, WeightTokens([], last) + rest, typectx, tolerant);
      == { assert WeightTokens([], last) + rest == [NameTok(w)] + ([NumTok(p)] + ([Ctl(RBrack)] + rest));
           ShiftAfterControl(below, NameTok(w), [NumTok(p)] + ([Ctl(RBrack)] + rest), typectx, tolerant); }
        Run(below + [Prod(Name(w))], [NumTok(p)] + ([Ctl(RBrack)] + rest), false, tolerant);
      == { ShiftAfterTableName(below, w, NumTok(p), [Ctl(RBrack)] + rest, tolerant); }
        Run(below + [Prod(Name(w)), Float(p)], [Ctl(RBrack)] + rest, false, tolerant);
      == { assert below + [Prod(Name(w)), Float(p)] == below + [Prod(Name(w))] + [Float(p)];
           ShiftAfterNumber(below + [Prod(Name(w))], p, Ctl(RBrack), rest, tolerant);
           assert below + [Prod(Name(w))] + [Float(p), CtlSym(RBrack)]
               == below + [Prod(Name(w)), Float(p), CtlSym(RBrack)]; }
        Run(below + [Prod(Name(w)), Float(p), CtlSym(RBrack)], rest, false, tolerant);
      == { ReduceLastWeight(below, w, p, rest, tolerant); }
        Run(TableEntries(below, [], last), rest, false, tolerant);
      }
    case Fallback(p) =>
      calc {
        Run(below, WeightTokens([], last) + rest, typectx, tolerant);
      == { assert WeightTokens([], last) + rest == [NumTok(p)] + ([Ctl(RBrack)] + rest);
           ShiftAfterControl(below, NumTok(p), [Ctl(RBrack)] + rest, typectx, tolerant); }
        Run(below + [Float(p)], [Ctl(RBrack)] + rest, false, tolerant);
      == { ShiftAfterNumber(below, p, Ctl(RBrack), rest, tolerant); }
        Run(below + [Float(p), CtlSym(RBrack)], rest, false, tolerant);
      == { ReduceDefaultWeight(below, p, rest, tolerant); }
        Run(TableEntries(below, [], last), rest, false, tolerant);
      }
  }

  /** One `n p ,` entry of a weight table, shifted. */
  lemma {:induction false} ShiftWeightEntry(below: seq<Sym>, w: string, p: real, after: seq<Token>, typectx: bool,
                         tolerant: bool)
    requires below != [] && below[|below| - 1] in {CtlSym(LBrack), CtlSym(Comma)}
    requires below[|below| - 1] == CtlSym(Comma) ==> !typectx
    ensures Run(below, [NameTok(w)] + ([NumTok(p)] + ([Ctl(Comma)] + after)), typectx, tolerant)
         == Run(below + [Prod(Name(w)), Float(p), CtlSym(Comma)], after, false, tolerant)
  {
    calc {
      Run(below, [NameTok(w)] + ([NumTok(p)] + ([Ctl(Comma)] + after)), typectx, tolerant);
    == { ShiftAfterControl(below, NameTok(w), [NumTok(p)] + ([Ctl(Comma)] + after), typectx, tolerant); }
      Run(below + [Prod(Name(w))], [NumTok(p)] + ([Ctl(Comma)] + after), false, tolerant);
    == { ShiftAfterTableName(below, w, NumTok(p), [Ctl(Comma)] + after, tolerant); }
      Run(below + [Prod(Name(w)), Float(p)], [Ctl(Comma)] + after, false, tolerant);
    == { assert below + [Prod(Name(w)), Float(p)] == below + [Prod(Name(w))] + [Float(p)];
         ShiftAfterNumber(below + [Prod(Name(w))], p, Ctl(Comma), after, tolerant);
         assert below + [Prod(Name(w))] + [Float(p), CtlSym(Comma)]
             == below + [Prod(Name(w)), Float(p), CtlSym(Comma)]; }
      Run(below + [Prod(Name(w)), Float(p), CtlSym(Comma)], after, false, tolerant);
    }
  }

  lemma {:induction false} ParseMoreWeights(below: seq<Sym>, entries: seq<(string, real)>,
                                            last: LastWeight, rest: seq<Token>, typectx: bool,
                                            tolerant: bool)
    requires below != [] && below[|below| - 1] in {CtlSym(LBrack), CtlSym(Comma)}
    requires below[|below| - 1] == CtlSym(Comma) ==> !typectx
    requires rest != [] && entries != []
    ensures Run(below, WeightTokens(entries, last) + rest, typectx, tolerant)
         == Run(TableEntries(below, entries, last), rest, false, tolerant)
    decreases |entries|, 0
  {
    var (w, p) := entries[0];
    var after := WeightTokens(entries[1..], last) + rest;
    var s3 := below + [Prod(Name(w)), Float(p), CtlSym(Comma)];
    calc {
      Run(below, WeightTokens(entries, last) + rest, typectx, tolerant);
    == { assert WeightTokens(entries, last) + rest
             == [NameTok(w)] + ([NumTok(p)] + ([Ctl(Comma)] + after));
         ShiftWeightEntry(below, w, p, after, typectx, tolerant); }
      Run(s3, after, false, tolerant);
    == { ParseWeights(s3, entries[1..], last, rest, false, tolerant); }
      Run(TableEntries(s3, entries[1..], last), rest, false, tolerant);
    == { assert TableEntries(s3, entries[1..], last)
             == below + [Prod(Name(w)), Float(p), CtlSym(Comma),
                         ProbabilityRelation(Table(entries[1..], last)),
                         DefaultProbability(DefaultOf(last))];
         ReduceMoreWeights(below, w, p, Table(entries[1..], last), DefaultOf(last), rest, tolerant); }
      Run(TableEntries(below, entries, last), rest, false, tolerant);
    }
  }

  /** Which weight a name gets: the leftmost entry that names it wins. */
  lemma {:induction false} TableLeftmostWins(entries: seq<(string, real)>, last: LastWeight, i: nat)
    requires i < |entries|
    requires forall j :: 0 <= j < i ==> entries[j].0 != entries[i].0
    ensures entries[i].0 in Table(entries, last)
    ensures Table(entries, last)[entries[i].0] == entries[i].1
    decreases i
  {
    if i > 0 {
      var tail := entries[1..];
      assert tail[i - 1] == entries[i];
      forall j | 0 <= j < i - 1 ensures tail[j].0 != tail[i - 1].0 {
        assert tail[j] == entries[j + 1];
      }
      TableLeftmostWins(tail, last, i - 1);
    }
  }

  /** The names a table gives weights to are exactly those written in it. */
  lemma {:induction false} TableNames(entries: seq<(string, real)>, last: LastWeight, k: string)
    ensures k in Table(entries, last) <==>
      (exists i :: 0 <= i < |entries| && entries[i].0 == k) || (last.LastEntry? && last.word == k)
    decreases |entries|
  {
    if entries != [] {
      TableNames(entries[1..], last, k);
      if exists i :: 1 <= i < |entries| && entries[i].0 == k {
        var i :| 1 <= i < |entries| && entries[i].0 == k;
        assert entries[1..][i - 1] == entries[i];
      }
      if exists i :: 0 <= i < |entries[1..]| && entries[1..][i].0 == k {
        var i :| 0 <= i < |entries[1..]| && entries[1..][i].0 == k;
        assert entries[i + 1] == entries[1..][i];
      }
    }
  }

  /** The last entry's weight stands unless an earlier entry names the same word. */
  lemma {:induction false} TableLastEntry(entries: seq<(string, real)>, w: string, p: real)
    requires forall j :: 0 <= j < |entries| ==> entries[j].0 != w
    ensures w in Table(entries, LastEntry(w, p))
    ensures Table(entries, LastEntry(w, p))[w] == p
    decreases |entries|
  {
    if entries != [] {
      assert forall j :: 0 <= j < |entries[1..]| ==> entries[1..][j] == entries[j + 1];
      TableLastEntry(entries[1..], w, p);
      assert entries[0].0 != w;
    }
  }

  // ----------------------------------------------------------- productions

  /** The productions that can stand as predicate arguments or before `Λ`:
      names, and predicates over such arguments. */
  predicate ArgumentShape(p: Production) {
    match p
    case Name(_) => true
    case Predicate(_, args) => forall i :: 0 <= i < |args| ==> ArgumentShape(args[i])
    case _ => false
  }

  /** The productions the grammar notation writes without parentheses: an
      abstraction's body extends to the right, and `Λ` groups to the right. */
  predicate ProductionShape(p: Production) {
    match p
    case Abstraction(_, body) => ProductionShape(body)
    case And(l, r) => ArgumentShape(l) && ProductionShape(r)
    case _ => ArgumentShape(p)
  }

  function ProductionTokens(p: Production): seq<Token>
    decreases p, 1
  {
    match p
    case Name(w) => [NameTok(w)]
    case Abstraction(v, body) => [Ctl(Lambda), NameTok(v), Ctl(Dot)] + ProductionTokens(body)
    case Predicate(n, args) => [NameTok(n), Ctl(LParen)] + ArgumentTokens(p, 0) + [Ctl(RParen)]
    case And(l, r) => ProductionTokens(l) + [Ctl(AndOp)] + ProductionTokens(r)
  }

  /** The arguments of predicate `p` from the `i`-th on, separated by commas. */
  function ArgumentTokens(p: Production, i: nat): seq<Token>
    requires p.Predicate? && i <= |p.args|
    decreases p, 0, |p.args| - i
  {
    if i == |p.args| then []
    else if i + 1 == |p.args| then ProductionTokens(p.args[i])
    else ProductionTokens(p.args[i]) + [Ctl(Comma)] + ArgumentTokens(p, i + 1)
  }

  /** Shifted arguments on the stack: productions separated by commas. */
  function Spread(xs: seq<Production>): seq<Sym> {
    if xs == [] then []
    else if |xs| == 1 then [Prod(xs[0])]
    else [Prod(xs[0]), CtlSym(Comma)] + Spread(xs[1..])
  }

  lemma {:induction false} SpreadSnoc(xs: seq<Production>, x: Production)
    requires xs != []
    ensures Spread(xs + [x]) == Spread(xs) + [CtlSym(Comma), Prod(x)]
    decreases |xs|
  {
    if |xs| > 1 {
      assert (xs + [x])[1..] == xs[1..] + [x];
      SpreadSnoc(xs[1..], x);
    }
  }

  /** The entries after which a production is read: a definition's `:`, an
      abstraction's `.` and a conjunction's `Λ`; arguments also after `(` and `,`. */
  predicate OpensProduction(below: seq<Sym>) {
    below != [] && below[|below| - 1] in {CtlSym(Colon), CtlSym(Dot), CtlSym(AndOp)}
  }

  predicate OpensArgument(below: seq<Sym>) {
    OpensProduction(below) || (below != [] && below[|below| - 1] in {CtlSym(LParen), CtlSym(Comma)})
  }

  /** The end of the stream right after a production's first token only matters
      after `:`, where the shift is guarded. */
  predicate EndsSafely(below: seq<Sym>, p: Production, rest: seq<Token>, tolerant: bool)
    requires below != []
  {
    below[|below| - 1] == CtlSym(Colon) && p.Name? ==> rest != [] || tolerant
  }

  lemma {:induction false} ParseArgument(below: seq<Sym>, p: Production, rest: seq<Token>,
                                         typectx: bool, tolerant: bool)
    requires OpensArgument(below) && ArgumentShape(p)
    requires typectx ==> below[|below| - 1] == CtlSym(Colon)
    requires EndsSafely(below, p, rest, tolerant)
    ensures Run(below, ProductionTokens(p) + rest, typectx, tolerant)
         == Run(below + [Prod(p)], rest, false, tolerant)
    decreases p, 2
  {
    match p
    case Name(w) =>
      ShiftAfterControl(below, NameTok(w), rest, typectx, tolerant);
    case Predicate(n, args) =>
      var inner := ArgumentTokens(p, 0) + ([Ctl(RParen)] + rest);
      calc {
        Run(below, ProductionTokens(p) + rest, typectx, tolerant);
      == { assert ProductionTokens(p) + rest == [NameTok(n)] + ([Ctl(LParen)] + inner);
           ShiftAfterControl(below, NameTok(n), [Ctl(LParen)] + inner, typectx, tolerant); }
        Run(below + [Prod(Name(n))], [Ctl(LParen)] + inner, false, tolerant);
      == { ShiftBeforeControl(below, Name(n), LParen, inner, tolerant); }
        Run(below + [Prod(Name(n)), CtlSym(LParen)], inner, false, tolerant);
      == { ParseArgumentList(below, n, args, rest, tolerant); }
        Run(below + [Prod(p)], rest, false, tolerant);
      }
  }

  /** The argument list of a predicate, read after its name and `(`. */
  lemma {:induction false} ParseArgumentList(below: seq<Sym>, n: string, args: seq<Production>,
                                             rest: seq<Token>, tolerant: bool)
    requires ArgumentShape(Predicate(n, args))
    ensures Run(below + [Prod(Name(n)), CtlSym(LParen)],
                ArgumentTokens(Predicate(n, args), 0) + ([Ctl(RParen)] + rest), false, tolerant)
         == Run(below + [Prod(Predicate(n, args))], rest, false, tolerant)
    decreases Predicate(n, args), 1
  {
    var p := Predicate(n, args);
    var front := below + [Prod(Name(n)), CtlSym(LParen)];
    if args == [] {
      calc {
        Run(front, ArgumentTokens(p, 0) + ([Ctl(RParen)] + rest), false, tolerant);
      == { assert ArgumentTokens(p, 0) + ([Ctl(RParen)] + rest) == [Ctl(RParen)] + rest;
           ShiftAfterControl(front, Ctl(RParen), rest, false, tolerant); }
        Run(front + [CtlSym(RParen)], rest, false, tolerant);
      == { ReduceNoArgs(front, rest, tolerant); }
        Run(front + [PartialPredicate([])], rest, false, tolerant);
      == { assert front + [PartialPredicate([])]
               == below + [Prod(Name(n)), CtlSym(LParen), PartialPredicate([])];
           ReducePredicate(below, n, [], rest, tolerant); }
        Run(below + [Prod(p)], rest, false, tolerant);
      }
    } else {
      calc {
        Run(front, ArgumentTokens(p, 0) + ([Ctl(RParen)] + rest), false, tolerant);
      == { ParseArguments(front, p, 0, rest, tolerant); assert args[0..] == args; }
        Run(front + Spread(args) + [CtlSym(RParen)], rest, false, tolerant);
      == { CloseArguments(front, args, rest, tolerant); }
        Run(front + [PartialPredicate(Reversed(args))], rest, false, tolerant);
      == { assert front + [PartialPredicate(Reversed(args))]
               == below + [Prod(Name(n)), CtlSym(LParen), PartialPredicate(Reversed(args))];
           ReducePredicate(below, n, Reversed(args), rest, tolerant);
           ReversedInvolution(args); }
        Run(below + [Prod(p)], rest, false, tolerant);
      }
    }
  }

  /** Shifting the arguments: each is read back, then its comma or the `)`. */
  lemma {:induction false} ParseArguments(below: seq<Sym>, p: Production, i: nat, rest: seq<Token>,
                                          tolerant: bool)
    requires below != [] && below[|below| - 1] in {CtlSym(LParen), CtlSym(Comma)}
    requires p.Predicate? && ArgumentShape(p) && i < |p.args|
    ensures Run(below, ArgumentTokens(p, i) + ([Ctl(RParen)] + rest), false, tolerant)
         == Run(below + Spread(p.args[i..]) + [CtlSym(RParen)], rest, false, tolerant)
    decreases p, 0, |p.args| - i, 1
  {
    if i + 1 == |p.args| {
      ParseLastArgument(below, p, i, rest, tolerant);
    } else {
      ParseNextArgument(below, p, i, rest, tolerant);
    }
  }

  lemma {:induction false} ParseLastArgument(below: seq<Sym>, p: Production, i: nat,
                                             rest: seq<Token>, tolerant: bool)
    requires below != [] && below[|below| - 1] in {CtlSym(LParen), CtlSym(Comma)}
    requires p.Predicate? && ArgumentShape(p) && i + 1 == |p.args|
    ensures Run(below, ArgumentTokens(p, i) + ([Ctl(RParen)] + rest), false, tolerant)
         == Run(below + Spread(p.args[i..]) + [CtlSym(RParen)], rest, false, tolerant)
    decreases p, 0, |p.args| - i, 0
  {
    var a := p.args[i];
    calc {
      Run(below, ArgumentTokens(p, i) + ([Ctl(RParen)] + rest), false, tolerant);
    == { assert ArgumentTokens(p, i) == ProductionTokens(a);
         ParseArgument(below, a, [Ctl(RParen)] + rest, false, tolerant); }
      Run(below + [Prod(a)], [Ctl(RParen)] + rest, false, tolerant);
    == { ShiftBeforeControl(below, a, RParen, rest, tolerant); }
      Run(below + [Prod(a), CtlSym(RParen)], rest, false, tolerant);
    == { assert p.args[i..] == [a];
         assert below + Spread([a]) + [CtlSym(RParen)] == below + [Prod(a), CtlSym(RParen)]; }
      Run(below + Spread(p.args[i..]) + [CtlSym(RParen)], rest, false, tolerant);
    }
  }

  lemma {:induction false} ParseNextArgument(below: seq<Sym>, p: Production, i: nat,
                                             rest: seq<Token>, tolerant: bool)
    requires below != [] && below[|below| - 1] in {CtlSym(LParen), CtlSym(Comma)}
    requires p.Predicate? && ArgumentShape(p) && i + 1 < |p.args|
    ensures Run(below, ArgumentTokens(p, i) + ([Ctl(RParen)] + rest), false, tolerant)
         == Run(below + Spread(p.args[i..]) + [CtlSym(RParen)], rest, false, tolerant)
    decreases p, 0, |p.args| - i, 0
  {
    var a := p.args[i];
    var later := ArgumentTokens(p, i + 1) + ([Ctl(RParen)] + rest);
    var s2 := below + [Prod(a), CtlSym(Comma)];
    calc {
      Run(below, ArgumentTokens(p, i) + ([Ctl(RParen)] + rest), false, tolerant);
    == { assert ArgumentTokens(p, i) + ([Ctl(RParen)] + rest)
             == ProductionTokens(a) + ([Ctl(Comma)] + later);
         ParseArgument(below, a, [Ctl(Comma)] + later, false, tolerant); }
      Run(below + [Prod(a)], [Ctl(Comma)] + later, false, tolerant);
    == { ShiftBeforeControl(below, a, Comma, later, tolerant); }
      Run(s2, later, false, tolerant);
    == { ParseArguments(s2, p, i + 1, rest, tolerant); }
      Run(s2 + Spread(p.args[i + 1..]) + [CtlSym(RParen)], rest, false, tolerant);
    == { assert p.args[i..][1..] == p.args[i + 1..];
         assert Spread(p.args[i..]) == [Prod(a), CtlSym(Comma)] + Spread(p.args[i + 1..]);
         assert s2 + Spread(p.args[i + 1..]) + [CtlSym(RParen)]
             == below + Spread(p.args[i..]) + [CtlSym(RParen)]; }
      Run(below + Spread(p.args[i..]) + [CtlSym(RParen)], rest, false, tolerant);
    }
  }

  lemma {:induction false} SpreadEndsInArgument(xs: seq<Production>)
    requires xs != []
    ensures Spread(xs) != [] && Spread(xs)[|Spread(xs)| - 1] == Prod(xs[|xs| - 1])
  {
    var k := |xs|;
    if k > 1 {
      assert xs == xs[..k - 1] + [xs[k - 1]];
      SpreadSnoc(xs[..k - 1], xs[k - 1]);
    }
  }

  /** Reducing the shifted arguments at `)`: the list collects them from the last
      to the first. */
  lemma {:induction false} CloseArguments(below: seq<Sym>, args: seq<Production>, rest: seq<Token>, tolerant: bool)
    requires args != []
    ensures Run(below + Spread(args) + [CtlSym(RParen)], rest, false, tolerant)
         == Run(below + [PartialPredicate(Reversed(args))], rest, false, tolerant)
  {
    var shifted := below + Spread(args);
    calc {
      Run(shifted + [CtlSym(RParen)], rest, false, tolerant);
    == { SpreadEndsInArgument(args);
         assert shifted[|shifted| - 1] == Spread(args)[|Spread(args)| - 1];
         ReduceNoArgs(shifted, rest, tolerant); }
      Run(shifted + [PartialPredicate([])], rest, false, tolerant);
    == { CollectArguments(below, args, [], rest, tolerant); }
      Run(below + [PartialPredicate([] + Reversed(args))], rest, false, tolerant);
    == { assert [] + Reversed(args) == Reversed(args); }
      Run(below + [PartialPredicate(Reversed(args))], rest, false, tolerant);
    }
  }

  lemma {:induction false} CollectArguments(below: seq<Sym>, xs: seq<Production>, acc: seq<Production>,
                         rest: seq<Token>, tolerant: bool)
    requires xs != []
    ensures Run(below + Spread(xs) + [PartialPredicate(acc)], rest, false, tolerant)
         == Run(below + [PartialPredicate(acc + Reversed(xs))], rest, false, tolerant)
  {
    var k := |xs|;
    var x := xs[k - 1];
    if k == 1 {
      calc {
        Run(below + Spread(xs) + [PartialPredicate(acc)], rest, false, tolerant);
      == { assert below + Spread(xs) + [PartialPredicate(acc)]
               == below + [Prod(x), PartialPredicate(acc)]; }
        Run(below + [Prod(x), PartialPredicate(acc)], rest, false, tolerant);
      == { ReduceArg(below, x, acc, rest, tolerant); }
        Run(below + [PartialPredicate(acc + [x])], rest, false, tolerant);
      == { assert Reversed(xs) == [x]; }
        Run(below + [PartialPredicate(acc + Reversed(xs))], rest, false, tolerant);
      }
    } else {
      var init := xs[..k - 1];
      var base := below + Spread(init) + [CtlSym(Comma)];
      calc {
        Run(below + Spread(xs) + [PartialPredicate(acc)], rest, false, tolerant);
      == { assert xs == init + [x];
           SpreadSnoc(init, x);
           assert below + Spread(xs) + [PartialPredicate(acc)]
               == base + [Prod(x), PartialPredicate(acc)]; }
        Run(base + [Prod(x), PartialPredicate(acc)], rest, false, tolerant);
      == { ReduceArg(base, x, acc, rest, tolerant); }
        Run(base + [PartialPredicate(acc + [x])], rest, false, tolerant);
      == { assert base + [PartialPredicate(acc + [x])]
               == below + Spread(init) + [CtlSym(Comma), PartialPredicate(acc + [x])];
           CloseCommaArguments(below, init, acc + [x], rest, tolerant); }
        Run(below + [PartialPredicate(acc + [x] + Reversed(init))], rest, false, tolerant);
      == { assert xs == init + [x];
           ReversedAppend(init, x);
           assert acc + [x] + Reversed(init) == acc + Reversed(xs); }
        Run(below + [PartialPredicate(acc + Reversed(xs))], rest, false, tolerant);
      }
    }
  }

  lemma {:induction false} CloseCommaArguments(below: seq<Sym>, xs: seq<Production>,
                                               acc: seq<Production>, rest: seq<Token>,
                                               tolerant: bool)
    requires xs != []
    ensures Run(below + Spread(xs) + [CtlSym(Comma), PartialPredicate(acc)], rest, false, tolerant)
         == Run(below + [PartialPredicate(acc + Reversed(xs))], rest, false, tolerant)
    decreases |xs|
  {
    var k := |xs|;
    var x := xs[k - 1];
    if k == 1 {
      calc {
        Run(below + Spread(xs) + [CtlSym(Comma), PartialPredicate(acc)], rest, false, tolerant);
      == { assert below + Spread(xs) + [CtlSym(Comma), PartialPredicate(acc)]
               == below + [Prod(x), CtlSym(Comma), PartialPredicate(acc)]; }
        Run(below + [Prod(x), CtlSym(Comma), PartialPredicate(acc)], rest, false, tolerant);
      == { ReduceCommaArg(below, x, acc, rest, tolerant); }
        Run(below + [PartialPredicate(acc + [x])], rest, false, tolerant);
      == { assert Reversed(xs) == [x]; }
        Run(below + [PartialPredicate(acc + Reversed(xs))], rest, false, tolerant);
      }
    } else {
      var init := xs[..k - 1];
      var base := below + Spread(init) + [CtlSym(Comma)];
      calc {
        Run(below + Spread(xs) + [CtlSym(Comma), PartialPredicate(acc)], rest, false, tolerant);
      == { assert xs == init + [x];
           SpreadSnoc(init, x);
           assert below + Spread(xs) + [CtlSym(Comma), PartialPredicate(acc)]
               == base + [Prod(x), CtlSym(Comma), PartialPredicate(acc)]; }
        Run(base + [Prod(x), CtlSym(Comma), PartialPredicate(acc)], rest, false, tolerant);
      == { ReduceCommaArg(base, x, acc, rest, tolerant); }
        Run(base + [PartialPredicate(acc + [x])], rest, false, tolerant);
      == { assert base + [PartialPredicate(acc + [x])]
               == below + Spread(init) + [CtlSym(Comma), PartialPredicate(acc + [x])];
           CloseCommaArguments(below, init, acc + [x], rest, tolerant); }
        Run(below + [PartialPredicate(acc + [x] + Reversed(init))], rest, false, tolerant);
      == { assert xs == init + [x];
           ReversedAppend(init, x);
           assert acc + [x] + Reversed(init) == acc + Reversed(xs); }
        Run(below + [PartialPredicate(acc + Reversed(xs))], rest, false, tolerant);
      }
    }
  }

  /** A production after `:`, `.` or `Λ` reads back as itself when the token after
      it is not a control token. */
  lemma {:induction false} ParseProduction(below: seq<Sym>, p: Production, rest: seq<Token>,
                                           typectx: bool, tolerant: bool)
    requires OpensProduction(below) && ProductionShape(p) && Calm(rest)
    requires typectx ==> below[|below| - 1] == CtlSym(Colon)
    requires EndsSafely(below, p, rest, tolerant)
    ensures Run(below, ProductionTokens(p) + rest, typectx, tolerant)
         == Run(below + [Prod(p)], rest, false, tolerant)
    decreases p, 4
  {
    match p
    case Abstraction(v, body) =>
      ParseAbstraction(below, v, body, rest, typectx, tolerant);
    case And(l, r) =>
      ParseConjunction(below, l, r, rest, typectx, tolerant);
    case _ =>
      ParseArgument(below, p, rest, typectx, tolerant);
  }

  lemma {:induction false} ParseAbstraction(below: seq<Sym>, v: string, body: Production,
                                            rest: seq<Token>, typectx: bool, tolerant: bool)
    requires OpensProduction(below) && ProductionShape(body) && Calm(rest)
    requires typectx ==> below[|below| - 1] == CtlSym(Colon)
    ensures Run(below, ProductionTokens(Abstraction(v, body)) + rest, typectx, tolerant)
         == Run(below + [Prod(Abstraction(v, body))], rest, false, tolerant)
    decreases Abstraction(v, body), 3
  {
    var bodyIn := ProductionTokens(body) + rest;
    var s1 := below + [CtlSym(Lambda)];
    var s3 := below + [CtlSym(Lambda), Prod(Name(v)), CtlSym(Dot)];
    calc {
      Run(below, ProductionTokens(Abstraction(v, body)) + rest, typectx, tolerant);
    == { assert ProductionTokens(Abstraction(v, body)) + rest
             == [Ctl(Lambda)] + ([NameTok(v)] + ([Ctl(Dot)] + bodyIn));
         ShiftAfterControl(below, Ctl(Lambda), [NameTok(v)] + ([Ctl(Dot)] + bodyIn), typectx, tolerant); }
      Run(s1, [NameTok(v)] + ([Ctl(Dot)] + bodyIn), false, tolerant);
    == { ShiftAfterControl(s1, NameTok(v), [Ctl(Dot)] + bodyIn, false, tolerant); }
      Run(s1 + [Prod(Name(v))], [Ctl(Dot)] + bodyIn, false, tolerant);
    == { ShiftBeforeControl(s1, Name(v), Dot, bodyIn, tolerant);
         assert s1 + [Prod(Name(v)), CtlSym(Dot)] == s3; }
      Run(s3, bodyIn, false, tolerant);
    == { ParseProduction(s3, body, rest, false, tolerant); }
      Run(s3 + [Prod(body)], rest, false, tolerant);
    == { assert s3 + [Prod(body)] == below + [CtlSym(Lambda), Prod(Name(v)), CtlSym(Dot), Prod(body)];
         ReduceAbstraction(below, v, body, rest, tolerant); }
      Run(below + [Prod(Abstraction(v, body))], rest, false, tolerant);
    }
  }

  lemma {:induction false} ParseConjunction(below: seq<Sym>, l: Production, r: Production,
                                            rest: seq<Token>, typectx: bool, tolerant: bool)
    requires OpensProduction(below) && ArgumentShape(l) && ProductionShape(r) && Calm(rest)
    requires typectx ==> below[|below| - 1] == CtlSym(Colon)
    requires EndsSafely(below, And(l, r), rest, tolerant)
    ensures Run(below, ProductionTokens(And(l, r)) + rest, typectx, tolerant)
         == Run(below + [Prod(And(l, r))], rest, false, tolerant)
    decreases And(l, r), 3
  {
    var rhsIn := ProductionTokens(r) + rest;
    var s2 := below + [Prod(l), CtlSym(AndOp)];
    calc {
      Run(below, ProductionTokens(And(l, r)) + rest, typectx, tolerant);
    == { assert ProductionTokens(And(l, r)) + rest == ProductionTokens(l) + ([Ctl(AndOp)] + rhsIn);
         ParseArgument(below, l, [Ctl(AndOp)] + rhsIn, typectx, tolerant); }
      Run(below + [Prod(l)], [Ctl(AndOp)] + rhsIn, false, tolerant);
    == { ShiftBeforeControl(below, l, AndOp, rhsIn, tolerant); }
      Run(s2, rhsIn, false, tolerant);
    == { ParseProduction(s2, r, rest, false, tolerant); }
      Run(s2 + [Prod(r)], rest, false, tolerant);
    == { assert s2 + [Prod(r)] == below + [Prod(l), CtlSym(AndOp), Prod(r)];
         ReduceAnd(below, l, r, rest, tolerant); }
      Run(below + [Prod(And(l, r))], rest, false, tolerant);
    }
  }
}
