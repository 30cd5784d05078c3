/** Whole lexicon entries and whole grammars: the text `word := type [weights] :
    production`, entry after entry, is what the parse loop of robiphora/ccg.py
    turns back into the definitions it denotes. */
module CcgLexicon {
  import opened Outcomes
  import opened CcgTerms
  import opened CcgParse
  import opened CcgSteps
  import opened CcgMoves
  import opened CcgGrammar

  /** A weight table as written between `[` and `]`. */
  datatype Weights = Weights(entries: seq<(string, real)>, last: LastWeight)

  /** A lexicon entry as written: a word, its type, an optional weight table and
      its production. */
  datatype Entry = Entry(word: string, typ: Type, weights: Option<Weights>, production: Production)

  /** The weight table of an entry's header, `[ ... ]`, when it has one. */
  function TableTokens(e: Entry): seq<Token> {
    if e.weights.None? then []
    else [Ctl(LBrack)] + WeightTokens(e.weights.value.entries, e.weights.value.last)
  }

  function HeaderTokens(e: Entry): seq<Token> {
    [NameTok(e.word), Ctl(Define)] + TypeTokens(e.typ) + TableTokens(e) + [Ctl(Colon)]
  }

  function EntryTokens(e: Entry): seq<Token> {
    HeaderTokens(e) + ProductionTokens(e.production)
  }

  /** The stack once an entry's header, up to and including `:`, has been read. */
  function Header(e: Entry): seq<Sym> {
    [Prod(Name(e.word)), CtlSym(Define), TypeSym(e.typ)]
      + (if e.weights.None? then []
         else [CtlSym(LBrack), ProbabilityRelation(Table(e.weights.value.entries, e.weights.value.last)),
               DefaultProbability(DefaultOf(e.weights.value.last))])
      + [CtlSym(Colon)]
  }

  /** The definition an entry denotes: without a table, no weights and a default
      weight of 1.0. */
  function Meaning(e: Entry): Definition {
    if e.weights.None? then Definition(e.word, e.typ, e.production, map[], 1.0)
    else Definition(e.word, e.typ, e.production, Table(e.weights.value.entries, e.weights.value.last),
                    DefaultOf(e.weights.value.last))
  }

  /** Reading a header leaves it on the stack; type context is still on when no
      weight table closed it. */
  lemma {:induction false} ParseHeader(e: Entry, after: seq<Token>, tolerant: bool)
    ensures Run([], HeaderTokens(e) + after, false, tolerant)
         == Run(Header(e), after, e.weights.None?, tolerant)
  {
    var front := [Prod(Name(e.word)), CtlSym(Define)];
    var tail := TableTokens(e) + ([Ctl(Colon)] + after);
    calc {
      Run([], HeaderTokens(e) + after, false, tolerant);
    == { assert HeaderTokens(e) + after == [NameTok(e.word)] + ([Ctl(Define)] + (TypeTokens(e.typ) + tail));
         ParseWord(e.word, TypeTokens(e.typ) + tail, tolerant); }
      Run(front, TypeTokens(e.typ) + tail, false, tolerant);
    == { ParseType(front, e.typ, tail, false, tolerant); }
      Run(front + [TypeSym(e.typ)], tail, true, tolerant);
    == { ParseTail(e, front, after, tolerant); }
      Run(Header(e), after, e.weights.None?, tolerant);
    }
  }

  /** The word being defined and its `:=`. */
  lemma {:induction false} ParseWord(w: string, after: seq<Token>, tolerant: bool)
    ensures Run([], [NameTok(w)] + ([Ctl(Define)] + after), false, tolerant)
         == Run([Prod(Name(w)), CtlSym(Define)], after, false, tolerant)
  {
    ShiftOntoEmpty(NameTok(w), [Ctl(Define)] + after, tolerant);
    assert [] + [Prod(Name(w))] == [Prod(Name(w))];
    ShiftBeforeControl([], Name(w), Define, after, tolerant);
    assert [] + [Prod(Name(w)), CtlSym(Define)] == [Prod(Name(w)), CtlSym(Define)];
  }

  /** After the type: the optional weight table, then `:`. */
  lemma {:induction false} ParseTail(e: Entry, front: seq<Sym>, after: seq<Token>, tolerant: bool)
    requires front == [Prod(Name(e.word)), CtlSym(Define)]
    ensures Run(front + [TypeSym(e.typ)], TableTokens(e) + ([Ctl(Colon)] + after), true, tolerant)
         == Run(Header(e), after, e.weights.None?, tolerant)
  {
    if e.weights.None? {
      assert TableTokens(e) + ([Ctl(Colon)] + after) == [Ctl(Colon)] + after;
      ParsePlainTail(front, e.typ, after, tolerant);
      assert front + [TypeSym(e.typ), CtlSym(Colon)] == Header(e);
    } else {
      var Weights(entries, last) := e.weights.value;
      assert TableTokens(e) + ([Ctl(Colon)] + after)
          == [Ctl(LBrack)] + (WeightTokens(entries, last) + ([Ctl(Colon)] + after));
      ParseWeightedTail(front, e.typ, entries, last, after, tolerant);
      assert front + [TypeSym(e.typ), CtlSym(LBrack), ProbabilityRelation(Table(entries, last)),
                      DefaultProbability(DefaultOf(last)), CtlSym(Colon)] == Header(e);
    }
  }

  /** After the type of an entry without weights: its `:`. */
  lemma {:induction false} ParsePlainTail(front: seq<Sym>, t: Type, after: seq<Token>, tolerant: bool)
    requires front != [] && front[|front| - 1] == CtlSym(Define)
    ensures Run(front + [TypeSym(t)], [Ctl(Colon)] + after, true, tolerant)
         == Run(front + [TypeSym(t), CtlSym(Colon)], after, true, tolerant)
  {
    ShiftAfterType(front, t, Ctl(Colon), after, tolerant);
  }

  /** After the type of an entry with weights: `[`, the table, and `:`. */
  lemma {:induction false} ParseWeightedTail(front: seq<Sym>, t: Type, entries: seq<(string, real)>, last: LastWeight,
                          after: seq<Token>, tolerant: bool)
    requires front != [] && front[|front| - 1] == CtlSym(Define)
    ensures Run(front + [TypeSym(t)], [Ctl(LBrack)] + (WeightTokens(entries, last) + ([Ctl(Colon)] + after)),
                true, tolerant)
         == Run(front + [TypeSym(t), CtlSym(LBrack), ProbabilityRelation(Table(entries, last)),
                         DefaultProbability(DefaultOf(last)), CtlSym(Colon)], after, false, tolerant)
  {
    var s := front + [TypeSym(t), CtlSym(LBrack)];
    calc {
      Run(front + [TypeSym(t)], [Ctl(LBrack)] + (WeightTokens(entries, last) + ([Ctl(Colon)] + after)),
          true, tolerant);
    == { ShiftAfterType(front, t, Ctl(LBrack), WeightTokens(entries, last) + ([Ctl(Colon)] + after),
                        tolerant); }
      Run(s, WeightTokens(entries, last) + ([Ctl(Colon)] + after), true, tolerant);
    == { ParseWeights(s, entries, last, [Ctl(Colon)] + after, true, tolerant); }
      Run(s + [ProbabilityRelation(Table(entries, last)), DefaultProbability(DefaultOf(last))],
          [Ctl(Colon)] + after, false, tolerant);
    == { ShiftAfterTable(s, Table(entries, last), DefaultOf(last), Ctl(Colon), after, tolerant);
         assert s + [ProbabilityRelation(Table(entries, last)), DefaultProbability(DefaultOf(last)),
                     CtlSym(Colon)]
             == front + [TypeSym(t), CtlSym(LBrack), ProbabilityRelation(Table(entries, last)),
                         DefaultProbability(DefaultOf(last)), CtlSym(Colon)]; }
      Run(front + [TypeSym(t), CtlSym(LBrack), ProbabilityRelation(Table(entries, last)),
                   DefaultProbability(DefaultOf(last)), CtlSym(Colon)], after, false, tolerant);
    }
  }

  /** An entry reads back as the definition it denotes, provided what follows it
      does not start with a control token and, for a bare-name production, the
      stream goes on or the parser is tolerant. */
  lemma {:induction false} ParseEntry(e: Entry, rest: seq<Token>, tolerant: bool)
    requires ProductionShape(e.production) && Calm(rest)
    requires e.production.Name? ==> rest != [] || tolerant
    ensures Run([], EntryTokens(e) + rest, false, tolerant)
         == Prepend([Meaning(e)], Run([], rest, false, tolerant))
  {
    var p := e.production;
    var h := Header(e);
    calc {
      Run([], EntryTokens(e) + rest, false, tolerant);
    == { assert EntryTokens(e) + rest == HeaderTokens(e) + (ProductionTokens(p) + rest);
         ParseHeader(e, ProductionTokens(p) + rest, tolerant); }
      Run(h, ProductionTokens(p) + rest, e.weights.None?, tolerant);
    == { ParseProduction(h, p, rest, e.weights.None?, tolerant); }
      Run(h + [Prod(p)], rest, false, tolerant);
    == { EmitEntry(e, rest, tolerant); }
      Prepend([Meaning(e)], Run([], rest, false, tolerant));
    }
  }

  lemma {:induction false} EmitEntry(e: Entry, rest: seq<Token>, tolerant: bool)
    requires Calm(rest)
    ensures Run(Header(e) + [Prod(e.production)], rest, false, tolerant)
         == Prepend([Meaning(e)], Run([], rest, false, tolerant))
  {
    if e.weights.None? {
      assert Header(e) + [Prod(e.production)]
          == [Prod(Name(e.word)), CtlSym(Define), TypeSym(e.typ), CtlSym(Colon), Prod(e.production)];
      EmitDefinition(e.word, e.typ, e.production, rest, tolerant);
    } else {
      var Weights(entries, last) := e.weights.value;
      assert Header(e) + [Prod(e.production)]
          == [Prod(Name(e.word)), CtlSym(Define), TypeSym(e.typ), CtlSym(LBrack),
              ProbabilityRelation(Table(entries, last)), DefaultProbability(DefaultOf(last)),
              CtlSym(Colon), Prod(e.production)];
      EmitWeightedDefinition(e.word, e.typ, Table(entries, last), DefaultOf(last), e.production,
                             rest, tolerant);
    }
  }

  // -------------------------------------------------------------- grammars

  function GrammarTokens(es: seq<Entry>): seq<Token> {
    if es == [] then [] else EntryTokens(es[0]) + GrammarTokens(es[1..])
  }

  function Meanings(es: seq<Entry>): (ds: seq<Definition>)
    ensures |ds| == |es|
  {
    if es == [] then [] else [Meaning(es[0])] + Meanings(es[1..])
  }

  /** Every production is one the grammar notation writes without parentheses. */
  predicate Writable(es: seq<Entry>) {
    forall i :: 0 <= i < |es| ==> ProductionShape(es[i].production)
  }

  lemma {:induction false} GrammarStartsCalm(es: seq<Entry>, rest: seq<Token>)
    requires Calm(rest)
    ensures Calm(GrammarTokens(es) + rest)
    ensures es != [] ==> GrammarTokens(es) + rest != []
  {
    if es != [] {
      assert (GrammarTokens(es) + rest)[0] == NameTok(es[0].word);
    }
  }

  /** Entry after entry, the grammar reads back as its definitions, in order. */
  lemma {:induction false} ParseEntries(es: seq<Entry>, rest: seq<Token>, tolerant: bool)
    requires Writable(es) && Calm(rest)
    requires es != [] && es[|es| - 1].production.Name? ==> rest != [] || tolerant
    ensures Run([], GrammarTokens(es) + rest, false, tolerant)
         == Prepend(Meanings(es), Run([], rest, false, tolerant))
    decreases |es|
  {
    if es == [] {
      assert GrammarTokens(es) + rest == rest;
    } else {
      var later := GrammarTokens(es[1..]) + rest;
      calc {
        Run([], GrammarTokens(es) + rest, false, tolerant);
      == { ParseFirstEntry(es, rest, tolerant); }
        Prepend([Meaning(es[0])], Run([], later, false, tolerant));
      == { assert |es[1..]| > 0 ==> es[1..][|es[1..]| - 1] == es[|es| - 1];
           ParseEntries(es[1..], rest, tolerant); }
        Prepend([Meaning(es[0])], Prepend(Meanings(es[1..]), Run([], rest, false, tolerant)));
      == { PrependTwice([Meaning(es[0])], Meanings(es[1..]), Run([], rest, false, tolerant)); }
        Prepend(Meanings(es), Run([], rest, false, tolerant));
      }
    }
  }

  lemma {:induction false} ParseFirstEntry(es: seq<Entry>, rest: seq<Token>, tolerant: bool)
    requires es != [] && Writable(es) && Calm(rest)
    requires es[|es| - 1].production.Name? ==> rest != [] || tolerant
    ensures Run([], GrammarTokens(es) + rest, false, tolerant)
         == Prepend([Meaning(es[0])], Run([], GrammarTokens(es[1..]) + rest, false, tolerant))
  {
    var later := GrammarTokens(es[1..]) + rest;
    GrammarStartsCalm(es[1..], rest);
    assert GrammarTokens(es) + rest == EntryTokens(es[0]) + later;
    ParseEntry(es[0], later, tolerant);
  }

  /** The round trip: a grammar written out parses back to exactly its definitions
      with no error, for the tolerant parser always, and for the parser as written
      when the grammar is not empty and does not end in a bare-name production. */
  lemma {:induction false} GrammarRoundTrip(es: seq<Entry>, tolerant: bool)
    requires Writable(es)
    requires tolerant || (es != [] && !es[|es| - 1].production.Name?)
    ensures Parsed(GrammarTokens(es), tolerant) == Emitted(Meanings(es), None)
  {
    if es != [] {
      ParseGrammar(es, tolerant);
    }
  }

  lemma {:induction false} ParseGrammar(es: seq<Entry>, tolerant: bool)
    requires Writable(es) && es != []
    requires tolerant || !es[|es| - 1].production.Name?
    ensures Run([], GrammarTokens(es), false, tolerant) == Emitted(Meanings(es), None)
  {
    ParseEntries(es, [], tolerant);
    assert GrammarTokens(es) + [] == GrammarTokens(es);
    assert Step([], [], false) == Shift;
  }

  lemma {:induction false} GrammarTokensAppend(es: seq<Entry>, e: Entry)
    ensures GrammarTokens(es + [e]) == GrammarTokens(es) + EntryTokens(e)
    decreases |es|
  {
    if es == [] {
      assert GrammarTokens([e]) == EntryTokens(e) + GrammarTokens([]);
    } else {
      assert (es + [e])[1..] == es[1..] + [e];
      GrammarTokensAppend(es[1..], e);
    }
  }

  lemma {:induction false} MeaningsAppend(es: seq<Entry>, e: Entry)
    ensures Meanings(es + [e]) == Meanings(es) + [Meaning(e)]
  {
    if es != [] {
      assert (es + [e])[1..] == es[1..] + [e];
      MeaningsAppend(es[1..], e);
    }
  }

  /** As written: when the last entry's production is a bare name, the guarded
      shift after `:` reads past the end of the stream, so the last definition is
      never yielded and the parse fails. */
  lemma {:induction false} LastBareNameRaises(es: seq<Entry>, e: Entry)
    requires Writable(es) && e.production.Name?
    ensures Parsed(GrammarTokens(es + [e]), false) == Emitted(Meanings(es), Some(StreamEnded))
  {
    var x := e.production.word;
    GrammarTokensAppend(es, e);
    assert EntryTokens(e) == HeaderTokens(e) + [NameTok(x)];
    calc {
      Run([], GrammarTokens(es) + EntryTokens(e), false, false);
    == { ParseEntries(es, EntryTokens(e), false); }
      Prepend(Meanings(es), Run([], EntryTokens(e), false, false));
    == { assert HeaderTokens(e) + [NameTok(x)] == EntryTokens(e);
         ParseHeader(e, [NameTok(x)], false); }
      Prepend(Meanings(es), Run(Header(e), [NameTok(x)], e.weights.None?, false));
    == { StepOnControl(Header(e), [NameTok(x)], e.weights.None?);
         RunUnfolds(Header(e), [NameTok(x)], e.weights.None?, false); }
      Prepend(Meanings(es), Failed(StreamEnded));
    }
  }

  /** The tolerant parser reads the same grammar back whole. */
  lemma {:induction false} LastBareNameTolerated(es: seq<Entry>, e: Entry)
    requires Writable(es) && e.production.Name?
    ensures Parsed(GrammarTokens(es + [e]), true) == Emitted(Meanings(es) + [Meaning(e)], None)
  {
    assert Writable(es + [e]) by {
      forall i | 0 <= i < |es + [e]| ensures ProductionShape((es + [e])[i].production) {
        if i < |es| { assert (es + [e])[i] == es[i]; }
      }
    }
    GrammarRoundTrip(es + [e], true);
    MeaningsAppend(es, e);
  }

  /** A word left over after the last entry is reported as an incomplete parse,
      after every earlier definition has been yielded. */
  lemma {:induction false} TrailingWord(es: seq<Entry>, w: string, tolerant: bool)
    requires Writable(es)
    ensures Parsed(GrammarTokens(es) + [NameTok(w)], tolerant)
         == Emitted(Meanings(es), Some(IncompleteParse))
  {
    calc {
      Run([], GrammarTokens(es) + [NameTok(w)], false, tolerant);
    == { ParseEntries(es, [NameTok(w)], tolerant); }
      Prepend(Meanings(es), Run([], [NameTok(w)], false, tolerant));
    == { assert Step([], [NameTok(w)], false) == Shift;
         assert [] + [Lift(NameTok(w))] == [Prod(Name(w))];
         RunUnfolds([], [NameTok(w)], false, tolerant); }
      Prepend(Meanings(es), Run([Prod(Name(w))], [], false, tolerant));
    == { assert Step([Prod(Name(w))], [], false) == Shift;
         RunUnfolds([Prod(Name(w))], [], false, tolerant); }
      Prepend(Meanings(es), Failed(IncompleteParse));
    }
  }

  /** Input cut off right after `:=`: the parser as written reads past the end, the
      tolerant one reports the unfinished entry. */
  lemma {:induction false} CutAfterDefine(es: seq<Entry>, w: string, tolerant: bool)
    requires Writable(es)
    ensures Parsed(GrammarTokens(es) + [NameTok(w), Ctl(Define)], tolerant)
         == Emitted(Meanings(es), Some(if tolerant then IncompleteParse else StreamEnded))
  {
    var cut := [NameTok(w), Ctl(Define)];
    calc {
      Run([], GrammarTokens(es) + cut, false, tolerant);
    == { ParseEntries(es, cut, tolerant); }
      Prepend(Meanings(es), Run([], cut, false, tolerant));
    == { ShiftOntoEmpty(NameTok(w), [Ctl(Define)], tolerant); }
      Prepend(Meanings(es), Run([Prod(Name(w))], [Ctl(Define)] + [], false, tolerant));
    == { assert [] + [Prod(Name(w))] == [Prod(Name(w))];
         ShiftBeforeControl([], Name(w), Define, [], tolerant);
         assert [] + [Prod(Name(w)), CtlSym(Define)] == [Prod(Name(w)), CtlSym(Define)]; }
      Prepend(Meanings(es), Run([Prod(Name(w)), CtlSym(Define)], [], false, tolerant));
    == { StepOnControl([Prod(Name(w)), CtlSym(Define)], [], false);
         RunUnfolds([Prod(Name(w)), CtlSym(Define)], [], false, tolerant); }
      Prepend(Meanings(es), Failed(if tolerant then IncompleteParse else StreamEnded));
    }
  }
}
