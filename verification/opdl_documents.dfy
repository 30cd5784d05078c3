/** Whole OPDL documents through `separse` (robiphora/opdl.py, lines 123-153): a
    sequence of written lists yields their expressions in order, and each syntax
    error stops the stream after the expressions read before it. */
module OpdlDocuments {
  import opened Outcomes
  import opened OpdlParse
  import opened OpdlSteps
  import opened OpdlForms

  /** A document: top-level lists, each naming its keywords once at every level. */
  predicate Document(fs: seq<Form>) {
    forall i :: 0 <= i < |fs| ==> fs[i].ListForm? && Writable(fs[i])
  }

  function DocTokens(fs: seq<Form>): seq<SeToken> {
    if fs == [] then [] else FormTokens(fs[0]) + DocTokens(fs[1..])
  }

  /** The expressions a document denotes; lists denote parenthesised
      expressions. */
  function Values(fs: seq<Form>): (vs: seq<Expr>)
    ensures |vs| == |fs|
    ensures (forall i :: 0 <= i < |fs| ==> fs[i].ListForm?) ==> forall x :: x in vs ==> x.SExpr?
  {
    if fs == [] then [] else [Value(fs[0])] + Values(fs[1..])
  }

  lemma {:induction false} DocumentAppend(fs: seq<Form>, gs: seq<Form>)
    ensures DocTokens(fs + gs) == DocTokens(fs) + DocTokens(gs)
    ensures Values(fs + gs) == Values(fs) + Values(gs)
  {
    if fs != [] {
      assert (fs + gs)[1..] == fs[1..] + gs;
      DocumentAppend(fs[1..], gs);
    } else {
      assert fs + gs == gs;
    }
  }

  /** A finished list keeps its positional arguments in source order and maps each
      keyword name to the value written after it, and to nothing else. */
  lemma {:induction false} ListValue(f: Form)
    requires f.ListForm? && Writable(f)
    ensures Value(f).SExpr? && |Value(f).args| == |f.args|
    ensures forall i :: 0 <= i < |f.args| ==> Value(f).args[i] == Value(f.args[i])
    ensures forall j :: 0 <= j < |f.keywords| ==>
      f.keywords[j].0 in Value(f).kwargs && Value(f).kwargs[f.keywords[j].0] == Value(f.keywords[j].1)
    ensures forall k :: k in Value(f).kwargs ==> Named(KeywordValues(f), k)
  {
    var kvs := KeywordValues(f);
    forall j | 0 <= j < |f.keywords|
      ensures f.keywords[j].0 in Value(f).kwargs && Value(f).kwargs[f.keywords[j].0] == Value(f.keywords[j].1)
    {
      KeywordTableValues(kvs, j);
    }
    forall k | k in Value(f).kwargs ensures Named(kvs, k) {
      KeywordTableKeys(kvs, k);
    }
  }

  /** A top-level list is yielded as soon as its `)` is read. */
  lemma {:induction false} ParseTopLevel(f: Form, after: seq<SeToken>)
    requires f.ListForm? && Writable(f)
    ensures SeRun([], FormTokens(f) + after) == Prepend([Value(f)], SeRun([], after))
  {
    calc {
      SeRun([], FormTokens(f) + after);
    == { ParseForm([], f, after); }
      SeRun([] + [Complete(Value(f))], after);
    == { assert [] + [Complete(Value(f))] == [Complete(Value(f))];
         EmitLone(ArgValues(f), KeywordTable(KeywordValues(f)), after); }
      Prepend([Value(f)], SeRun([], after));
    }
  }

  /** Each top-level list of a document is yielded in turn. */
  lemma {:induction false} ParseDocument(fs: seq<Form>, rest: seq<SeToken>)
    requires Document(fs)
    ensures SeRun([], DocTokens(fs) + rest) == Prepend(Values(fs), SeRun([], rest))
  {
    if fs == [] {
      assert DocTokens(fs) + rest == rest;
      assert Values(fs) + SeRun([], rest).items == SeRun([], rest).items;
    } else {
      var after := DocTokens(fs[1..]) + rest;
      assert DocTokens(fs) + rest == FormTokens(fs[0]) + after;
      ParseTopLevel(fs[0], after);
      ParseDocument(fs[1..], rest);
      PrependTwice([Value(fs[0])], Values(fs[1..]), SeRun([], rest));
    }
  }

  /** Round trip: a written document reads back as the expressions it denotes,
      in order, and the parse ends without error. */
  lemma {:induction false} DocumentRoundTrip(fs: seq<Form>)
    requires Document(fs)
    ensures Separsed(DocTokens(fs)) == Emitted(Values(fs), None)
  {
    ParseDocument(fs, []);
    assert DocTokens(fs) + [] == DocTokens(fs);
    ReadEnd([]);
    assert Values(fs) + [] == Values(fs);
  }

  // ------------------------------------------------------------ errors

  /** A list naming one keyword twice stops the parse at its `)`, naming that
      keyword. */
  lemma {:induction false} ListClash(below: seq<Elem>, f: Form, rest: seq<SeToken>)
    requires Quiet(below) && f.ListForm? && SubformsWritable(f) && !DistinctNames(KeywordValues(f))
    ensures SeRun(below, FormTokens(f) + rest).failure.Some?
    ensures SeRun(below, FormTokens(f) + rest) == Failed(SeRun(below, FormTokens(f) + rest).failure.value)
    ensures var e := SeRun(below, FormTokens(f) + rest).failure.value;
      e.DefinedTwice? && NamedTwice(KeywordValues(f), e.name)
  {
    var kvs := KeywordValues(f);
    var s := below + [OpenParen] + Completes(ArgValues(f));
    OpenList(below, f, rest);
    CloseKeywords(s, kvs, map[], rest);
    FoldSucceeds(kvs, map[]);
    FoldClash(kvs);
  }

  lemma {:induction false} DuplicateKeyword(fs: seq<Form>, f: Form)
    requires Document(fs) && f.ListForm? && SubformsWritable(f) && !DistinctNames(KeywordValues(f))
    ensures var r := Separsed(DocTokens(fs) + FormTokens(f));
      r.items == Values(fs) && r.failure.Some? && r.failure.value.DefinedTwice? &&
      NamedTwice(KeywordValues(f), r.failure.value.name)
  {
    ParseDocument(fs, FormTokens(f));
    assert FormTokens(f) + [] == FormTokens(f);
    ListClash([], f, []);
  }

  /** The tokens of list `f` with positional argument `a` written after its
      keyword arguments. */
  function LateArgumentTokens(f: Form, a: Form): seq<SeToken>
    requires f.ListForm?
  {
    [Open] + ArgsTokens(f, 0) + KeywordTokens(f, 0) + FormTokens(a) + [Close]
  }

  /** At the `)`, the late positional argument is collected first, and the
      keyword argument before it then finds it in the partial expression. */
  lemma {:induction false} CloseLateArgument(t: seq<Elem>, k: string, v: Expr, x: Expr, rest: seq<SeToken>)
    ensures SeRun(t + [KeywordArg(k, v), Complete(x)], [Close] + rest) == Failed(KeywordsNotAtEnd)
  {
    var s := t + [KeywordArg(k, v)];
    var u := t + [KeywordArg(k, v), Complete(x)];
    assert u[|u| - 1] == Complete(x) && u[|u| - 2] == KeywordArg(k, v);
    assert Quiet(u);
    ReadToken(u, Close, rest);
    assert u + [Element(Close)] == s + [Complete(x), PartialSE([], map[])];
    CombinePositional(s, x, [], map[], rest);
    assert [] + [x] == [x];
    assert s + [PartialSE([x], map[])] == t + [KeywordArg(k, v), PartialSE([x], map[])];
    CombineKeyword(t, k, v, [x], map[], rest);
  }

  /** A positional argument after a keyword argument stops the parse at the `)`. */
  lemma {:induction false} ListLateArgument(below: seq<Elem>, f: Form, a: Form, rest: seq<SeToken>)
    requires Quiet(below) && f.ListForm? && SubformsWritable(f) && |f.keywords| > 0 && Writable(a)
    ensures SeRun(below, LateArgumentTokens(f, a) + rest) == Failed(KeywordsNotAtEnd)
  {
    var kvs := KeywordValues(f);
    var s := below + [OpenParen] + Completes(ArgValues(f)) + KeywordArgs(kvs);
    var t := below + [OpenParen] + Completes(ArgValues(f)) + KeywordArgs(kvs[..|kvs| - 1]);
    var (k, v) := kvs[|kvs| - 1];
    KeywordArgsSnoc(kvs, |kvs| - 1);
    assert kvs[..|kvs|] == kvs;
    assert s == t + [KeywordArg(k, v)];
    calc {
      SeRun(below, LateArgumentTokens(f, a) + rest);
    == { assert LateArgumentTokens(f, a) + rest
             == [Open] + ArgsTokens(f, 0) + KeywordTokens(f, 0) + (FormTokens(a) + ([Close] + rest));
         ReadArguments(below, f, FormTokens(a) + ([Close] + rest)); }
      SeRun(s, FormTokens(a) + ([Close] + rest));
    == { QuietInList(below, ArgValues(f), kvs);
         ParseForm(s, a, [Close] + rest);
         assert s + [Complete(Value(a))] == t + [KeywordArg(k, v), Complete(Value(a))]; }
      SeRun(t + [KeywordArg(k, v), Complete(Value(a))], [Close] + rest);
    == { CloseLateArgument(t, k, v, Value(a), rest); }
      Failed(KeywordsNotAtEnd);
    }
  }

  lemma {:induction false} KeywordsMustEnd(fs: seq<Form>, f: Form, a: Form)
    requires Document(fs) && f.ListForm? && SubformsWritable(f) && |f.keywords| > 0 && Writable(a)
    ensures Separsed(DocTokens(fs) + LateArgumentTokens(f, a)) == Emitted(Values(fs), Some(KeywordsNotAtEnd))
  {
    ParseDocument(fs, LateArgumentTokens(f, a));
    assert LateArgumentTokens(f, a) + [] == LateArgumentTokens(f, a);
    ListLateArgument([], f, a, []);
  }

  /** A bare symbol at top level is never yielded, and neither is anything after
      it: the expressions read after it pile up and the parse ends with entries
      left on the stack. */
  lemma {:induction false} Stranded(t: string, xs: seq<Expr>, gs: seq<Form>)
    requires Document(gs)
    ensures SeRun([Complete(Symbol(t))] + Completes(xs), DocTokens(gs)) == Failed(Leftover)
    decreases |gs|, 1
  {
    var s := [Complete(Symbol(t))] + Completes(xs);
    assert s[0] == Complete(Symbol(t));
    if |xs| > 0 {
      assert s[|s| - 1] == Complete(xs[|xs| - 1]);
      assert s[|s| - 2] == (if |xs| >= 2 then Complete(xs[|xs| - 2]) else Complete(Symbol(t)));
    }
    assert Quiet(s);
    if gs == [] {
      ReadEnd(s);
    } else {
      StrandedNext(t, xs, gs);
    }
  }

  lemma {:induction false} StrandedNext(t: string, xs: seq<Expr>, gs: seq<Form>)
    requires Document(gs) && gs != [] && Quiet([Complete(Symbol(t))] + Completes(xs))
    ensures SeRun([Complete(Symbol(t))] + Completes(xs), DocTokens(gs)) == Failed(Leftover)
    decreases |gs|, 0
  {
    var s := [Complete(Symbol(t))] + Completes(xs);
    var g := gs[0];
    calc {
      SeRun(s, DocTokens(gs));
    == { ParseForm(s, g, DocTokens(gs[1..])); }
      SeRun(s + [Complete(Value(g))], DocTokens(gs[1..]));
    == { assert s + [Complete(Value(g))] == [Complete(Symbol(t))] + Completes(xs + [Value(g)]); }
      SeRun([Complete(Symbol(t))] + Completes(xs + [Value(g)]), DocTokens(gs[1..]));
    == { Stranded(t, xs + [Value(g)], gs[1..]); }
      Failed(Leftover);
    }
  }

  lemma {:induction false} TopLevelSymbol(fs: seq<Form>, t: string, gs: seq<Form>)
    requires Document(fs) && Document(gs)
    ensures Separsed(DocTokens(fs) + [SymbolTok(t)] + DocTokens(gs)) == Emitted(Values(fs), Some(Leftover))
  {
    ParseDocument(fs, [SymbolTok(t)] + DocTokens(gs));
    assert DocTokens(fs) + [SymbolTok(t)] + DocTokens(gs) == DocTokens(fs) + ([SymbolTok(t)] + DocTokens(gs));
    ReadToken([], SymbolTok(t), DocTokens(gs));
    assert Completes([]) == [];
    assert [] + [Element(SymbolTok(t))] == [Complete(Symbol(t))] + Completes([]);
    Stranded(t, [], gs);
  }

  /** A list whose `)` never comes: the input ends with entries on the stack. */
  lemma {:induction false} Unclosed(fs: seq<Form>, f: Form)
    requires Document(fs) && f.ListForm? && SubformsWritable(f)
    ensures Separsed(DocTokens(fs) + ([Open] + ArgsTokens(f, 0) + KeywordTokens(f, 0)))
         == Emitted(Values(fs), Some(Leftover))
  {
    var open := [Open] + ArgsTokens(f, 0) + KeywordTokens(f, 0);
    ParseDocument(fs, open);
    assert open + [] == open;
    ReadArguments([], f, []);
    QuietInList([], ArgValues(f), KeywordValues(f));
    ReadEnd([] + [OpenParen] + Completes(ArgValues(f)) + KeywordArgs(KeywordValues(f)));
  }
}
