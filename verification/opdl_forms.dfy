/** Expressions as written, and what `separse` (robiphora/opdl.py, lines 123-153)
    makes of them: every written expression reads back as the expression it
    denotes, and the syntax errors arise exactly where the source raises them. */
module OpdlForms {
  import opened Outcomes
  import opened OpdlParse
  import opened OpdlSteps

  /** An expression as written: keyword arguments are a list, in source order. */
  datatype Form =
    | SymbolForm(text: string)
    | StringForm(text: string)
    | ListForm(args: seq<Form>, keywords: seq<(string, Form)>)

  function FormTokens(f: Form): seq<SeToken>
    decreases f, 2
  {
    match f
    case SymbolForm(t) => [SymbolTok(t)]
    case StringForm(t) => [StringTok(t)]
    case ListForm(_, _) => [Open] + ArgsTokens(f, 0) + KeywordTokens(f, 0) + [Close]
  }

  /** The positional arguments of list `f` from the `i`-th on. */
  function ArgsTokens(f: Form, i: nat): seq<SeToken>
    requires f.ListForm? && i <= |f.args|
    decreases f, 1, |f.args| - i
  {
    if i == |f.args| then [] else FormTokens(f.args[i]) + ArgsTokens(f, i + 1)
  }

  /** The keyword arguments of list `f` from the `j`-th on, each `:name value`. */
  function KeywordTokens(f: Form, j: nat): seq<SeToken>
    requires f.ListForm? && j <= |f.keywords|
    decreases f, 1, |f.keywords| - j
  {
    if j == |f.keywords| then []
    else
      assert f.keywords[j] in f.keywords;
      [Keyword(f.keywords[j].0)] + FormTokens(f.keywords[j].1) + KeywordTokens(f, j + 1)
  }

  /** `dict(pairs)`: a later pair for the same name replaces an earlier one. */
  function KeywordTable(kvs: seq<(string, Expr)>): map<string, Expr> {
    if kvs == [] then map[]
    else KeywordTable(kvs[..|kvs| - 1])[kvs[|kvs| - 1].0 := kvs[|kvs| - 1].1]
  }

  /** The expression a written form denotes. */
  function Value(f: Form): Expr
    decreases f, 1
  {
    match f
    case SymbolForm(t) => Symbol(t)
    case StringForm(t) => Str(t)
    case ListForm(_, _) => SExpr(ArgValues(f), KeywordTable(KeywordValues(f)))
  }

  function ArgValues(f: Form): seq<Expr>
    requires f.ListForm?
    decreases f, 0
  {
    seq(|f.args|, i requires 0 <= i < |f.args| => Value(f.args[i]))
  }

  function KeywordValues(f: Form): seq<(string, Expr)>
    requires f.ListForm?
    decreases f, 0
  {
    seq(|f.keywords|, j requires 0 <= j < |f.keywords| =>
      assert f.keywords[j] in f.keywords;
      (f.keywords[j].0, Value(f.keywords[j].1)))
  }

  predicate DistinctNames(kvs: seq<(string, Expr)>) {
    forall a, b :: 0 <= a < b < |kvs| ==> kvs[a].0 != kvs[b].0
  }

  /** Every nested list names each keyword once. */
  predicate Writable(f: Form)
    decreases f, 1
  {
    f.ListForm? ==> SubformsWritable(f) && DistinctNames(KeywordValues(f))
  }

  predicate SubformsWritable(f: Form)
    requires f.ListForm?
    decreases f, 0
  {
    (forall i :: 0 <= i < |f.args| ==> Writable(f.args[i])) &&
    (forall j :: 0 <= j < |f.keywords| ==>
       assert f.keywords[j] in f.keywords; Writable(f.keywords[j].1))
  }

  function Completes(xs: seq<Expr>): seq<Elem> {
    seq(|xs|, i requires 0 <= i < |xs| => Complete(xs[i]))
  }

  function KeywordArgs(kvs: seq<(string, Expr)>): seq<Elem> {
    seq(|kvs|, j requires 0 <= j < |kvs| => KeywordArg(kvs[j].0, kvs[j].1))
  }

  lemma {:induction false} KeywordArgsSnoc(kvs: seq<(string, Expr)>, j: nat)
    requires j < |kvs|
    ensures KeywordArgs(kvs[..j + 1]) == KeywordArgs(kvs[..j]) + [KeywordArg(kvs[j].0, kvs[j].1)]
  {
  }

  /** Inside an open list, before its `)`, the next token is always read. */
  lemma {:induction false} QuietInList(below: seq<Elem>, xs: seq<Expr>, kvs: seq<(string, Expr)>)
    ensures Quiet(below + [OpenParen] + Completes(xs) + KeywordArgs(kvs))
  {
    var s := below + [OpenParen] + Completes(xs) + KeywordArgs(kvs);
    var n := |s|;
    if kvs == [] && xs != [] {
      assert s[n - 1] == Complete(xs[|xs| - 1]);
      assert s[n - 2] == (if |xs| >= 2 then Complete(xs[|xs| - 2]) else OpenParen);
    }
  }

  // ----------------------------------------------------- keyword arguments

  /** The keyword reduction run from the last keyword argument to the first,
      starting from table `m`: the table it builds, or the first name it finds
      already present. */
  datatype Folded = Folded(table: map<string, Expr>) | Clash(name: string)

  function Fold(kvs: seq<(string, Expr)>, m: map<string, Expr>): Folded
    decreases |kvs|
  {
    if kvs == [] then Folded(m)
    else
      var (k, v) := kvs[|kvs| - 1];
      if k in m then Clash(k) else Fold(kvs[..|kvs| - 1], m[k := v])
  }

  /** At `)`, the keyword arguments are moved into the partial expression from
      right to left; a name met twice stops the parse. */
  lemma {:induction false} CloseKeywords(s: seq<Elem>, kvs: seq<(string, Expr)>,
                                         m: map<string, Expr>, rest: seq<SeToken>)
    ensures SeRun(s + KeywordArgs(kvs) + [PartialSE([], m)], rest) ==
      match Fold(kvs, m)
      case Folded(t) => SeRun(s + [PartialSE([], t)], rest)
      case Clash(k) => Failed(DefinedTwice(k))
    decreases |kvs|
  {
    if kvs == [] {
      assert s + KeywordArgs(kvs) == s;
    } else {
      var init := kvs[..|kvs| - 1];
      var (k, v) := kvs[|kvs| - 1];
      assert s + KeywordArgs(kvs) + [PartialSE([], m)]
          == s + KeywordArgs(init) + [KeywordArg(k, v), PartialSE([], m)];
      CombineKeyword(s + KeywordArgs(init), k, v, [], m, rest);
      if k !in m {
        assert s + KeywordArgs(init) + [PartialSE([], m[k := v])]
            == s + KeywordArgs(init) + [PartialSE([], m[k := v])];
        CloseKeywords(s, init, m[k := v], rest);
      }
    }
  }

  /** The names of a keyword list are the keys of its table. */
  lemma {:induction false} KeywordTableKeys(kvs: seq<(string, Expr)>, k: string)
    ensures k in KeywordTable(kvs) <==> exists j :: 0 <= j < |kvs| && kvs[j].0 == k
    decreases |kvs|
  {
    if kvs != [] {
      var init := kvs[..|kvs| - 1];
      KeywordTableKeys(init, k);
      if exists j :: 0 <= j < |init| && init[j].0 == k {
        var j :| 0 <= j < |init| && init[j].0 == k;
        assert kvs[j] == init[j];
      }
      if exists j :: 0 <= j < |kvs| - 1 && kvs[j].0 == k {
        var j :| 0 <= j < |kvs| - 1 && kvs[j].0 == k;
        assert init[j] == kvs[j];
      }
    }
  }

  /** With distinct names every keyword keeps its own value. */
  lemma {:induction false} KeywordTableValues(kvs: seq<(string, Expr)>, j: nat)
    requires DistinctNames(kvs) && j < |kvs|
    ensures kvs[j].0 in KeywordTable(kvs) && KeywordTable(kvs)[kvs[j].0] == kvs[j].1
    decreases |kvs|
  {
    if j < |kvs| - 1 {
      var init := kvs[..|kvs| - 1];
      assert init[j] == kvs[j];
      assert kvs[|kvs| - 1].0 != kvs[j].0;
      KeywordTableValues(init, j);
    }
  }

  /** The keyword reduction succeeds exactly when the names are distinct and new
      to the table it starts from, and then it adds the list's table to it. */
  lemma {:induction false} FoldSucceeds(kvs: seq<(string, Expr)>, m: map<string, Expr>)
    ensures Fold(kvs, m).Folded? <==>
      DistinctNames(kvs) && forall j :: 0 <= j < |kvs| ==> kvs[j].0 !in m
    ensures Fold(kvs, m).Folded? ==> Fold(kvs, m).table == m + KeywordTable(kvs)
    decreases |kvs|
  {
    if kvs == [] {
      assert m + map[] == m;
    } else {
      var init := kvs[..|kvs| - 1];
      var (k, v) := kvs[|kvs| - 1];
      FoldSucceeds(init, m[k := v]);
      forall j | 0 <= j < |init| ensures init[j] == kvs[j] { }
      if Fold(kvs, m).Folded? {
        KeywordTableKeys(init, k);
        assert m[k := v] + KeywordTable(init) == m + KeywordTable(init)[k := v];
      }
      if DistinctNames(kvs) && forall j :: 0 <= j < |kvs| ==> kvs[j].0 !in m {
        assert k !in m;
      }
    }
  }

  /** `k` names some keyword of `kvs`. */
  predicate Named(kvs: seq<(string, Expr)>, k: string) {
    exists j :: 0 <= j < |kvs| && kvs[j].0 == k
  }

  /** `k` names two keywords of `kvs`. */
  predicate NamedTwice(kvs: seq<(string, Expr)>, k: string) {
    exists a, b :: 0 <= a < b < |kvs| && kvs[a].0 == k && kvs[b].0 == k
  }

  /** A clash names a keyword that appears twice. */
  lemma {:induction false} FoldClash(kvs: seq<(string, Expr)>)
    requires Fold(kvs, map[]).Clash?
    ensures NamedTwice(kvs, Fold(kvs, map[]).name)
  {
    ClashFrom(kvs, map[], []);
    assert kvs + [] == kvs;
  }

  /** Run from table `m`, where `m` holds exactly the names of `later`: a clash
      names a keyword of `kvs` that appears again in `kvs` or in `later`. */
  lemma {:induction false} ClashFrom(kvs: seq<(string, Expr)>, m: map<string, Expr>,
                                     later: seq<(string, Expr)>)
    requires forall k :: k in m <==> Named(later, k)
    requires Fold(kvs, m).Clash?
    ensures NamedTwice(kvs + later, Fold(kvs, m).name)
    decreases |kvs|
  {
    var all := kvs + later;
    var init := kvs[..|kvs| - 1];
    var (k, v) := kvs[|kvs| - 1];
    if k in m {
      var j :| 0 <= j < |later| && later[j].0 == k;
      assert all[|kvs| - 1].0 == k && all[|kvs| + j].0 == k;
    } else {
      var later' := [(k, v)] + later;
      forall k' ensures k' in m[k := v] <==> Named(later', k') {
        assert later'[0].0 == k;
        if Named(later, k') {
          var j :| 0 <= j < |later| && later[j].0 == k';
          assert later'[j + 1] == later[j];
        }
        if Named(later', k') {
          var j :| 0 <= j < |later'| && later'[j].0 == k';
          if j > 0 { assert later[j - 1] == later'[j]; }
        }
      }
      ClashFrom(init, m[k := v], later');
      assert init + later' == all;
    }
  }

  // ------------------------------------------------ positional arguments

  /** Then the positional arguments are moved in, from right to left. */
  lemma {:induction false} ClosePositional(below: seq<Elem>, xs: seq<Expr>, acc: seq<Expr>,
                                           m: map<string, Expr>, rest: seq<SeToken>)
    ensures SeRun(below + [OpenParen] + Completes(xs) + [PartialSE(acc, m)], rest)
         == SeRun(below + [OpenParen, PartialSE(acc + Reversed(xs), m)], rest)
    decreases |xs|
  {
    if xs == [] {
      assert Completes(xs) == [] && acc + Reversed(xs) == acc;
      assert below + [OpenParen] + Completes(xs) + [PartialSE(acc, m)]
          == below + [OpenParen, PartialSE(acc + Reversed(xs), m)];
    } else {
      var init := xs[..|xs| - 1];
      var x := xs[|xs| - 1];
      var base := below + [OpenParen] + Completes(init);
      calc {
        SeRun(below + [OpenParen] + Completes(xs) + [PartialSE(acc, m)], rest);
      == { assert below + [OpenParen] + Completes(xs) + [PartialSE(acc, m)]
               == base + [Complete(x), PartialSE(acc, m)]; }
        SeRun(base + [Complete(x), PartialSE(acc, m)], rest);
      == { CombinePositional(base, x, acc, m, rest); }
        SeRun(base + [PartialSE(acc + [x], m)], rest);
      == { ClosePositional(below, init, acc + [x], m, rest); }
        SeRun(below + [OpenParen, PartialSE(acc + [x] + Reversed(init), m)], rest);
      == { assert xs == init + [x];
           ReversedAppend(init, x);
           assert acc + [x] + Reversed(init) == acc + Reversed(xs); }
        SeRun(below + [OpenParen, PartialSE(acc + Reversed(xs), m)], rest);
      }
    }
  }

  // ------------------------------------------------------- written forms

  /** A written expression, read where no rule fires, reads back as the expression
      it denotes. */
  lemma {:induction false} ParseForm(below: seq<Elem>, f: Form, rest: seq<SeToken>)
    requires Quiet(below) && Writable(f)
    ensures SeRun(below, FormTokens(f) + rest) == SeRun(below + [Complete(Value(f))], rest)
    decreases f, 3
  {
    if f.ListForm? {
      ParseList(below, f, rest);
    } else {
      ParseAtom(below, f, rest);
    }
  }

  lemma {:induction false} ParseAtom(below: seq<Elem>, f: Form, rest: seq<SeToken>)
    requires Quiet(below) && !f.ListForm?
    ensures SeRun(below, FormTokens(f) + rest) == SeRun(below + [Complete(Value(f))], rest)
  {
    var tok := if f.SymbolForm? then SymbolTok(f.text) else StringTok(f.text);
    assert FormTokens(f) == [tok];
    assert Element(tok) == Complete(Value(f));
    ReadToken(below, tok, rest);
  }

  lemma {:induction false} ParseList(below: seq<Elem>, f: Form, rest: seq<SeToken>)
    requires Quiet(below) && f.ListForm? && Writable(f)
    ensures SeRun(below, FormTokens(f) + rest) == SeRun(below + [Complete(Value(f))], rest)
    decreases f, 2
  {
    var vals := ArgValues(f);
    var kvs := KeywordValues(f);
    var s := below + [OpenParen] + Completes(vals);
    var m := KeywordTable(kvs);
    calc {
      SeRun(below, FormTokens(f) + rest);
    == { OpenList(below, f, rest); }
      SeRun(s + KeywordArgs(kvs) + [PartialSE([], map[])], rest);
    == { CloseKeywords(s, kvs, map[], rest);
         FoldSucceeds(kvs, map[]);
         assert map[] + m == m; }
      SeRun(s + [PartialSE([], m)], rest);
    == { ClosePositional(below, vals, [], m, rest);
         assert [] + Reversed(vals) == Reversed(vals); }
      SeRun(below + [OpenParen, PartialSE(Reversed(vals), m)], rest);
    == { CombineClose(below, Reversed(vals), m, rest);
         ReversedInvolution(vals); }
      SeRun(below + [Complete(Value(f))], rest);
    }
  }

  /** A list up to and including its `)`: every argument read back, then the
      empty partial expression `)` is read as. */
  lemma {:induction false} OpenList(below: seq<Elem>, f: Form, rest: seq<SeToken>)
    requires Quiet(below) && f.ListForm? && SubformsWritable(f)
    ensures SeRun(below, FormTokens(f) + rest)
         == SeRun(below + [OpenParen] + Completes(ArgValues(f)) + KeywordArgs(KeywordValues(f))
                  + [PartialSE([], map[])], rest)
    decreases f, 1
  {
    var s := below + [OpenParen] + Completes(ArgValues(f)) + KeywordArgs(KeywordValues(f));
    calc {
      SeRun(below, FormTokens(f) + rest);
    == { assert FormTokens(f) + rest
             == [Open] + ArgsTokens(f, 0) + KeywordTokens(f, 0) + ([Close] + rest); }
      SeRun(below, [Open] + ArgsTokens(f, 0) + KeywordTokens(f, 0) + ([Close] + rest));
    == { ReadArguments(below, f, [Close] + rest); }
      SeRun(s, [Close] + rest);
    == { QuietInList(below, ArgValues(f), KeywordValues(f));
         ReadToken(s, Close, rest); }
      SeRun(s + [PartialSE([], map[])], rest);
    }
  }

  /** `(`, the positional arguments and the keyword arguments of a list. */
  lemma {:induction false} ReadArguments(below: seq<Elem>, f: Form, tail: seq<SeToken>)
    requires Quiet(below) && f.ListForm? && SubformsWritable(f)
    ensures SeRun(below, [Open] + ArgsTokens(f, 0) + KeywordTokens(f, 0) + tail)
         == SeRun(below + [OpenParen] + Completes(ArgValues(f)) + KeywordArgs(KeywordValues(f)), tail)
    decreases f, 0, |f.args| + |f.keywords| + 1
  {
    var vals := ArgValues(f);
    var kvs := KeywordValues(f);
    var s := below + [OpenParen] + Completes(vals);
    var after := KeywordTokens(f, 0) + tail;
    calc {
      SeRun(below, [Open] + ArgsTokens(f, 0) + KeywordTokens(f, 0) + tail);
    == { assert [Open] + ArgsTokens(f, 0) + KeywordTokens(f, 0) + tail
             == [Open] + (ArgsTokens(f, 0) + after);
         ReadToken(below, Open, ArgsTokens(f, 0) + after); }
      SeRun(below + [OpenParen], ArgsTokens(f, 0) + after);
    == { assert vals[..0] == [] && Completes([]) == [];
         assert below + [OpenParen] + Completes(vals[..0]) == below + [OpenParen];
         ParseArgs(below, f, 0, after);
         assert vals[..|f.args|] == vals; }
      SeRun(s, after);
    == { assert kvs[..0] == [] && KeywordArgs([]) == [];
         assert s + KeywordArgs(kvs[..0]) == s;
         ParseKeywords(below, f, 0, tail);
         assert kvs[..|f.keywords|] == kvs; }
      SeRun(s + KeywordArgs(kvs), tail);
    }
  }

  lemma {:induction false} ParseArgs(below: seq<Elem>, f: Form, i: nat, tail: seq<SeToken>)
    requires f.ListForm? && SubformsWritable(f) && i <= |f.args|
    ensures SeRun(below + [OpenParen] + Completes(ArgValues(f)[..i]), ArgsTokens(f, i) + tail)
         == SeRun(below + [OpenParen] + Completes(ArgValues(f)[..|f.args|]), tail)
    decreases f, 0, |f.args| - i
  {
    if i < |f.args| {
      var vals := ArgValues(f);
      var s := below + [OpenParen] + Completes(vals[..i]);
      calc {
        SeRun(s, ArgsTokens(f, i) + tail);
      == { assert ArgsTokens(f, i) + tail == FormTokens(f.args[i]) + (ArgsTokens(f, i + 1) + tail);
           QuietInList(below, vals[..i], []);
           assert s + KeywordArgs([]) == s;
           ParseForm(s, f.args[i], ArgsTokens(f, i + 1) + tail); }
        SeRun(s + [Complete(Value(f.args[i]))], ArgsTokens(f, i + 1) + tail);
      == { assert vals[..i + 1] == vals[..i] + [vals[i]];
           assert s + [Complete(Value(f.args[i]))] == below + [OpenParen] + Completes(vals[..i + 1]); }
        SeRun(below + [OpenParen] + Completes(vals[..i + 1]), ArgsTokens(f, i + 1) + tail);
      == { ParseArgs(below, f, i + 1, tail); }
        SeRun(below + [OpenParen] + Completes(vals[..|f.args|]), tail);
      }
    } else {
      assert ArgsTokens(f, i) + tail == tail;
    }
  }

  /** `:name value` becomes one keyword argument. */
  lemma {:induction false} ReadKeyword(s: seq<Elem>, k: string, g: Form, after: seq<SeToken>)
    requires Quiet(s) && Writable(g)
    ensures SeRun(s, [Keyword(k)] + FormTokens(g) + after) == SeRun(s + [KeywordArg(k, Value(g))], after)
    decreases g, 4
  {
    calc {
      SeRun(s, [Keyword(k)] + FormTokens(g) + after);
    == { assert [Keyword(k)] + FormTokens(g) + after == [Keyword(k)] + (FormTokens(g) + after);
         ReadToken(s, Keyword(k), FormTokens(g) + after); }
      SeRun(s + [KeywordArgName(k)], FormTokens(g) + after);
    == { ParseForm(s + [KeywordArgName(k)], g, after);
         assert s + [KeywordArgName(k)] + [Complete(Value(g))] == s + [KeywordArgName(k), Complete(Value(g))]; }
      SeRun(s + [KeywordArgName(k), Complete(Value(g))], after);
    == { CombineKeywordValue(s, k, Value(g), after); }
      SeRun(s + [KeywordArg(k, Value(g))], after);
    }
  }

  lemma {:induction false} ParseKeywords(below: seq<Elem>, f: Form, j: nat, tail: seq<SeToken>)
    requires f.ListForm? && SubformsWritable(f) && j <= |f.keywords|
    ensures SeRun(below + [OpenParen] + Completes(ArgValues(f)) + KeywordArgs(KeywordValues(f)[..j]),
                  KeywordTokens(f, j) + tail)
         == SeRun(below + [OpenParen] + Completes(ArgValues(f))
                  + KeywordArgs(KeywordValues(f)[..|f.keywords|]), tail)
    decreases f, 0, |f.keywords| - j
  {
    if j < |f.keywords| {
      var kvs := KeywordValues(f);
      var g := f.keywords[j].1;
      var s := below + [OpenParen] + Completes(ArgValues(f)) + KeywordArgs(kvs[..j]);
      var after := KeywordTokens(f, j + 1) + tail;
      assert f.keywords[j] in f.keywords;
      assert KeywordTokens(f, j) + tail == [Keyword(kvs[j].0)] + FormTokens(g) + after;
      QuietInList(below, ArgValues(f), kvs[..j]);
      ReadKeyword(s, kvs[j].0, g, after);
      KeywordArgsSnoc(kvs, j);
      assert s + [KeywordArg(kvs[j].0, kvs[j].1)]
          == below + [OpenParen] + Completes(ArgValues(f)) + KeywordArgs(kvs[..j + 1]);
      ParseKeywords(below, f, j + 1, tail);
    } else {
      assert KeywordTokens(f, j) + tail == tail;
    }
  }
}
