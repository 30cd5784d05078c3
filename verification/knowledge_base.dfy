/** `KnowledgeBase` (robiphora/opdl.py, lines 196-220): loading OPDL code stores
    each `object` and `type` declaration under its name, follows `import`s, and
    stops at the first declaration it cannot handle. */
module OpdlKnowledge {
  import opened Outcomes
  import opened OpdlParse
  import opened OpdlForms
  import opened OpdlDocuments
  import opened OpdlData

  /** A file an `import` can open: the directory it lies in, which becomes the
      search directory of its own imports, and its tokens. */
  datatype SourceFile = SourceFile(dir: string, tokens: seq<SeToken>)

  /** The files `import` can open, by search directory and the name written. */
  type Files = map<(string, Key), SourceFile>

  /** The exceptions loading raises. */
  datatype LoadError =
    | ParseFailed(syntax: SeError)        // from `separse`
    | Malformed(data: DataError)          // `IndexError`/`AttributeError` reading a declaration
    | NoHead                              // `()`: there is no `args[0]`
    | ImportWithoutPath                   // `import` in code that has no directory
    | FileMissing(dir: string, name: Key) // `open` fails
    | TooDeep                             // imports nested past the bound
    | UnknownData(head: Expr)

  datatype Store = Store(objects: map<Key, Record>, types: map<Key, Record>)

  /** The store after a load, and the exception that ended it, if any. */
  datatype Outcome = Outcome(store: Store, error: Option<LoadError>)

  /** `x == w` in Python: a symbol or a string with that text. */
  predicate IsWord(x: Expr, w: string) {
    !x.SExpr? && x.text == w
  }

  /** `load(code, path)` from store `st`: every expression parsed is declared in
      turn, and a syntax error is raised only once the expressions before it have
      been declared. Imports may nest `depth` deep. */
  function Loaded(st: Store, tokens: seq<SeToken>, path: Option<string>, files: Files, depth: nat): Outcome
    decreases depth, 1
  {
    var parsed := Separsed(tokens);
    RunYieldsExpressions([], tokens);
    var r := DeclaredAll(st, parsed.items, path, files, depth);
    if r.error.None? && parsed.failure.Some? then Outcome(r.store, Some(ParseFailed(parsed.failure.value)))
    else r
  }

  function DeclaredAll(st: Store, exprs: seq<Expr>, path: Option<string>, files: Files, depth: nat): Outcome
    requires forall x :: x in exprs ==> x.SExpr?
    decreases depth, 0, |exprs|
  {
    if exprs == [] then Outcome(st, None)
    else
      var r := Declared(st, exprs[0], path, files, depth);
      if r.error.Some? then r else DeclaredAll(r.store, exprs[1..], path, files, depth)
  }

  /** One iteration of the loop in `load`: dispatch on the head. */
  function Declared(st: Store, se: Expr, path: Option<string>, files: Files, depth: nat): Outcome
    requires se.SExpr?
    decreases depth, 0, 0
  {
    if se.args == [] then Outcome(st, Some(NoHead))
    else if IsWord(se.args[0], "import") then
      if path.None? then Outcome(st, Some(ImportWithoutPath))
      else if |se.args| < 2 then Outcome(st, Some(Malformed(MissingArgument)))
      else if (path.value, KeyOf(se.args[1])) !in files then
        Outcome(st, Some(FileMissing(path.value, KeyOf(se.args[1]))))
      else if depth == 0 then Outcome(st, Some(TooDeep))
      else
        var f := files[(path.value, KeyOf(se.args[1]))];
        Loaded(st, f.tokens, Some(f.dir), files, depth - 1)
    else if IsWord(se.args[0], "object") then
      match FromSe(ObjectRecord, se)
      case Err(e) => Outcome(st, Some(Malformed(e)))
      case Ok(rec) => Outcome(st.(objects := st.objects[rec.name := rec]), None)
    else if IsWord(se.args[0], "type") then
      match FromSe(TypeRecord, se)
      case Err(e) => Outcome(st, Some(Malformed(e)))
      case Ok(rec) => Outcome(st.(types := st.types[rec.name := rec]), None)
    else Outcome(st, Some(UnknownData(se.args[0])))
  }

  class KnowledgeBase {
    var objects: map<Key, Record>
    var types: map<Key, Record>

    function Contents(): Store
      reads this
    {
      Store(objects, types)
    }

    constructor()
      ensures Contents() == Store(map[], map[])
    {
      objects := map[];
      types := map[];
    }

    /** `load`: the maps are updated in place as each expression is declared,
        so what was stored before an exception stays stored. */
    method Load(tokens: seq<SeToken>, path: Option<string>, files: Files, depth: nat)
      returns (error: Option<LoadError>)
      modifies this
      ensures Outcome(Contents(), error) == Loaded(old(Contents()), tokens, path, files, depth)
      decreases depth, 1
    {
      var parsed := Separse(tokens);
      RunYieldsExpressions([], tokens);
      var items := parsed.items;
      ghost var start := Contents();
      var i := 0;
      while i < |items|
        invariant 0 <= i <= |items|
        invariant DeclaredAll(start, items, path, files, depth)
               == DeclaredAll(Contents(), items[i..], path, files, depth)
      {
        assert items[i..][0] == items[i] && items[i..][1..] == items[i + 1..];
        error := Declare(items[i], path, files, depth);
        if error.Some? {
          return;
        }
        i := i + 1;
      }
      error := if parsed.failure.Some? then Some(ParseFailed(parsed.failure.value)) else None;
    }

    /** The body of the loop in `load`. */
    method Declare(se: Expr, path: Option<string>, files: Files, depth: nat)
      returns (error: Option<LoadError>)
      requires se.SExpr?
      modifies this
      ensures Outcome(Contents(), error) == Declared(old(Contents()), se, path, files, depth)
      decreases depth, 0
    {
      if se.args == [] {
        return Some(NoHead);
      }
      var head := se.args[0];
      if IsWord(head, "import") {
        if path.None? {
          return Some(ImportWithoutPath);
        }
        if |se.args| < 2 {
          return Some(Malformed(MissingArgument));
        }
        var name := (path.value, KeyOf(se.args[1]));
        if name !in files {
          return Some(FileMissing(name.0, name.1));
        }
        if depth == 0 {
          return Some(TooDeep);
        }
        error := Load(files[name].tokens, Some(files[name].dir), files, depth - 1);
      } else if IsWord(head, "object") {
        var r := FromSe(ObjectRecord, se);
        if r.Err? {
          return Some(Malformed(r.error));
        }
        objects := objects[r.value.name := r.value];
        error := None;
      } else if IsWord(head, "type") {
        var r := FromSe(TypeRecord, se);
        if r.Err? {
          return Some(Malformed(r.error));
        }
        types := types[r.value.name := r.value];
        error := None;
      } else {
        error := Some(UnknownData(head));
      }
    }
  }

  // ---------------------------------------------------------------- lemmas

  /** Declaring `xs` then `ys` is declaring `xs + ys`; an error in `xs` means `ys`
      is never looked at. */
  lemma {:induction false} DeclaredAllAppend(st: Store, xs: seq<Expr>, ys: seq<Expr>,
                                             path: Option<string>, files: Files, depth: nat)
    requires forall x :: x in xs + ys ==> x.SExpr?
    ensures var r := DeclaredAll(st, xs, path, files, depth);
      DeclaredAll(st, xs + ys, path, files, depth) ==
        if r.error.Some? then r else DeclaredAll(r.store, ys, path, files, depth)
    decreases |xs|
  {
    if xs == [] {
      assert xs + ys == ys;
    } else {
      assert (xs + ys)[0] == xs[0] && (xs + ys)[1..] == xs[1..] + ys;
      var r := Declared(st, xs[0], path, files, depth);
      if r.error.None? {
        DeclaredAllAppend(r.store, xs[1..], ys, path, files, depth);
      }
    }
  }

  /** A declaration that fails stores nothing itself; only an import can leave
      behind what the imported file stored before it failed. */
  lemma {:induction false} FailureStoresNothing(st: Store, se: Expr, path: Option<string>, files: Files, depth: nat)
    requires se.SExpr? && Declared(st, se, path, files, depth).error.Some?
    requires se.args == [] || !IsWord(se.args[0], "import")
    ensures Declared(st, se, path, files, depth).store == st
  {
  }

  /** Storing an object leaves the types alone and replaces any earlier object
      of the same name. */
  lemma {:induction false} ObjectLeavesTypes(st: Store, se: Expr, path: Option<string>, files: Files, depth: nat)
    requires se.SExpr? && |se.args| >= 1 && IsWord(se.args[0], "object")
    ensures var r := Declared(st, se, path, files, depth);
      r.store.types == st.types &&
      (r.error.None? <==> |se.args| >= 2 && FromSe(ObjectRecord, se).Ok?) &&
      (r.error.None? ==> r.store.objects == st.objects[KeyOf(se.args[1]) := FromSe(ObjectRecord, se).value])
  {
  }

  /** Storing a type leaves the objects alone and replaces any earlier type of
      the same name. */
  lemma {:induction false} TypeLeavesObjects(st: Store, se: Expr, path: Option<string>, files: Files, depth: nat)
    requires se.SExpr? && |se.args| >= 1 && IsWord(se.args[0], "type")
    ensures var r := Declared(st, se, path, files, depth);
      r.store.objects == st.objects &&
      (r.error.None? <==> |se.args| >= 2 && FromSe(TypeRecord, se).Ok?) &&
      (r.error.None? ==> r.store.types == st.types[KeyOf(se.args[1]) := FromSe(TypeRecord, se).value])
  {
  }

  /** The last declaration of a name is the one stored. */
  lemma {:induction false} LastDeclarationWins(st: Store, xs: seq<Expr>, se: Expr, path: Option<string>, files: Files, depth: nat)
    requires forall x :: x in xs ==> x.SExpr?
    requires se.SExpr? && |se.args| >= 2 && IsWord(se.args[0], "object")
    requires DeclaredAll(st, xs + [se], path, files, depth).error.None?
    ensures FromSe(ObjectRecord, se).Ok?
    ensures var r := DeclaredAll(st, xs + [se], path, files, depth);
      KeyOf(se.args[1]) in r.store.objects &&
      r.store.objects[KeyOf(se.args[1])] == FromSe(ObjectRecord, se).value
  {
    DeclaredAllAppend(st, xs, [se], path, files, depth);
    assert [se][1..] == [];
  }

  /** Loading a document declares its expressions in order. */
  lemma {:induction false} LoadDocument(st: Store, fs: seq<Form>, path: Option<string>, files: Files, depth: nat)
    requires Document(fs)
    ensures forall x :: x in Values(fs) ==> x.SExpr?
    ensures Loaded(st, DocTokens(fs), path, files, depth) == DeclaredAll(st, Values(fs), path, files, depth)
  {
    DocumentRoundTrip(fs);
    RunYieldsExpressions([], DocTokens(fs));
  }

  /** After a failing declaration nothing more is declared. */
  lemma {:induction false} DeclaredAllStops(st: Store, x: Expr, ys: seq<Expr>, path: Option<string>, files: Files, depth: nat)
    requires x.SExpr? && forall y :: y in ys ==> y.SExpr?
    requires Declared(st, x, path, files, depth).error.Some?
    ensures forall y :: y in [x] + ys ==> y.SExpr?
    ensures DeclaredAll(st, [x] + ys, path, files, depth) == Declared(st, x, path, files, depth)
  {
    assert ([x] + ys)[0] == x;
  }

  lemma {:induction false} DocumentSplit(fs: seq<Form>, g: Form, gs: seq<Form>)
    requires Document(fs) && g.ListForm? && Writable(g) && Document(gs)
    ensures Document(fs + [g] + gs)
    ensures DocTokens(fs + [g] + gs) == DocTokens(fs) + DocTokens([g] + gs)
    ensures Values(fs + [g] + gs) == Values(fs) + ([Value(g)] + Values(gs))
  {
    DocumentAppend(fs, [g] + gs);
    assert fs + [g] + gs == fs + ([g] + gs);
    DocumentAppend([g], gs);
    assert ([g] + gs)[0] == g && ([g] + gs)[1..] == gs;
  }

  /** The first declaration that fails ends the load: what the declarations
      before it stored stays stored, and nothing after it is looked at. */
  lemma {:induction false} LoadStopsAt(st: Store, fs: seq<Form>, g: Form, gs: seq<Form>,
                    path: Option<string>, files: Files, depth: nat)
    requires Document(fs) && g.ListForm? && Writable(g) && Document(gs)
    requires DeclaredAll(st, Values(fs), path, files, depth).error.None?
    requires Declared(DeclaredAll(st, Values(fs), path, files, depth).store, Value(g), path, files, depth).error.Some?
    ensures Loaded(st, DocTokens(fs + [g] + gs), path, files, depth)
         == Declared(DeclaredAll(st, Values(fs), path, files, depth).store, Value(g), path, files, depth)
  {
    var s := DeclaredAll(st, Values(fs), path, files, depth).store;
    var rest := [Value(g)] + Values(gs);
    DocumentSplit(fs, g, gs);
    calc {
      Loaded(st, DocTokens(fs + [g] + gs), path, files, depth);
    == { LoadDocument(st, fs + [g] + gs, path, files, depth); }
      DeclaredAll(st, Values(fs) + rest, path, files, depth);
    == { DeclaredAllStops(s, Value(g), Values(gs), path, files, depth);
         DeclaredAllAppend(st, Values(fs), rest, path, files, depth); }
      DeclaredAll(s, rest, path, files, depth);
    == { DeclaredAllStops(s, Value(g), Values(gs), path, files, depth); }
      Declared(s, Value(g), path, files, depth);
    }
  }

  /** A head other than `import`, `object` and `type` ends the load with an error. */
  lemma {:induction false} UnknownHeadStops(st: Store, fs: seq<Form>, g: Form, gs: seq<Form>,
                         path: Option<string>, files: Files, depth: nat)
    requires Document(fs) && g.ListForm? && Writable(g) && Document(gs) && |g.args| >= 1
    requires !IsWord(Value(g.args[0]), "import") && !IsWord(Value(g.args[0]), "object")
    requires !IsWord(Value(g.args[0]), "type")
    requires DeclaredAll(st, Values(fs), path, files, depth).error.None?
    ensures Loaded(st, DocTokens(fs + [g] + gs), path, files, depth)
         == Outcome(DeclaredAll(st, Values(fs), path, files, depth).store, Some(UnknownData(Value(g.args[0]))))
  {
    ListValue(g);
    assert Value(g).args[0] == Value(g.args[0]);
    LoadStopsAt(st, fs, g, gs, path, files, depth);
  }

  /** `import` in code read without a directory ends the load with an error. */
  lemma {:induction false} ImportNeedsPath(st: Store, fs: seq<Form>, g: Form, gs: seq<Form>, files: Files, depth: nat)
    requires Document(fs) && g.ListForm? && Writable(g) && Document(gs) && |g.args| >= 1
    requires IsWord(Value(g.args[0]), "import")
    requires DeclaredAll(st, Values(fs), None, files, depth).error.None?
    ensures Loaded(st, DocTokens(fs + [g] + gs), None, files, depth)
         == Outcome(DeclaredAll(st, Values(fs), None, files, depth).store, Some(ImportWithoutPath))
  {
    ListValue(g);
    assert Value(g).args[0] == Value(g.args[0]);
    LoadStopsAt(st, fs, g, gs, None, files, depth);
  }

  /** A syntax error is raised only after the expressions before it have been
      declared, so their records stay stored. */
  lemma {:induction false} DeclaredBeforeSyntaxError(st: Store, fs: seq<Form>, f: Form, path: Option<string>,
                                  files: Files, depth: nat)
    requires Document(fs) && f.ListForm? && SubformsWritable(f) && !DistinctNames(KeywordValues(f))
    ensures forall x :: x in Values(fs) ==> x.SExpr?
    ensures var r := DeclaredAll(st, Values(fs), path, files, depth);
      var l := Loaded(st, DocTokens(fs) + FormTokens(f), path, files, depth);
      l.store == r.store &&
      (r.error.Some? ==> l.error == r.error) &&
      (r.error.None? ==> l.error.Some? && l.error.value.ParseFailed? && l.error.value.syntax.DefinedTwice?)
  {
    DuplicateKeyword(fs, f);
    RunYieldsExpressions([], DocTokens(fs) + FormTokens(f));
  }
}
