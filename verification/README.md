# robiphora grammar and knowledge-base parsers, modelled in Dafny

robiphora reads two small languages.

- **Grammar definitions** (`robiphora/ccg.py`). Each definition has the form
  `word := type [weights] : production`. A shift-reduce stack machine, `parse`, turns a
  token stream into `Definition` records. It holds a one-token lookahead and a `typectx`
  flag.
  - The type is a slash type: `S\N/N` means `(S\N)/N`.
  - The weight table is optional: `[n1 p1, n2 p2, ..., default]`.
  - The production is a lambda term built from names, abstractions, predicates and
    conjunctions. Its `apply` methods substitute without renaming bound variables.
- **OPDL** (`robiphora/opdl.py`). These are parenthesised expressions with trailing
  `:keyword value` pairs, read by a second stack machine, `separse`.
  - `OPDLData.from_se` projects an expression onto a `Type` or `Object` record.
  - `KnowledgeBase.load` dispatches on each expression's head (`import`, `object`,
    `type`). It stores the records in two dictionaries.

Both parsers work over token datatypes and share one stack-pattern test, `match`
(`StackMatch.Match`). Each parser is modelled twice:

- a recursive specification function, `CcgParse.Run` and `OpdlParse.SeRun`. It takes
  one loop iteration per step and terminates by a lexicographic measure.
  - For `Run`: the remaining input, then the stack size, then whether the top entry is a
    name, `)` or `]` (`CcgParse.TopWeight`). Those are the entries that reduce in place
    to an entry of the same stack size.
  - For `SeRun`: the remaining input, then the stack size;
- an imperative `while` loop over a local stack, `CcgParse.Parse` and
  `OpdlParse.Separse`. It is proved to produce exactly what the specification function
  produces.

A run produces an `Emitted(items, failure)`. `items` holds what the generator yields
before it stops, and `failure` holds the exception it then raises, if any.

Three kinds of lemma state what the parsers do:

- One-step lemmas (`CcgSteps`, `OpdlSteps`) name the rule that fires on each stack shape.
- Writers produce the tokens of any grammar or document. These are
  `CcgLexicon.GrammarTokens` and `OpdlDocuments.DocTokens`. Round-trip lemmas show that
  parsing those tokens yields exactly the written definitions or expressions.
- Error lemmas show which exception each kind of malformed input raises, and what was
  yielded before it.

The knowledge base is a class with the two maps as fields. `Load` and `Declare` are
loops and methods that update the fields in place. Each is proved against a
specification function (`Loaded`, `Declared`) whose properties are proved as lemmas.

Modules:

- `Outcomes`: `Option`, `Result`, `Emitted`, sequence reversal.
- `StackMatch`: `match`.
- `CcgTerms`: productions, types, definitions, substitution.
- `CcgParse`: stack entries, the rule cascade, `Run` and `Parse`.
- `CcgSteps`, `CcgMoves`: one step of `parse`, and its effect on the whole run.
- `CcgGrammar`: types, weight tables and productions, parsed from their written tokens.
- `CcgLexicon`: whole definitions and grammars; the round trip and the error cases.
- `OpdlParse`: stack entries, `SeStep`, `SeRun` and `Separse`.
- `OpdlSteps`: one step of `separse`, and its effect on the run.
- `OpdlForms`: written expressions (`Form`), their tokens and values; keyword folding.
- `OpdlDocuments`: whole documents; the round trip and the syntax errors.
- `OpdlData`: `from_se` and the name pairs of `Type` and `Object`.
- `OpdlKnowledge`: the `KnowledgeBase` class and `load`.

## Model

| member | source | states |
|---|---|---|
| StackMatch.MatchIff | robiphora/opdl.py:114-120 | `match` holds iff the pattern is no longer than the stack and the topmost entries, as many as the pattern has, have the pattern's kinds, aligned at the top |
| StackMatch.MatchOnTop | robiphora/opdl.py:114-120 | entries of the pattern's kinds on top of any stack make `match` hold, whatever lies below |
| CcgTerms.Apply | robiphora/ccg.py:28-113 | a name gives `pred` exactly when the target is that name (or `pred` is the name itself), and is unchanged otherwise. An abstraction whose variable is the target is returned unchanged. With an empty or absent target, an abstraction drops its λ and gives its body with `pred` substituted for its own variable. For any other target it keeps its λ and variable and substitutes into the body. A predicate keeps its name and argument count and substitutes each argument. A conjunction substitutes into both sides |
| CcgTerms.ApplyNotFree | robiphora/ccg.py:28-113 | substituting for a name that is not free changes nothing (shadowing, argument-less predicates) |
| CcgTerms.ApplyRemovesName | robiphora/ccg.py:28-113 | after substitution the target is free only if `pred` brought it |
| CcgTerms.ApplyFreeNames | robiphora/ccg.py:28-113 | a name free in the result was free in the production and is not the target, or is free in `pred` |
| CcgTerms.ApplyIdentity | robiphora/ccg.py:28-113 | substituting a name for itself is the identity |
| CcgTerms.BetaConsumesVariable | robiphora/ccg.py:78-84 | applying an abstraction with no target gives its body with the argument substituted for its own variable, dropping the λ; the variable is then no longer free unless the argument mentions it |
| CcgTerms.SubstitutionCaptures | robiphora/ccg.py:78-84 | there is no renaming: a free name of the argument is captured by an abstraction it is substituted under |
| CcgParse.StepIsCascade | robiphora/ccg.py:215-325 | the step function chooses the same action as the source's `if`/`elif` chain taken in source order |
| CcgParse.RunUnfolds | robiphora/ccg.py:212-327 | one iteration. After `:=`, `:` or `[` the lookahead is shifted and the next token read, and a stream that ends there raises. A reduction replaces the stack. A completed definition is yielded. The generic shift ends the loop at end of input, and a non-empty stack then raises "incomplete parse" |
| CcgParse.Parse | robiphora/ccg.py:207-327 | the loop with its lookahead and `typectx` yields exactly the definitions and the exception that `Parsed` gives |
| CcgSteps.StepOnControl | robiphora/ccg.py:215-229 | with `:=`, `:` or `[` on top, the next step is the guarded shift that sets `typectx` (true after `:=`); other control tokens that end no rule are shifted normally |
| CcgSteps.StepBeforeControl | robiphora/ccg.py:268-316 | outside type context, a production on top is never reduced while the lookahead is a control token |
| CcgSteps.StepTypeName | robiphora/ccg.py:230-232 | in type context a name on top becomes an atomic type |
| CcgSteps.StepParenType | robiphora/ccg.py:233-236 | `( T )` reduces to `T` |
| CcgSteps.StepMissing | robiphora/ccg.py:237-244 | `L \ M` and `L / M` reduce as soon as both types are on top, with `L` the result and `M` the missing argument |
| CcgSteps.StepLastWeight | robiphora/ccg.py:245-251 | `n p ]` gives the table `{n: p}` with default 1.0 |
| CcgSteps.StepDefaultWeight | robiphora/ccg.py:252-257 | with `[` or `,` directly below, `p ]` gives an empty table with default `p` |
| CcgSteps.StepMoreWeights | robiphora/ccg.py:258-267 | `n p , table default` inserts `n: p` into the table and keeps the default |
| CcgSteps.StepNoArgs | robiphora/ccg.py:278-281 | outside type context, with a production or `(` directly below, `)` becomes an empty argument list |
| CcgSteps.StepArg | robiphora/ccg.py:282-286 | a production before an argument list is appended to it |
| CcgSteps.StepCommaArg | robiphora/ccg.py:287-291 | a production and comma before an argument list are appended to it |
| CcgSteps.StepPredicate | robiphora/ccg.py:292-295 | `name ( list` becomes a predicate with the list reversed |
| CcgSteps.StepAbstraction | robiphora/ccg.py:268-272 | `λ x . P` reduces to an abstraction when the lookahead is not a control token |
| CcgSteps.StepAnd | robiphora/ccg.py:273-277 | `L Λ R` reduces to a conjunction when the lookahead is not a control token |
| CcgSteps.StepDefinition | robiphora/ccg.py:308-316 | `w := T : P` yields a definition with an empty table and default 1.0 |
| CcgSteps.StepWeightedDefinition | robiphora/ccg.py:296-307 | `w := T [ table default : P` yields a definition carrying the parsed table and default |
| CcgGrammar.ParseType | robiphora/ccg.py:230-244 | the tokens of any type, after `:=` or `(`, leave exactly that type on the stack |
| CcgGrammar.ParseParenType | robiphora/ccg.py:233-236 | a parenthesised type to the right of a slash leaves the inner type |
| CcgGrammar.SlashesGroupLeft | robiphora/ccg.py:237-244 | `S\N/N` parses as `(S\N)/N` |
| CcgGrammar.ParseWeights | robiphora/ccg.py:245-267 | the tokens of a weight list leave the table `Table(entries, last)` and its default on the stack |
| CcgGrammar.TableLeftmostWins | robiphora/ccg.py:258-267 | entries are inserted right to left, so a repeated name keeps its leftmost weight |
| CcgGrammar.TableNames | robiphora/ccg.py:245-267 | the table's keys are exactly the names written in the list |
| CcgGrammar.TableLastEntry | robiphora/ccg.py:245-251 | a name written only as the last entry has that entry's weight |
| CcgGrammar.ParseArgumentList | robiphora/ccg.py:278-295 | `name ( args )` leaves the predicate with its arguments in source order |
| CcgGrammar.CloseArguments | robiphora/ccg.py:278-291 | the comma-separated arguments fold into an argument list in reverse order |
| CcgGrammar.ParseProduction | robiphora/ccg.py:268-295 | the tokens of any production leave exactly that production on the stack |
| CcgGrammar.ParseAbstraction | robiphora/ccg.py:268-272 | `λ x . body` leaves the abstraction |
| CcgGrammar.ParseConjunction | robiphora/ccg.py:273-277 | `L Λ R` leaves the conjunction |
| CcgLexicon.ParseEntry | robiphora/ccg.py:296-316 | one written definition yields its `Definition` and leaves an empty stack |
| CcgLexicon.GrammarRoundTrip | robiphora/ccg.py:207-327 | parsing the tokens of written definitions yields exactly their `Definition`s, without error. When the end of the stream raises, the last production must not be a bare name |
| CcgLexicon.LastBareNameRaises | robiphora/ccg.py:215-229 | as written: if the last definition's production is a bare name, the stream ends in a guarded shift and the parse raises without yielding that definition |
| CcgLexicon.LastBareNameTolerated | robiphora/ccg.py:317-325 | with the end of the stream handled as the generic shift handles it, that definition is yielded and the parse succeeds |
| CcgLexicon.TrailingWord | robiphora/ccg.py:326-327 | a stray word after complete definitions raises "incomplete parse" after they are yielded |
| CcgLexicon.CutAfterDefine | robiphora/ccg.py:215-219 | input that ends right after `:=` raises after the earlier definitions are yielded |
| OpdlParse.SeStep | robiphora/opdl.py:126-151 | a reduction or an emission shortens the stack, and only a parenthesised expression is emitted |
| OpdlParse.SeRunUnfolds | robiphora/opdl.py:126-153 | one iteration: reduce, raise, yield, shift the next token, or end the loop, raising "parse error" if the stack is not empty |
| OpdlParse.RunYieldsExpressions | robiphora/opdl.py:145-146 | everything `separse` yields is a parenthesised expression |
| OpdlParse.Separse | robiphora/opdl.py:123-153 | the loop yields exactly the expressions and the exception that `Separsed` gives |
| OpdlSteps.StepQuiet | robiphora/opdl.py:147-151 | on a stack no rule matches, the next token is read |
| OpdlSteps.StepKeywordValue | robiphora/opdl.py:127-129 | a keyword name followed by a complete expression becomes a keyword argument |
| OpdlSteps.StepKeyword | robiphora/opdl.py:130-137 | a keyword argument joins the partial expression to its right. It raises "keywords must come at end" if positional arguments were collected, and "defined twice" if the name is taken |
| OpdlSteps.StepPositional | robiphora/opdl.py:138-141 | a complete expression is appended to the partial expression's arguments |
| OpdlSteps.StepClose | robiphora/opdl.py:142-144 | `(` and a partial expression become an expression with the arguments reversed |
| OpdlSteps.StepEmit | robiphora/opdl.py:145-146 | an expression alone on the stack is yielded |
| OpdlSteps.ReadEnd | robiphora/opdl.py:147-153 | at end of input the loop ends, raising exactly when the stack is not empty |
| OpdlForms.ParseForm | robiphora/opdl.py:123-153 | the tokens of any written expression push exactly its value |
| OpdlForms.ClosePositional | robiphora/opdl.py:138-144 | positional arguments collect in reverse order onto the partial expression |
| OpdlForms.CloseKeywords | robiphora/opdl.py:130-137 | the keyword arguments fold into the partial expression's table, or raise "defined twice" |
| OpdlForms.FoldSucceeds | robiphora/opdl.py:130-137 | the fold succeeds iff the names are distinct and not already present, and then adds exactly those keywords |
| OpdlForms.FoldClash | robiphora/opdl.py:134-135 | a failed fold names a keyword written twice |
| OpdlForms.KeywordTableValues | robiphora/opdl.py:136 | with distinct names, each keyword maps to its own value |
| OpdlDocuments.ListValue | robiphora/opdl.py:138-144 | a parsed expression lists its positional arguments in source order; each written keyword maps to its value, and no other key is present |
| OpdlDocuments.DocumentRoundTrip | robiphora/opdl.py:123-153 | parsing the tokens of written expressions yields exactly their values, without error |
| OpdlDocuments.DuplicateKeyword | robiphora/opdl.py:134-135 | a keyword written twice in one expression raises "defined twice" for such a name, after the earlier expressions are yielded |
| OpdlDocuments.KeywordsMustEnd | robiphora/opdl.py:132-133 | a positional argument after a keyword argument raises "keywords must come at end" |
| OpdlDocuments.TopLevelSymbol | robiphora/opdl.py:145-153 | a bare top-level symbol is never yielded: the parse ends with "parse error", and nothing after the symbol is yielded |
| OpdlDocuments.Unclosed | robiphora/opdl.py:152-153 | an unclosed `(` at end of input raises "parse error" |
| OpdlData.SetAttributes | robiphora/opdl.py:170-172 | the loop fails iff some mapped keyword's value is not an expression, and then names the first such keyword; otherwise only attributes of the name pairs are added |
| OpdlData.FromSe | robiphora/opdl.py:160-173 | fails with a missing argument iff there is no second positional argument. It fails iff that argument is missing or a mapped keyword is malformed. Otherwise the record has the right kind, its name is the second positional argument, and it has exactly the attributes of its name pairs |
| OpdlData.FromSeAttributes | robiphora/opdl.py:184-193 | each attribute is the set of its keyword expression's positional arguments, or empty when the keyword is absent; `provides-adjectives` gives `adjectives`, `type` gives `types` |
| OpdlData.FromSeIgnores | robiphora/opdl.py:167-173 | the head and keywords outside the name pairs do not affect the record |
| OpdlKnowledge.KnowledgeBase.constructor | robiphora/opdl.py:197-199 | a new knowledge base has no objects and no types |
| OpdlKnowledge.KnowledgeBase.Load | robiphora/opdl.py:203-220 | the maps are updated in place, declaration by declaration, to the store `Loaded` gives, and the exception `Loaded` gives is raised |
| OpdlKnowledge.KnowledgeBase.Declare | robiphora/opdl.py:209-220 | one declaration updates the maps to the store `Declared` gives and raises its exception |
| OpdlKnowledge.DeclaredAllAppend | robiphora/opdl.py:208-220 | declaring a sequence in two parts is the same as declaring it at once, stopping at the first exception |
| OpdlKnowledge.FailureStoresNothing | robiphora/opdl.py:209-220 | a declaration that raises (other than through an import) leaves both maps unchanged |
| OpdlKnowledge.ObjectLeavesTypes | robiphora/opdl.py:215-216 | `object` never changes `types`; it succeeds iff `from_se` does, and then stores the record under the second positional argument |
| OpdlKnowledge.TypeLeavesObjects | robiphora/opdl.py:217-218 | `type` never changes `objects`; it succeeds iff `from_se` does, and then stores the record under the second positional argument |
| OpdlKnowledge.LastDeclarationWins | robiphora/opdl.py:215-216 | after a successful run, the last `object` declaration of a name is the one stored |
| OpdlKnowledge.LoadDocument | robiphora/opdl.py:208 | loading written expressions declares exactly their values, in order |
| OpdlKnowledge.LoadStopsAt | robiphora/opdl.py:208-220 | a failing declaration ends the load with its exception; everything declared before it stays stored, and nothing after it is declared |
| OpdlKnowledge.UnknownHeadStops | robiphora/opdl.py:219-220 | a head other than `import`, `object` or `type` raises "unknown OPDL data", keeping what was stored before |
| OpdlKnowledge.ImportNeedsPath | robiphora/opdl.py:209-214 | `import` without a path raises, keeping what was stored before |
| OpdlKnowledge.DeclaredBeforeSyntaxError | robiphora/opdl.py:134-135 | expressions yielded before a duplicate keyword stay declared. The load then raises that syntax error unless one of them raised first |

## Left out

- The two regular-expression lexers (`robiphora/ccg.py:168-204`, `robiphora/opdl.py:78-111`). Both parsers take token sequences: `CcgParse.Token` and `OpdlParse.SeToken`.
- File access in `load`: `os.path.dirname`, `open` and `read`. The caller passes the directory as `path`, and the files an `import` can open come as a map from (directory, name) to the directory and tokens of the file.
- Nested imports are bounded by a `depth` parameter, and a load past it raises `TooDeep`. Python has no such bound: a cyclic import recurses until the interpreter's recursion limit.
- `KnowledgeBase(init_load)`: it is the constructor followed by `Load`.
- All `__repr__` methods, and the `debug` printing in `parse`.
- The `isinstance` checks in the constructors of `Type`, `TypeMissing`, `Abstraction` and `Definition`, which raise `TypeError`. Dafny's types rule these cases out.
- `OPDLData.__init__` with keyword arguments. `from_se` calls it with the name alone, so every attribute starts empty, and only that use is modelled.
- Generator laziness. Each parser's output is the sequence it yields plus the exception that ends it. `Load` runs `separse` to the end before declaring anything. It still reports a syntax error only after the expressions yielded before it are declared, and only if none of them raised, so the outcome is the one the interleaved Python code produces.
- Weights are `real` and are only stored. Python float rounding is not modelled.
- Python hashes a parenthesised expression by identity. The model keys such a name or set member by its value, so two equal but distinct expressions are one key here.
- A `StopIteration` from `next(tokens)` inside the `parse` generator is modelled as an error outcome (`StreamEnded`). Python 3.7 and later turn it into `RuntimeError`. Python 3.6 instead ends the generator silently.
- The default weight of a definition without a table, and of a table whose last entry names a word, is 1.0 (`robiphora/ccg.py:117`, `:248`). Weight-table entries are reduced right to left, so the leftmost weight of a repeated name wins.
- CcgLexicon.GrammarRoundTrip: stated for token sequences the writers produce, that is definitions whose productions are well shaped. Other inputs are characterised only through `Parse`'s contract and the error lemmas.
- OpdlDocuments.DocumentRoundTrip: stated for written expressions whose keyword names are distinct within each expression. The duplicate case is `DuplicateKeyword`.

## Findings

| source | as written | input that shows it | evidently intended | confidence | as-written member | corrected member |
|---|---|---|---|---|---|---|
| robiphora/ccg.py:224 | after `:` (and likewise after `:=` at line 219, after `[` at line 228, and at the first read at line 210) the lookahead is shifted and `next(tokens)` is called unguarded, so a stream that ends there raises instead of ending the loop | a grammar whose last definition has a bare name as its production, e.g. `a := S : b` | end of stream handled as the generic shift at lines 317-325 handles it, yielding that last definition | not executed | CcgLexicon.LastBareNameRaises | CcgLexicon.LastBareNameTolerated |
