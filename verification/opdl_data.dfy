/** `OPDLData.from_se` (robiphora/opdl.py, lines 156-193): the projection of a
    parsed expression onto a `Type` or an `Object` record. */
module OpdlData {
  import opened Outcomes
  import opened OpdlParse

  /** A record name or a member of an attribute set. Symbols and strings are
      Python strings, so the two compare and hash by their text alone; an
      expression stands for itself. */
  datatype Key = TextKey(text: string) | ExprKey(expr: Expr)

  function KeyOf(x: Expr): Key {
    if x.SExpr? then ExprKey(x) else TextKey(x.text)
  }

  /** `set(xs)`. */
  function Keys(xs: seq<Expr>): set<Key> {
    set x | x in xs :: KeyOf(x)
  }

  datatype RecordKind = TypeRecord | ObjectRecord

  /** The `namepairs` of each record class: (attribute, keyword). */
  function NamePairs(kind: RecordKind): seq<(string, string)> {
    match kind
    case TypeRecord =>
      [("bases", "bases"), ("antibases", "antibases"), ("adjectives", "provides-adjectives"),
       ("pronouns", "pronouns"), ("nouns", "nouns")]
    case ObjectRecord => [("types", "type")]
  }

  function AttributeNames(pairs: seq<(string, string)>): set<string> {
    set p | p in pairs :: p.0
  }

  /** A `Type` or `Object`: its name and one set per attribute. */
  datatype Record = Record(kind: RecordKind, name: Key, attrs: map<string, set<Key>>)

  /** The exceptions `from_se` raises: an `IndexError` when there is no second
      positional argument, an `AttributeError` when a mapped keyword's value has
      no `args` because it is a symbol or a string. */
  datatype DataError = MissingArgument | NotAnExpression(keyword: string)

  /** The keyword's value is there but is not a parenthesised expression. */
  predicate Malformed(kw: string, kwargs: map<string, Expr>) {
    kw in kwargs && !kwargs[kw].SExpr?
  }

  /** The `setattr` loop over the name pairs, from attribute values `m`: each
      keyword present replaces its attribute by the set of its expression's
      positional arguments; the first malformed one raises. */
  function SetAttributes(pairs: seq<(string, string)>, kwargs: map<string, Expr>,
                         m: map<string, set<Key>>): (r: Result<map<string, set<Key>>, DataError>)
    ensures r.Err? <==> exists i :: 0 <= i < |pairs| && Malformed(pairs[i].1, kwargs)
    ensures r.Err? ==> (r.error.NotAnExpression? &&
      exists i :: 0 <= i < |pairs| &&
        pairs[i].1 == r.error.keyword && Malformed(pairs[i].1, kwargs) &&
        forall j :: 0 <= j < i ==> !Malformed(pairs[j].1, kwargs))
    ensures r.Ok? ==> m.Keys <= r.value.Keys <= m.Keys + AttributeNames(pairs)
    decreases |pairs|
  {
    if pairs == [] then Ok(m)
    else
      var (attr, kw) := pairs[0];
      var r := if kw !in kwargs then SetAttributes(pairs[1..], kwargs, m)
               else if !kwargs[kw].SExpr? then Err(NotAnExpression(kw))
               else SetAttributes(pairs[1..], kwargs, m[attr := Keys(kwargs[kw].args)]);
      assert forall i :: 0 < i < |pairs| ==> pairs[i] == pairs[1..][i - 1];
      assert forall p :: p in pairs <==> p == pairs[0] || p in pairs[1..];
      assert AttributeNames(pairs) == {attr} + AttributeNames(pairs[1..]);
      r
  }

  /** With distinct attribute names, each attribute ends as the set its keyword
      gives when the keyword is present, and keeps its value otherwise. */
  lemma {:induction false} SetAttributesValues(pairs: seq<(string, string)>, kwargs: map<string, Expr>,
                                               m: map<string, set<Key>>, i: nat)
    requires forall a, b :: 0 <= a < b < |pairs| ==> pairs[a].0 != pairs[b].0
    requires i < |pairs| && pairs[i].0 in m
    requires SetAttributes(pairs, kwargs, m).Ok?
    ensures var (attr, kw) := pairs[i];
      SetAttributes(pairs, kwargs, m).value[attr] == if kw in kwargs then Keys(kwargs[kw].args) else m[attr]
    decreases |pairs|
  {
    var (attr, kw) := pairs[0];
    var m' := if kw in kwargs then m[attr := Keys(kwargs[kw].args)] else m;
    assert SetAttributes(pairs, kwargs, m) == SetAttributes(pairs[1..], kwargs, m');
    if i == 0 {
      SetAttributesUntouched(pairs[1..], kwargs, m', attr);
    } else {
      assert pairs[1..][i - 1] == pairs[i];
      SetAttributesValues(pairs[1..], kwargs, m', i - 1);
    }
  }

  /** An attribute no pair names keeps its value. */
  lemma {:induction false} SetAttributesUntouched(pairs: seq<(string, string)>, kwargs: map<string, Expr>,
                                                  m: map<string, set<Key>>, attr: string)
    requires attr in m && attr !in AttributeNames(pairs)
    requires SetAttributes(pairs, kwargs, m).Ok?
    ensures SetAttributes(pairs, kwargs, m).value[attr] == m[attr]
    decreases |pairs|
  {
    if pairs != [] {
      var (a, kw) := pairs[0];
      assert pairs[0] in pairs;
      var m' := if kw in kwargs then m[a := Keys(kwargs[kw].args)] else m;
      assert AttributeNames(pairs[1..]) <= AttributeNames(pairs);
      SetAttributesUntouched(pairs[1..], kwargs, m', attr);
    }
  }

  /** `cls(name=se.args[1])` followed by the `setattr` loop: every attribute starts
      as the empty set. */
  function FromSe(kind: RecordKind, se: Expr): (r: Result<Record, DataError>)
    requires se.SExpr?
    ensures r.Err? && r.error == MissingArgument <==> |se.args| < 2
    ensures r.Err? <==> (|se.args| < 2 ||
      exists i :: 0 <= i < |NamePairs(kind)| && Malformed(NamePairs(kind)[i].1, se.kwargs))
    ensures r.Ok? ==> r.value.kind == kind && r.value.name == KeyOf(se.args[1])
    ensures r.Ok? ==> r.value.attrs.Keys == AttributeNames(NamePairs(kind))
  {
    if |se.args| < 2 then Err(MissingArgument)
    else
      var pairs := NamePairs(kind);
      var init := map a | a in AttributeNames(pairs) :: {};
      match SetAttributes(pairs, se.kwargs, init)
      case Err(e) => Err(e)
      case Ok(attrs) => Ok(Record(kind, KeyOf(se.args[1]), attrs))
  }

  /** Each attribute of a projected record is the set of positional arguments of
      its keyword's expression, or empty when the keyword is absent. For a type,
      `adjectives` comes from `provides-adjectives`; for an object, `types` comes
      from `type`. */
  lemma {:induction false} FromSeAttributes(kind: RecordKind, se: Expr, i: nat)
    requires se.SExpr? && FromSe(kind, se).Ok? && i < |NamePairs(kind)|
    ensures var (attr, kw) := NamePairs(kind)[i];
      FromSe(kind, se).value.attrs[attr] == if kw in se.kwargs then Keys(se.kwargs[kw].args) else {}
  {
    var pairs := NamePairs(kind);
    var init := map a | a in AttributeNames(pairs) :: {};
    assert pairs[i] in pairs;
    SetAttributesValues(pairs, se.kwargs, init, i);
  }

  /** The head and any keyword outside the name pairs play no part. */
  lemma {:induction false} FromSeIgnores(kind: RecordKind, head: Expr, rest: seq<Expr>, kwargs: map<string, Expr>,
                      k: string, v: Expr)
    requires k !in set p | p in NamePairs(kind) :: p.1
    ensures FromSe(kind, SExpr([head] + rest, kwargs[k := v])) == FromSe(kind, SExpr([Symbol("")] + rest, kwargs))
  {
    var pairs := NamePairs(kind);
    var init := map a | a in AttributeNames(pairs) :: {};
    SetAttributesIgnores(pairs, kwargs, init, k, v);
  }

  lemma {:induction false} SetAttributesIgnores(pairs: seq<(string, string)>, kwargs: map<string, Expr>,
                                                m: map<string, set<Key>>, k: string, v: Expr)
    requires k !in set p | p in pairs :: p.1
    ensures SetAttributes(pairs, kwargs[k := v], m) == SetAttributes(pairs, kwargs, m)
    decreases |pairs|
  {
    if pairs != [] {
      var (attr, kw) := pairs[0];
      assert pairs[0] in pairs;
      assert (set p | p in pairs[1..] :: p.1) <= (set p | p in pairs :: p.1);
      if !Malformed(kw, kwargs) {
        var m' := if kw in kwargs then m[attr := Keys(kwargs[kw].args)] else m;
        SetAttributesIgnores(pairs[1..], kwargs, m', k, v);
      }
    }
  }
}
