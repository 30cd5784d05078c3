/** The term algebra of the grammar engine (robiphora/ccg.py): logical-form
    productions with their substitution, the slash types and lexicon entries. */
module CcgTerms {
  import opened Outcomes

  /** A logical-form production. A `Name` is a bare identifier: a variable
      reference, or a constant when nothing substitutes for it. */
  datatype Production =
    | Name(word: string)
    | Abstraction(variable: string, prod: Production)
    | Predicate(name: string, args: seq<Production>)
    | And(lhs: Production, rhs: Production)

  /** A syntactic type. `TypeMissingLeft(lhs, missing)` (written lhs\missing) yields
      `lhs` once a `missing` stands to its left; `TypeMissingRight` (lhs/missing)
      once one stands to its right. */
  datatype Type =
    | Type(name: string)
    | TypeMissingLeft(lhs: Type, missing: Type)
    | TypeMissingRight(lhs: Type, missing: Type)

  /** One lexicon entry: `word := typ [probdict default] : production`. The weights
      are carried, never computed with. */
  datatype Definition = Definition(
    word: string,
    typ: Type,
    production: Production,
    probdict: map<string, real>,
    defaultprob: real)

  /** Substitution `self.apply(pred, name)`: replaces the `Name`s equal to `name` by
      `pred`, without renaming bound variables. An absent or empty `name` only means
      something to an abstraction, which then substitutes for its own variable and
      drops its λ. */
  function Apply(p: Production, pred: Production, name: Option<string>): (r: Production)
    ensures p.Name? ==> (r == pred <==> name == Some(p.word) || pred == p)
    ensures p.Name? && name != Some(p.word) ==> r == p
    ensures p.Abstraction? && name == Some(p.variable) ==> r == p
    ensures p.Abstraction? && name != Some(p.variable) && (name.None? || name == Some("")) ==>
      r == Apply(p.prod, pred, Some(p.variable))
    ensures p.Abstraction? && name.Some? && name.value != "" && name.value != p.variable ==>
      r == Abstraction(p.variable, Apply(p.prod, pred, name))
    ensures p.Predicate? ==> r.Predicate? && r.name == p.name && |r.args| == |p.args|
    ensures p.Predicate? ==> forall i :: 0 <= i < |p.args| ==> r.args[i] == Apply(p.args[i], pred, name)
    ensures p.And? ==> r == And(Apply(p.lhs, pred, name), Apply(p.rhs, pred, name))
    decreases p
  {
    match p
    case Name(w) => if name == Some(w) then pred else p
    case Abstraction(v, body) =>
      if name == Some(v) then p
      else if name.None? || name.value == "" then Apply(body, pred, Some(v))
      else Abstraction(v, Apply(body, pred, name))
    case Predicate(n, args) =>
      if args == [] then p
      else Predicate(n, seq(|args|, i requires 0 <= i < |args| => Apply(args[i], pred, name)))
    case And(l, r) => And(Apply(l, pred, name), Apply(r, pred, name))
  }

  /** `n` occurs in `p` as a `Name` that no enclosing abstraction over `n` binds. */
  predicate FreeIn(n: string, p: Production)
    decreases p
  {
    match p
    case Name(w) => w == n
    case Abstraction(v, body) => v != n && FreeIn(n, body)
    case Predicate(_, args) => exists i :: 0 <= i < |args| && FreeIn(n, args[i])
    case And(l, r) => FreeIn(n, l) || FreeIn(n, r)
  }

  /** Substituting for a name that does not occur free changes nothing; in
      particular an abstraction asked to substitute for its own variable is returned
      unchanged (shadowing), and so is a predicate without arguments. */
  lemma {:induction false} ApplyNotFree(p: Production, pred: Production, n: string)
    requires n != "" && !FreeIn(n, p)
    ensures Apply(p, pred, Some(n)) == p
    decreases p
  {
    match p
    case Name(_) =>
    case Abstraction(v, body) =>
      if v != n { ApplyNotFree(body, pred, n); }
    case Predicate(m, args) =>
      if args != [] {
        forall i | 0 <= i < |args| ensures Apply(args[i], pred, Some(n)) == args[i] {
          ApplyNotFree(args[i], pred, n);
        }
        assert Apply(p, pred, Some(n)).args == args;
      }
    case And(l, r) =>
      ApplyNotFree(l, pred, n);
      ApplyNotFree(r, pred, n);
  }

  /** After substituting `pred` for `n`, `n` is free only where `pred` brought it. */
  lemma {:induction false} ApplyRemovesName(p: Production, pred: Production, n: string)
    requires n != "" && !FreeIn(n, pred)
    ensures !FreeIn(n, Apply(p, pred, Some(n)))
    decreases p
  {
    match p
    case Name(_) =>
    case Abstraction(v, body) =>
      if v != n { ApplyRemovesName(body, pred, n); }
    case Predicate(m, args) =>
      if args != [] {
        var r := Apply(p, pred, Some(n));
        forall i | 0 <= i < |args| ensures !FreeIn(n, r.args[i]) {
          ApplyRemovesName(args[i], pred, n);
        }
      }
    case And(l, r) =>
      ApplyRemovesName(l, pred, n);
      ApplyRemovesName(r, pred, n);
  }

  /** Substitution adds no free name beyond those of `pred`: a name free in the
      result was free in `p` (and is not the one replaced) or is free in `pred`. */
  lemma {:induction false} ApplyFreeNames(p: Production, pred: Production, n: string, m: string)
    requires n != ""
    requires FreeIn(m, Apply(p, pred, Some(n)))
    ensures (FreeIn(m, p) && m != n) || FreeIn(m, pred)
    decreases p
  {
    match p
    case Name(_) =>
    case Abstraction(v, body) =>
      if v != n { ApplyFreeNames(body, pred, n, m); }
    case Predicate(k, args) =>
      if args != [] {
        var r := Apply(p, pred, Some(n));
        var i :| 0 <= i < |r.args| && FreeIn(m, r.args[i]);
        ApplyFreeNames(args[i], pred, n, m);
      }
    case And(l, r) =>
      if FreeIn(m, Apply(l, pred, Some(n))) {
        ApplyFreeNames(l, pred, n, m);
      } else {
        ApplyFreeNames(r, pred, n, m);
      }
  }

  /** Substituting a name for itself is the identity. */
  lemma {:induction false} ApplyIdentity(p: Production, n: string)
    requires n != ""
    ensures Apply(p, Name(n), Some(n)) == p
    decreases p
  {
    match p
    case Name(_) =>
    case Abstraction(v, body) =>
      if v != n { ApplyIdentity(body, n); }
    case Predicate(m, args) =>
      if args != [] {
        forall i | 0 <= i < |args| ensures Apply(args[i], Name(n), Some(n)) == args[i] {
          ApplyIdentity(args[i], n);
        }
        assert Apply(p, Name(n), Some(n)).args == args;
      }
    case And(l, r) =>
      ApplyIdentity(l, n);
      ApplyIdentity(r, n);
  }

  /** Applying an abstraction without a target consumes its λ: the result is the
      body with the argument substituted for the bound variable, which is gone from
      the result unless the argument itself mentions it. */
  lemma {:induction false} BetaConsumesVariable(v: string, body: Production, arg: Production)
    requires v != "" && !FreeIn(v, arg)
    ensures Apply(Abstraction(v, body), arg, None) == Apply(body, arg, Some(v))
    ensures !FreeIn(v, Apply(Abstraction(v, body), arg, None))
  {
    ApplyRemovesName(body, arg, v);
  }

  /** The documented limitation: no renaming, so a free name of the argument is
      captured by an abstraction it is substituted under. */
  lemma {:induction false} SubstitutionCaptures()
    ensures Apply(Abstraction("x", Name("y")), Name("x"), Some("y"))
         == Abstraction("x", Name("x"))
  {
  }
}
