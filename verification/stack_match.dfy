/** The stack-suffix test shared by both shift-reduce parsers (opdl.py `match`). */
module StackMatch {

  /** Compares the stack with the patterns from the top down, as the source zips the
      reversed stack with the reversed patterns; `isA` is the parser's kind test
      (Python's `isinstance`). The stack is only read. */
  function Match<E, K>(stack: seq<E>, pats: seq<K>, isA: (E, K) -> bool): bool
    decreases |pats|
  {
    if |stack| < |pats| then false
    else if |pats| == 0 then true
    else
      isA(stack[|stack| - 1], pats[|pats| - 1]) &&
      Match(stack[..|stack| - 1], pats[..|pats| - 1], isA)
  }

  /** `Match` holds exactly when the stack is at least as long as the pattern and
      its top `|pats|` entries, aligned at the top, are each of the kind named. */
  lemma {:induction false} MatchIff<E, K>(stack: seq<E>, pats: seq<K>, isA: (E, K) -> bool)
    ensures Match(stack, pats, isA) <==> (|pats| <= |stack| &&
      forall i :: 0 <= i < |pats| ==> isA(stack[|stack| - |pats| + i], pats[i]))
    decreases |pats|
  {
    if |pats| <= |stack| && |pats| > 0 {
      var s', p' := stack[..|stack| - 1], pats[..|pats| - 1];
      MatchIff(s', p', isA);
    }
  }

  /** The same, indexed by stack position: the kinds of the matched entries. */
  lemma {:induction false} MatchKinds<E, K>(stack: seq<E>, pats: seq<K>, isA: (E, K) -> bool)
    ensures Match(stack, pats, isA) <==> (|pats| <= |stack| &&
      forall j :: |stack| - |pats| <= j < |stack| ==> isA(stack[j], pats[j - (|stack| - |pats|)]))
  {
    MatchIff(stack, pats, isA);
    if |pats| <= |stack| && forall j :: |stack| - |pats| <= j < |stack| ==> isA(stack[j], pats[j - (|stack| - |pats|)]) {
      forall i | 0 <= i < |pats| ensures isA(stack[|stack| - |pats| + i], pats[i]) {
        var j := |stack| - |pats| + i;
        assert j - (|stack| - |pats|) == i;
      }
    }
    if Match(stack, pats, isA) {
      forall j | |stack| - |pats| <= j < |stack|
        ensures isA(stack[j], pats[j - (|stack| - |pats|)])
      {
        var i := j - (|stack| - |pats|);
        assert 0 <= i < |pats|;
      }
    }
  }

  /** A stack whose top entries are `top` matches a pattern of kinds that `top`
      has entry by entry, whatever lies below. */
  lemma {:induction false} MatchOnTop<E, K>(below: seq<E>, top: seq<E>, pats: seq<K>, isA: (E, K) -> bool)
    requires |top| == |pats|
    requires forall i :: 0 <= i < |top| ==> isA(top[i], pats[i])
    ensures Match(below + top, pats, isA)
  {
    var stack := below + top;
    assert forall i :: 0 <= i < |pats| ==> stack[|stack| - |pats| + i] == top[i];
    MatchIff(stack, pats, isA);
  }
}
