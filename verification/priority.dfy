/**
  Priority chains: an ordered list of alternatives, each guarded by a condition,
  of which the first whose condition holds is taken. The decision chains of a run
  (run type, constraint tier, start source) are written as `if`/`else if` cascades;
  this module is the declarative reference they are proved against.
 */
module Priority {
  import opened Outcomes

  /** One alternative of a chain: taken when `guard` holds and no earlier guard does. */
  datatype Rule<T> = Rule(guard: bool, outcome: T)

  /** The position of the first alternative whose guard holds, if any. */
  function FirstMatch<T>(rules: seq<Rule<T>>): (r: Option<nat>)
    ensures r.Some? ==> r.value < |rules| && rules[r.value].guard
    ensures r.Some? ==> forall j :: 0 <= j < r.value ==> !rules[j].guard
    ensures r.None? <==> forall j :: 0 <= j < |rules| ==> !rules[j].guard
  {
    if |rules| == 0 then None
    else if rules[0].guard then Some(0)
    else
      match FirstMatch(rules[1..])
      case None => None
      case Some(k) => Some(k + 1)
  }

  /** The outcome of the first alternative whose guard holds, or `fallback`. */
  function Choose<T>(rules: seq<Rule<T>>, fallback: T): T
  {
    match FirstMatch(rules)
    case None => fallback
    case Some(i) => rules[i].outcome
  }
}
