/** Ordered classification tables evaluated first-match-wins: each rule tests
    the text of a row (a prefix, or exact equality with one of some values)
    and optionally the sign of its amount, and the first rule that fires gives
    the outcome. Later, looser rules act as catch-alls for earlier ones. */
module Rules {
  import opened Wrappers
  import opened Text

  datatype Pattern = PrefixOf(prefixes: seq<string>) | OneOf(values: seq<string>) | AnyText

  datatype SignTest = AnySign | Positive | Negative

  datatype Rule<O> = Rule(pattern: Pattern, sign: SignTest, outcome: O)

  predicate PatternHolds(p: Pattern, text: string) {
    match p
    case PrefixOf(ps) => StartsWithAny(text, ps)
    case OneOf(vs) => text in vs
    case AnyText => true
  }

  predicate SignHolds(t: SignTest, amount: real) {
    match t
    case AnySign => true
    case Positive => amount > 0.0
    case Negative => amount < 0.0
  }

  predicate Fires<O>(r: Rule<O>, text: string, amount: real) {
    PatternHolds(r.pattern, text) && SignHolds(r.sign, amount)
  }

  /** The index of the first rule at or after `from` that fires. */
  function FirstFiring<O>(rules: seq<Rule<O>>, text: string, amount: real, from: nat): (r: Option<nat>)
    requires from <= |rules|
    ensures r.Some? ==> from <= r.value < |rules| && Fires(rules[r.value], text, amount)
    ensures r.Some? ==> forall j :: from <= j < r.value ==> !Fires(rules[j], text, amount)
    ensures r.None? ==> forall j :: from <= j < |rules| ==> !Fires(rules[j], text, amount)
    decreases |rules| - from
  {
    if from == |rules| then None
    else if Fires(rules[from], text, amount) then Some(from)
    else FirstFiring(rules, text, amount, from + 1)
  }

  /** First-match-wins evaluation, falling back to `otherwise` when no rule fires. */
  function Evaluate<O>(rules: seq<Rule<O>>, otherwise: O, text: string, amount: real): (r: O)
    ensures || (exists i :: && 0 <= i < |rules| && Fires(rules[i], text, amount) && r == rules[i].outcome
                            && forall j :: 0 <= j < i ==> !Fires(rules[j], text, amount))
            || ((forall j :: 0 <= j < |rules| ==> !Fires(rules[j], text, amount)) && r == otherwise)
  {
    match FirstFiring(rules, text, amount, 0)
    case Some(i) => rules[i].outcome
    case None => otherwise
  }

  /** When rule `i` is the first to fire, evaluation yields its outcome. */
  lemma EvaluateFirst<O>(rules: seq<Rule<O>>, otherwise: O, text: string, amount: real, i: nat)
    requires i < |rules| && Fires(rules[i], text, amount)
    requires forall j :: 0 <= j < i ==> !Fires(rules[j], text, amount)
    ensures Evaluate(rules, otherwise, text, amount) == rules[i].outcome
  {
  }

  /** When no rule fires, evaluation yields the fallback. */
  lemma EvaluateNone<O>(rules: seq<Rule<O>>, otherwise: O, text: string, amount: real)
    requires forall j :: 0 <= j < |rules| ==> !Fires(rules[j], text, amount)
    ensures Evaluate(rules, otherwise, text, amount) == otherwise
  {
  }

}
