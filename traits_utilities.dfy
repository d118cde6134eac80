// Boolean folds over template parameter packs (include/lin/core/traits/inl/utilities.inl).
// A pack of `std::integral_constant<bool, ...>` types is modelled as a sequence of their values.

module TraitUtilities {

  /** `conjunction<Cs...>`: true for the empty pack, the element itself for a one-element pack,
      and otherwise false as soon as the head is false, else the fold of the rest. */
  function Conjunction(cs: seq<bool>): (r: bool)
    ensures r <==> forall k :: 0 <= k < |cs| ==> cs[k]
    decreases |cs|
  {
    if |cs| == 0 then true
    else if |cs| == 1 then cs[0]
    else if cs[0] then Conjunction(cs[1..])
    else false
  }

  /** `disjunction<Cs...>`: false for the empty pack, the element itself for a one-element pack,
      and otherwise true as soon as the head is true, else the fold of the rest. */
  function Disjunction(cs: seq<bool>): (r: bool)
    ensures r <==> exists k :: 0 <= k < |cs| && cs[k]
    decreases |cs|
  {
    if |cs| == 0 then false
    else if |cs| == 1 then cs[0]
    else if cs[0] then true
    else Disjunction(cs[1..])
  }

  /** `negation<C>`: the opposite value. */
  function Negation(c: bool): bool
  {
    if c then false else true
  }

  lemma NegationFlips(c: bool)
    ensures Negation(c) != c
    ensures Negation(Negation(c)) == c
  {
  }

  /** The folds short-circuit on their head: the rest of the pack is never consulted once the
      head decides the value. */
  lemma {:induction false} FoldsShortCircuit(c: bool, cs: seq<bool>)
    ensures !c ==> Conjunction([c] + cs) == false
    ensures c ==> Conjunction([c] + cs) == Conjunction(cs)
    ensures c ==> Disjunction([c] + cs) == true
    ensures !c ==> Disjunction([c] + cs) == Disjunction(cs)
  {
    assert ([c] + cs)[0] == c;
    assert forall k :: 0 <= k < |cs| ==> ([c] + cs)[k + 1] == cs[k];
  }

  /** De Morgan: the disjunction of a pack is the negation of the conjunction of the negated
      pack. */
  lemma {:induction false} DeMorgan(cs: seq<bool>)
    ensures Disjunction(cs) == Negation(Conjunction(seq(|cs|, k requires 0 <= k < |cs| => Negation(cs[k]))))
  {
    var ns := seq(|cs|, k requires 0 <= k < |cs| => Negation(cs[k]));
    if Disjunction(cs) {
      var k :| 0 <= k < |cs| && cs[k];
      assert !ns[k];
    }
  }
}
