/** Label selectors (metav1.LabelSelector) and how they match label sets. */
module Labels {

  datatype Requirement =
    | In(key: string, values: set<string>)
    | NotIn(key: string, values: set<string>)
    | Exists(key: string)
    | DoesNotExist(key: string)

  datatype LabelSelector = LabelSelector(matchLabels: map<string, string>, matchExpressions: seq<Requirement>)

  type LabelSet = map<string, string>

  predicate Satisfies(r: Requirement, ls: LabelSet) {
    match r
    case In(k, vs) => k in ls && ls[k] in vs
    case NotIn(k, vs) => k !in ls || ls[k] !in vs
    case Exists(k) => k in ls
    case DoesNotExist(k) => k !in ls
  }

  predicate Matches(s: LabelSelector, ls: LabelSet) {
    && (forall k | k in s.matchLabels :: k in ls && ls[k] == s.matchLabels[k])
    && (forall r | r in s.matchExpressions :: Satisfies(r, ls))
  }

  /** Requirements come in complementary pairs. */
  lemma Complements(key: string, values: set<string>, ls: LabelSet)
    ensures Satisfies(NotIn(key, values), ls) <==> !Satisfies(In(key, values), ls)
    ensures Satisfies(DoesNotExist(key), ls) <==> !Satisfies(Exists(key), ls)
  {
  }

  /** Membership in one value is equality, and existence is membership in some value. */
  lemma EqualityAsMembership(key: string, ls: LabelSet)
    ensures forall v :: Matches(LabelSelector(map[key := v], []), ls) <==> Matches(LabelSelector(map[], [In(key, {v})]), ls)
    ensures forall v :: Satisfies(In(key, {v}), ls) ==> ls[key] == v
    ensures Satisfies(Exists(key), ls) <==> exists v :: Satisfies(In(key, {v}), ls)
  {
    if key in ls {
      assert Satisfies(In(key, {ls[key]}), ls);
    }
    forall v ensures Matches(LabelSelector(map[key := v], []), ls) <==> Matches(LabelSelector(map[], [In(key, {v})]), ls) {
      var selector := LabelSelector(map[], [In(key, {v})]);
      assert In(key, {v}) in selector.matchExpressions;
      assert key in LabelSelector(map[key := v], []).matchLabels;
    }
  }

  /** A selector asks for all that its parts ask for, and the empty one for nothing. */
  lemma Conjunction(a: LabelSelector, b: LabelSelector, ls: LabelSet)
    requires a.matchLabels.Keys !! b.matchLabels.Keys
    ensures Matches(LabelSelector(a.matchLabels + b.matchLabels, a.matchExpressions + b.matchExpressions), ls) <==>
            Matches(a, ls) && Matches(b, ls)
    ensures Matches(LabelSelector(map[], []), ls)
  {
    var both := LabelSelector(a.matchLabels + b.matchLabels, a.matchExpressions + b.matchExpressions);
    assert forall r :: r in both.matchExpressions <==> r in a.matchExpressions || r in b.matchExpressions;
    assert forall k :: k in both.matchLabels <==> k in a.matchLabels || k in b.matchLabels;
    assert forall k | k in a.matchLabels :: both.matchLabels[k] == a.matchLabels[k];
    assert forall k | k in b.matchLabels :: both.matchLabels[k] == b.matchLabels[k];
  }

  /** Only requirements that more labels cannot break. */
  predicate Positive(s: LabelSelector) {
    forall r | r in s.matchExpressions :: r.In? || r.Exists?
  }

  /** `sub` selects by equality, as a Service's selector does. */
  predicate Subset(sub: LabelSet, ls: LabelSet) {
    forall k | k in sub :: k in ls && ls[k] == sub[k]
  }

  /** Adding labels never makes the selector stop matching. */
  ghost predicate Monotone(s: LabelSelector) {
    forall sub: LabelSet, ls: LabelSet :: Subset(sub, ls) && Matches(s, sub) ==> Matches(s, ls)
  }

  /** Selectors made of equality, `In` and `Exists` are of this kind. */
  lemma PositiveMonotone(s: LabelSelector)
    requires Positive(s)
    ensures Monotone(s)
  {
    forall sub: LabelSet, ls: LabelSet | Subset(sub, ls) && Matches(s, sub) ensures Matches(s, ls) {
      forall r | r in s.matchExpressions ensures Satisfies(r, ls) {
        assert Satisfies(r, sub);
      }
    }
  }

  lemma MonotoneMatches(s: LabelSelector, sub: LabelSet, ls: LabelSet)
    requires Monotone(s) && Subset(sub, ls) && Matches(s, sub)
    ensures Matches(s, ls)
  {
  }
}
