/**
 * How the two plan groupings relate: the tab grouping of the create flow and the
 * eight-bucket grouping of the plan tables agree on every class but nanode and
 * standard, whose plans the tab grouping merges into `shared` in input order.
 */
module PlanGroupings {
  import opened Seqs
  import opened LinodeTypes
  import SelectPlanUtils
  import FilterPlanSelections

  /** On every class other than nanode and standard the two groupings give the same array. */
  lemma OwnClassesAgree(types: seq<PlanType>, c: PlanClass)
    requires c.Recognised() && c != Nanode && c != Standard
    ensures SelectPlanUtils.Bucket(types, SelectPlanUtils.KeyOf(c).value)
            == FilterPlanSelections.Filtered(types).BucketFor(c)
  {
    SelectPlanUtils.OwnClassBucket(types, c);
  }

  lemma {:induction false} SharedMultiset(types: seq<PlanType>)
    ensures multiset(Filter(types, SelectPlanUtils.IsShared))
            == multiset(FilterPlanSelections.OfClass(types, Nanode) + FilterPlanSelections.OfClass(types, Standard))
  {
    if types != [] {
      var n := |types| - 1;
      SharedMultiset(types[..n]);
    }
  }

  /**
   * The `shared` array is an interleaving of the nanode and the standard arrays: picking
   * its nanode plans gives the nanode array, picking its standard plans gives the standard
   * array, and it holds the same plans as the two together.
   */
  lemma SharedInterleavesNanodeAndStandard(types: seq<PlanType>)
    ensures var shared := SelectPlanUtils.Bucket(types, SelectPlanUtils.SharedKey);
            var f := FilterPlanSelections.Filtered(types);
            && Filter(shared, ClassIs(Nanode)) == f.nanode
            && Filter(shared, ClassIs(Standard)) == f.standard
            && multiset(shared) == multiset(f.nanode + f.standard)
  {
    SelectPlanUtils.SharedBucket(types);
    FilterFilter(types, SelectPlanUtils.IsShared, ClassIs(Nanode));
    FilterFilter(types, SelectPlanUtils.IsShared, ClassIs(Standard));
    SharedMultiset(types);
  }

  /**
   * The `shared` array is not the nanode array followed by the standard array: a standard
   * plan listed before a nanode plan stays first.
   */
  lemma SharedIsNotConcatenation(s: PlanType, n: PlanType)
    requires s.cls == Standard && n.cls == Nanode
    ensures SelectPlanUtils.Bucket([s, n], SelectPlanUtils.SharedKey) == [s, n]
    ensures FilterPlanSelections.OfClass([s, n], Nanode) + FilterPlanSelections.OfClass([s, n], Standard) == [n, s]
    ensures [s, n] != [n, s]
  {
    var shared := SelectPlanUtils.KeyIs(SelectPlanUtils.SharedKey);
    assert shared(s) && shared(n);
    FilterPair(s, n, shared);
    assert !ClassIs(Nanode)(s) && ClassIs(Nanode)(n);
    FilterPair(s, n, ClassIs(Nanode));
    assert ClassIs(Standard)(s) && !ClassIs(Standard)(n);
    FilterPair(s, n, ClassIs(Standard));
    assert [s, n][0] != [n, s][0];
  }
}
