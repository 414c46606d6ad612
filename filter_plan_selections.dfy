/**
 * The eight-bucket grouping of plan types used by the plan tables: one array per
 * class, nanode and standard kept apart, every bucket present even when empty.
 */
module FilterPlanSelections {
  import opened Seqs
  import opened LinodeTypes

  /** The record returned: one array per class, always all eight (the record literal's key order). */
  datatype FilteredPlans = FilteredPlans(
    nanode: seq<PlanType>,
    standard: seq<PlanType>,
    highmem: seq<PlanType>,
    prodedicated: seq<PlanType>,
    dedicated: seq<PlanType>,
    gpu: seq<PlanType>,
    metal: seq<PlanType>,
    premium: seq<PlanType>)
  {
    /** The array for a class; none for a class outside the eight. */
    function BucketFor(c: PlanClass): seq<PlanType> {
      match c
      case Nanode => nanode
      case Standard => standard
      case HighMem => highmem
      case ProDedicated => prodedicated
      case Dedicated => dedicated
      case Gpu => gpu
      case Metal => metal
      case Premium => premium
      case Unrecognised(_) => []
    }

    /** The sum of the eight array lengths. */
    function TotalSize(): nat {
      |nanode| + |standard| + |highmem| + |prodedicated| + |dedicated| + |gpu| + |metal| + |premium|
    }
  }

  /** The plans of class `c`, in input order. */
  function OfClass(types: seq<PlanType>, c: PlanClass): (r: seq<PlanType>)
    ensures |r| <= |types|
    ensures forall t :: t in r ==> t in types && t.cls == c
  {
    Filter(types, ClassIs(c))
  }

  /** What the loop builds: each array holds the plans of its class, in input order. */
  function Filtered(types: seq<PlanType>): (r: FilteredPlans)
    ensures forall c: PlanClass, t :: t in r.BucketFor(c) ==> t in types && t.cls == c
  {
    FilteredPlans(
      OfClass(types, Nanode), OfClass(types, Standard), OfClass(types, HighMem), OfClass(types, ProDedicated),
      OfClass(types, Dedicated), OfClass(types, Gpu), OfClass(types, Metal), OfClass(types, Premium))
  }

  function IsRecognised(t: PlanType): bool {
    t.cls.Recognised()
  }

  /** The record after one `switch`: the plan appended to the array of its own class, or dropped. */
  function Pushed(f: FilteredPlans, t: PlanType): FilteredPlans {
    match t.cls
    case Nanode => f.(nanode := f.nanode + [t])
    case Standard => f.(standard := f.standard + [t])
    case HighMem => f.(highmem := f.highmem + [t])
    case ProDedicated => f.(prodedicated := f.prodedicated + [t])
    case Dedicated => f.(dedicated := f.dedicated + [t])
    case Gpu => f.(gpu := f.gpu + [t])
    case Metal => f.(metal := f.metal + [t])
    case Premium => f.(premium := f.premium + [t])
    case Unrecognised(_) => f
  }

  /** Pushing one more plan appends it to the array of its own class and to no other. */
  lemma FilteredSnoc(ts: seq<PlanType>, t: PlanType)
    ensures Filtered(ts + [t]) == Pushed(Filtered(ts), t)
  {
    FilterSnoc(ts, t, ClassIs(Nanode));
    FilterSnoc(ts, t, ClassIs(Standard));
    FilterSnoc(ts, t, ClassIs(HighMem));
    FilterSnoc(ts, t, ClassIs(ProDedicated));
    FilterSnoc(ts, t, ClassIs(Dedicated));
    FilterSnoc(ts, t, ClassIs(Gpu));
    FilterSnoc(ts, t, ClassIs(Metal));
    FilterSnoc(ts, t, ClassIs(Premium));
  }

  /** The `switch` on one plan's class: push it onto the array its class selects; `default` drops it. */
  method Switch(plans: FilteredPlans, t: PlanType) returns (next: FilteredPlans)
    ensures next == Pushed(plans, t)
    ensures next.TotalSize() == plans.TotalSize() + (if t.cls.Recognised() then 1 else 0)
  {
    next := plans;
    match t.cls {
      case Nanode => next := next.(nanode := next.nanode + [t]);
      case Standard => next := next.(standard := next.standard + [t]);
      case HighMem => next := next.(highmem := next.highmem + [t]);
      case ProDedicated => next := next.(prodedicated := next.prodedicated + [t]);
      case Dedicated => next := next.(dedicated := next.dedicated + [t]);
      case Gpu => next := next.(gpu := next.gpu + [t]);
      case Metal => next := next.(metal := next.metal + [t]);
      case Premium => next := next.(premium := next.premium + [t]);
      case Unrecognised(_) =>
    }
  }

  /**
   * `getPlanSelectionsByPlanType` of the plan-table utilities: start from eight empty
   * arrays and push each plan onto the array its class selects in the `switch`;
   * a plan of any other class falls to `default` and is dropped.
   */
  method GetPlanSelectionsByPlanType(types: seq<PlanType>) returns (plans: FilteredPlans)
    ensures plans == Filtered(types)
  {
    plans := FilteredPlans([], [], [], [], [], [], [], []);
    ghost var seen: seq<PlanType> := [];
    for i := 0 to |types|
      invariant seen == types[..i]
      invariant plans == Filtered(seen)
    {
      var t := types[i];
      FilteredSnoc(seen, t);
      plans := Switch(plans, t);
      seen := seen + [t];
      PrefixSnoc(types, i);
    }
    PrefixAll(types);
  }

  /**
   * Each array holds exactly the plans of its class, in input order: it sits at
   * increasing input positions, and those are all the positions of plans of that class.
   */
  lemma BucketOrder(types: seq<PlanType>, c: PlanClass) returns (idx: seq<nat>)
    requires c.Recognised()
    ensures Embeds(idx, Filtered(types).BucketFor(c), types)
    ensures forall i :: 0 <= i < |types| ==> (i in idx <==> types[i].cls == c)
  {
    BucketIsOfClass(types, c);
    idx := FilterPositions(types, ClassIs(c));
  }

  /** The array a known class selects in the record is the plans of that class. */
  lemma BucketIsOfClass(types: seq<PlanType>, c: PlanClass)
    requires c.Recognised()
    ensures Filtered(types).BucketFor(c) == Filter(types, ClassIs(c))
  {
    var f := Filtered(types);
    assert f.BucketFor(c) == OfClass(types, c) by {
      match c
      case Nanode => assert f.nanode == OfClass(types, Nanode);
      case Standard => assert f.standard == OfClass(types, Standard);
      case HighMem => assert f.highmem == OfClass(types, HighMem);
      case ProDedicated => assert f.prodedicated == OfClass(types, ProDedicated);
      case Dedicated => assert f.dedicated == OfClass(types, Dedicated);
      case Gpu => assert f.gpu == OfClass(types, Gpu);
      case Metal => assert f.metal == OfClass(types, Metal);
      case Premium => assert f.premium == OfClass(types, Premium);
    }
  }

  /** A plan whose class is not one of the eight lands in no array. */
  lemma UnrecognisedDropped(types: seq<PlanType>, t: PlanType, c: PlanClass)
    requires !t.cls.Recognised()
    ensures t !in Filtered(types).BucketFor(c)
  {
    if c.Recognised() {
      FilterMembership(types, ClassIs(c), t);
    }
  }

  /** The nanode and standard arrays are kept apart: neither holds a plan of the other's class. */
  lemma NanodeStandardApart(types: seq<PlanType>)
    ensures forall t :: t in Filtered(types).nanode ==> t.cls == Nanode
    ensures forall t :: t in Filtered(types).standard ==> t.cls == Standard
  {
  }

  /** The arrays together hold as many plans as the input has plans of a recognised class. */
  lemma {:induction false} Conservation(types: seq<PlanType>)
    ensures Filtered(types).TotalSize() == |Filter(types, IsRecognised)|
  {
    if types != [] {
      var n := |types| - 1;
      assert types == types[..n] + [types[n]];
      Conservation(types[..n]);
      FilteredSnoc(types[..n], types[n]);
      PushedSize(Filtered(types[..n]), types[n]);
      FilterSnoc(types[..n], types[n], IsRecognised);
    }
  }

  /** One `switch` adds one plan to the arrays exactly when its class is one of the eight. */
  lemma PushedSize(f: FilteredPlans, t: PlanType)
    ensures Pushed(f, t).TotalSize() == f.TotalSize() + (if t.cls.Recognised() then 1 else 0)
  {
  }

  /** When every class is one of the eight, the arrays hold exactly as many plans as the input. */
  lemma ConservationAllRecognised(types: seq<PlanType>)
    requires AllRecognised(types)
    ensures Filtered(types).TotalSize() == |types|
  {
    Conservation(types);
    FilterAll(types, IsRecognised);
  }
}
