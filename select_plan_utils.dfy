/**
 * The plan-selection helpers of the Linode create flow: grouping plan types into
 * the plan-category tabs, choosing the tab to open first, and listing the regions
 * that offer a capability.
 */
module SelectPlanUtils {
  import opened Wrappers
  import opened Seqs
  import opened LinodeTypes

  /** The keys of the grouped record: every class but nanode and standard, plus `shared`. */
  datatype PlanKey = ProDedicatedKey | DedicatedKey | SharedKey | HighMemKey | GpuKey | MetalKey | PremiumKey

  /** `planTypeOrder`: the order in which the keys are created, and so the order of the returned keys. */
  const PlanTypeOrder: seq<PlanKey> :=
    [ProDedicatedKey, DedicatedKey, SharedKey, HighMemKey, GpuKey, MetalKey, PremiumKey]

  /** The position of a key in `planTypeOrder`; every key occurs there exactly once. */
  function Rank(k: PlanKey): (i: nat)
    ensures i < |PlanTypeOrder| && PlanTypeOrder[i] == k
    ensures forall j :: 0 <= j < |PlanTypeOrder| && PlanTypeOrder[j] == k ==> j == i
  {
    match k
    case ProDedicatedKey => 0
    case DedicatedKey => 1
    case SharedKey => 2
    case HighMemKey => 3
    case GpuKey => 4
    case MetalKey => 5
    case PremiumKey => 6
  }

  /** The key a plan of class `c` is pushed under: nanode and standard share `shared`. */
  function KeyOf(c: PlanClass): (k: Option<PlanKey>)
    ensures k.Some? <==> c.Recognised()
    ensures k == Some(SharedKey) <==> c == Nanode || c == Standard
  {
    match c
    case Nanode => Some(SharedKey)
    case Standard => Some(SharedKey)
    case Dedicated => Some(DedicatedKey)
    case ProDedicated => Some(ProDedicatedKey)
    case HighMem => Some(HighMemKey)
    case Gpu => Some(GpuKey)
    case Metal => Some(MetalKey)
    case Premium => Some(PremiumKey)
    case Unrecognised(_) => None
  }

  function KeyIs(k: PlanKey): PlanType -> bool {
    (t: PlanType) => KeyOf(t.cls) == Some(k)
  }

  /** The plans pushed under key `k`, in the order the loop meets them. */
  function Bucket(types: seq<PlanType>, k: PlanKey): (b: seq<PlanType>)
    ensures |b| <= |types|
    ensures forall t :: t in b ==> t in types && KeyOf(t.cls) == Some(k)
  {
    Filter(types, KeyIs(k))
  }

  /** One key of the returned record with its array of plans; a record is its entries in key order. */
  datatype Entry = Entry(key: PlanKey, plans: seq<PlanType>)

  /** The record after the `for` loop: every key of `planTypeOrder`, in order, with its bucket. */
  function Grouped(types: seq<PlanType>): (g: seq<Entry>)
    ensures |g| == |PlanTypeOrder|
    ensures forall j :: 0 <= j < |g| ==> g[j].key == PlanTypeOrder[j]
  {
    seq(|PlanTypeOrder|, j requires 0 <= j < |PlanTypeOrder| => Entry(PlanTypeOrder[j], Bucket(types, PlanTypeOrder[j])))
  }

  function NonEmpty(e: Entry): bool {
    e.plans != []
  }

  /** The record `getPlanSelectionsByPlanType` returns: the grouped record without its empty keys. */
  function PlansByType(types: seq<PlanType>): (plans: seq<Entry>)
    ensures |plans| <= |PlanTypeOrder|
    ensures forall e :: e in plans ==> e.plans != []
  {
    Filter(Grouped(types), NonEmpty)
  }

  /** `Object.keys` of a record. */
  function Keys(plans: seq<Entry>): seq<PlanKey> {
    Map(plans, (e: Entry) => e.key)
  }

  /** No key occurs twice in a record (an object has each property once). */
  ghost predicate UniqueKeys(plans: seq<Entry>) {
    forall a, b :: 0 <= a < b < |plans| ==> plans[a].key != plans[b].key
  }

  /** Where key `k` sits in a record (`|plans|` when it is absent): the lookup `plans[k]`. */
  function KeyPosition(plans: seq<Entry>, k: PlanKey): (p: nat)
    ensures p <= |plans|
    ensures p < |plans| ==> plans[p].key == k
    ensures forall q :: 0 <= q < p ==> plans[q].key != k
  {
    if plans == [] then 0
    else if plans[0].key == k then 0
    else 1 + KeyPosition(plans[1..], k)
  }

  /** The sum of the bucket lengths of a record. */
  function TotalSize(plans: seq<Entry>): nat {
    if plans == [] then 0 else TotalSize(plans[..|plans| - 1]) + |plans[|plans| - 1].plans|
  }

  lemma {:induction false} KeyPositionAfter(a: seq<Entry>, b: seq<Entry>, k: PlanKey)
    requires forall q :: 0 <= q < |a| ==> a[q].key != k
    ensures KeyPosition(a + b, k) == |a| + KeyPosition(b, k)
  {
    if a != [] {
      assert (a + b)[0] == a[0];
      assert (a + b)[1..] == a[1..] + b;
      assert forall q :: 0 <= q < |a[1..]| ==> a[1..][q] == a[q + 1];
      KeyPositionAfter(a[1..], b, k);
    } else {
      assert a + b == b;
    }
  }

  /** Pushing plan `t` appends it to the bucket of its own key and to no other. */
  lemma GroupedSnoc(ts: seq<PlanType>, t: PlanType)
    requires t.cls.Recognised()
    ensures var k := KeyOf(t.cls).value;
      Grouped(ts + [t]) == Grouped(ts)[Rank(k) := Entry(k, Bucket(ts, k) + [t])]
  {
    var k := KeyOf(t.cls).value;
    forall j | 0 <= j < |PlanTypeOrder|
      ensures Grouped(ts + [t])[j] == Grouped(ts)[Rank(k) := Entry(k, Bucket(ts, k) + [t])][j]
    {
      FilterSnoc(ts, t, KeyIs(PlanTypeOrder[j]));
    }
  }

  /** Looking up the key of plan `t` finds its bucket; pushing `t` there groups one more plan. */
  lemma PushStep(ts: seq<PlanType>, t: PlanType)
    requires t.cls.Recognised()
    ensures var k := KeyOf(t.cls).value;
            var p := KeyPosition(Grouped(ts), k);
            && p < |Grouped(ts)|
            && Grouped(ts)[p := Entry(k, Grouped(ts)[p].plans + [t])] == Grouped(ts + [t])
  {
    var k := KeyOf(t.cls).value;
    var plans := Grouped(ts);
    var p := KeyPosition(plans, k);
    assert plans[Rank(k)].key == k;
    assert p < |plans| ==> plans[p].key == PlanTypeOrder[p];
    GroupedSnoc(ts, t);
  }

  lemma KeptKeysDiffer(grouped: seq<Entry>, m: nat)
    requires m < |grouped|
    requires forall a, b :: 0 <= a < b < |grouped| ==> grouped[a].key != grouped[b].key
    ensures forall q :: 0 <= q < |Filter(grouped[..m], NonEmpty)| ==>
              Filter(grouped[..m], NonEmpty)[q].key != grouped[m].key
  {
    var kept := Filter(grouped[..m], NonEmpty);
    forall q | 0 <= q < |kept|
      ensures kept[q].key != grouped[m].key
    {
      assert kept[q] in grouped[..m];
    }
  }

  /**
   * While deleting, the entries already visited have been filtered; looking up the next
   * visited key finds that key's entry right after them.
   */
  lemma DeleteLookup(grouped: seq<Entry>, m: nat)
    requires m < |grouped|
    requires forall a, b :: 0 <= a < b < |grouped| ==> grouped[a].key != grouped[b].key
    ensures var plans := Filter(grouped[..m], NonEmpty) + grouped[m..];
            && KeyPosition(plans, grouped[m].key) == |Filter(grouped[..m], NonEmpty)|
            && plans[|Filter(grouped[..m], NonEmpty)|] == grouped[m]
  {
    var kept := Filter(grouped[..m], NonEmpty);
    KeptKeysDiffer(grouped, m);
    KeyPositionAfter(kept, grouped[m..], grouped[m].key);
  }

  /** Deleting the entry found, when it is empty, filters one more entry. */
  lemma DeleteResult(grouped: seq<Entry>, m: nat)
    requires m < |grouped|
    ensures var kept := Filter(grouped[..m], NonEmpty);
            var plans := kept + grouped[m..];
            (if grouped[m].plans == [] then plans[..|kept|] + plans[|kept| + 1..] else plans)
              == Filter(grouped[..m + 1], NonEmpty) + grouped[m + 1..]
  {
    var kept := Filter(grouped[..m], NonEmpty);
    PrefixSnoc(grouped, m);
    FilterSnoc(grouped[..m], grouped[m], NonEmpty);
    SplitAt(kept, grouped, m);
  }

  /**
   * One pass of the deletion loop: looking up the next visited key finds its entry, and
   * deleting that entry when it is empty filters one more entry.
   */
  lemma DeleteStep(grouped: seq<Entry>, m: nat, plans: seq<Entry>, k: PlanKey)
    requires m < |grouped|
    requires UniqueKeys(grouped)
    requires plans == Filter(grouped[..m], NonEmpty) + grouped[m..]
    requires k == grouped[m].key
    ensures KeyPosition(plans, k) < |plans|
    ensures var p := KeyPosition(plans, k);
            plans[p].plans == [] ==> plans[..p] + plans[p + 1..] == Filter(grouped[..m + 1], NonEmpty) + grouped[m + 1..]
    ensures plans[KeyPosition(plans, k)].plans != [] ==> plans == Filter(grouped[..m + 1], NonEmpty) + grouped[m + 1..]
  {
    DeleteLookup(grouped, m);
    DeleteResult(grouped, m);
  }

  lemma GroupedKeys(types: seq<PlanType>)
    ensures forall j :: 0 <= j < |Grouped(types)| ==> Grouped(types)[j].key == PlanTypeOrder[j]
    ensures forall a, b :: 0 <= a < b < |Grouped(types)| ==> Grouped(types)[a].key != Grouped(types)[b].key
  {
  }

  /** `planTypeOrder.reduce(...)`: a record holding every key, in order, with an empty array. */
  method SeedKeys() returns (plans: seq<Entry>)
    ensures plans == Grouped([])
  {
    plans := [];
    for j := 0 to |PlanTypeOrder|
      invariant plans == Grouped([])[..j]
    {
      plans := plans + [Entry(PlanTypeOrder[j], [])];
    }
  }

  /** The `for` loop: push each plan onto the array of its key, looked up in the record. */
  method PushPlans(types: seq<PlanType>, seeded: seq<Entry>) returns (plans: seq<Entry>)
    requires AllRecognised(types)
    requires seeded == Grouped([])
    ensures plans == Grouped(types)
  {
    plans := seeded;
    ghost var seen: seq<PlanType> := [];
    for i := 0 to |types|
      invariant seen == types[..i]
      invariant plans == Grouped(seen)
    {
      var t := types[i];
      var k := KeyOf(t.cls).value;
      PushStep(seen, t);
      var p := KeyPosition(plans, k);
      plans := plans[p := Entry(k, plans[p].plans + [t])];
      seen := seen + [t];
      PrefixSnoc(types, i);
    }
    PrefixAll(types);
  }

  /** One pass of the `forEach`: `delete plansByType[key]` when the key's array is empty. */
  method DeleteIfEmpty(plans: seq<Entry>, k: PlanKey) returns (next: seq<Entry>)
    requires KeyPosition(plans, k) < |plans|
    ensures var p := KeyPosition(plans, k);
            plans[p].plans == [] ==> next == plans[..p] + plans[p + 1..]
    ensures plans[KeyPosition(plans, k)].plans != [] ==> next == plans
  {
    var p := KeyPosition(plans, k);
    next := plans;
    if plans[p].plans == [] {
      next := plans[..p] + plans[p + 1..];
    }
  }

  /**
   * `Object.keys(...).forEach(...)`: delete every key whose array is empty. `Object.keys`
   * is a snapshot taken before any deletion, so the `m`-th key visited is `grouped[m].key`.
   */
  method DeleteEmptyKeys(grouped: seq<Entry>) returns (plans: seq<Entry>)
    requires UniqueKeys(grouped)
    ensures plans == Filter(grouped, NonEmpty)
  {
    plans := grouped;
    FilterBounds(grouped, NonEmpty);
    for m := 0 to |grouped|
      invariant plans == Filter(grouped[..m], NonEmpty) + grouped[m..]
    {
      var key := grouped[m].key;
      DeleteStep(grouped, m, plans, key);
      plans := DeleteIfEmpty(plans, key);
    }
  }

  /**
   * `getPlanSelectionsByPlanType`: seed every key of `planTypeOrder` with an empty array,
   * push each plan onto the array of its key, then delete the keys whose array is empty.
   */
  method GetPlanSelectionsByPlanType(types: seq<PlanType>) returns (plans: seq<Entry>)
    requires AllRecognised(types)
    ensures plans == PlansByType(types)
  {
    var seeded := SeedKeys();
    var grouped := PushPlans(types, seeded);
    GroupedKeys(types);
    plans := DeleteEmptyKeys(grouped);
  }

  lemma {:induction false} TotalSizeUpdate(plans: seq<Entry>, r: nat, e: Entry)
    requires r < |plans|
    ensures TotalSize(plans[r := e]) + |plans[r].plans| == TotalSize(plans) + |e.plans|
  {
    var n := |plans| - 1;
    if r < n {
      assert plans[r := e][..n] == plans[..n][r := e];
      TotalSizeUpdate(plans[..n], r, e);
    } else {
      assert plans[r := e][..n] == plans[..n];
    }
  }

  lemma {:induction false} DroppingEmptyKeepsSize(plans: seq<Entry>)
    ensures TotalSize(Filter(plans, NonEmpty)) == TotalSize(plans)
  {
    if plans != [] {
      var n := |plans| - 1;
      DroppingEmptyKeepsSize(plans[..n]);
      var f := Filter(plans[..n], NonEmpty);
      if NonEmpty(plans[n]) {
        assert Filter(plans, NonEmpty) == f + [plans[n]];
        assert (f + [plans[n]])[..|f|] == f;
      } else {
        assert Filter(plans, NonEmpty) == f;
      }
    }
  }

  lemma {:induction false} AllEmptySize(plans: seq<Entry>)
    requires forall q :: 0 <= q < |plans| ==> plans[q].plans == []
    ensures TotalSize(plans) == 0
  {
    if plans != [] {
      AllEmptySize(plans[..|plans| - 1]);
    }
  }

  lemma {:induction false} GroupedSize(types: seq<PlanType>)
    requires AllRecognised(types)
    ensures TotalSize(Grouped(types)) == |types|
  {
    if types == [] {
      AllEmptySize(Grouped(types));
    } else {
      var n := |types| - 1;
      var t := types[n];
      var k := KeyOf(t.cls).value;
      assert types == types[..n] + [t];
      GroupedSize(types[..n]);
      GroupedSnoc(types[..n], t);
      TotalSizeUpdate(Grouped(types[..n]), Rank(k), Entry(k, Bucket(types[..n], k) + [t]));
    }
  }

  /** Every plan lands in exactly one bucket, so the returned buckets hold as many plans as the input. */
  lemma Conservation(types: seq<PlanType>)
    requires AllRecognised(types)
    ensures TotalSize(PlansByType(types)) == |types|
  {
    DroppingEmptyKeepsSize(Grouped(types));
    GroupedSize(types);
  }

  /**
   * A bucket holds exactly the plans whose class maps to its key, in input order:
   * it sits at increasing input positions, and those are all the positions of such plans.
   */
  lemma BucketOrder(types: seq<PlanType>, k: PlanKey) returns (idx: seq<nat>)
    ensures Embeds(idx, Bucket(types, k), types)
    ensures forall i :: 0 <= i < |types| ==> (i in idx <==> KeyOf(types[i].cls) == Some(k))
  {
    idx := FilterPositions(types, KeyIs(k));
  }

  function IsShared(t: PlanType): bool {
    t.cls == Nanode || t.cls == Standard
  }

  /** The `shared` bucket is the input-order subsequence of the nanode and standard plans. */
  lemma SharedBucket(types: seq<PlanType>)
    ensures Bucket(types, SharedKey) == Filter(types, IsShared)
  {
    FilterCongruent(types, KeyIs(SharedKey), IsShared);
  }

  /** Every class other than nanode and standard has a bucket of its own, holding exactly its plans. */
  lemma OwnClassBucket(types: seq<PlanType>, c: PlanClass)
    requires c.Recognised() && c != Nanode && c != Standard
    ensures Bucket(types, KeyOf(c).value) == Filter(types, ClassIs(c))
  {
    forall t: PlanType
      ensures KeyIs(KeyOf(c).value)(t) == ClassIs(c)(t)
    {
      if t.cls.Recognised() {
        assert KeyOf(t.cls) == KeyOf(c) ==> t.cls == c;
      }
    }
    FilterCongruent(types, KeyIs(KeyOf(c).value), ClassIs(c));
  }

  /** Every returned key holds its bucket, and that bucket is not empty. */
  lemma ReturnedEntries(types: seq<PlanType>, e: Entry)
    requires e in PlansByType(types)
    ensures e.plans == Bucket(types, e.key) && e.plans != []
  {
    var j :| 0 <= j < |Grouped(types)| && Grouped(types)[j] == e;
  }

  lemma KeyReturnedIffBucket(types: seq<PlanType>, k: PlanKey)
    ensures k in Keys(PlansByType(types)) <==> Bucket(types, k) != []
  {
    var plans := PlansByType(types);
    var e := Entry(k, Bucket(types, k));
    if k in Keys(plans) {
      var q :| 0 <= q < |plans| && Keys(plans)[q] == k;
      ReturnedEntries(types, plans[q]);
    }
    if Bucket(types, k) != [] {
      assert Grouped(types)[Rank(k)] == e;
      FilterMembership(Grouped(types), NonEmpty, e);
      var q :| 0 <= q < |plans| && plans[q] == e;
      assert Keys(plans)[q] == k;
    }
  }

  /** A key is returned exactly when some plan's class maps to it. */
  lemma KeyPresence(types: seq<PlanType>, k: PlanKey)
    ensures k in Keys(PlansByType(types)) <==> exists i :: 0 <= i < |types| && KeyOf(types[i].cls) == Some(k)
  {
    KeyReturnedIffBucket(types, k);
    FilterEmpty(types, KeyIs(k));
  }

  /** In particular `shared` is returned exactly when some plan is a nanode or a standard plan. */
  lemma SharedPresence(types: seq<PlanType>)
    ensures SharedKey in Keys(PlansByType(types)) <==>
            exists i :: 0 <= i < |types| && (types[i].cls == Nanode || types[i].cls == Standard)
  {
    KeyPresence(types, SharedKey);
    if exists i :: 0 <= i < |types| && (types[i].cls == Nanode || types[i].cls == Standard) {
      var i :| 0 <= i < |types| && (types[i].cls == Nanode || types[i].cls == Standard);
      assert KeyOf(types[i].cls) == Some(SharedKey);
    }
  }

  /** The returned keys keep the order of `planTypeOrder`. */
  lemma KeyOrder(types: seq<PlanType>)
    ensures forall a, b :: 0 <= a < b < |PlansByType(types)| ==>
              Rank(PlansByType(types)[a].key) < Rank(PlansByType(types)[b].key)
  {
    var idx := FilterPositions(Grouped(types), NonEmpty);
  }

  // ---------------------------------------------------------------------------
  // determineInitialPlanCategoryTab

  /** The class a tab stands for: the `shared` key is the `standard` tab. */
  function TabClass(k: PlanKey): (c: PlanClass)
    ensures c.Recognised() && c != Nanode
  {
    match k
    case ProDedicatedKey => ProDedicated
    case DedicatedKey => Dedicated
    case SharedKey => Standard
    case HighMemKey => HighMem
    case GpuKey => Gpu
    case MetalKey => Metal
    case PremiumKey => Premium
  }

  /** `tabOrder`: the returned keys, with `shared` renamed `standard`. */
  function TabOrder(types: seq<PlanType>): (order: seq<PlanClass>)
    ensures |order| == |PlansByType(types)|
    ensures forall c :: c in order ==> c.Recognised() && c != Nanode
    ensures forall i :: 0 <= i < |order| ==> order[i] == TabClass(PlansByType(types)[i].key)
  {
    var order := Map(Keys(PlansByType(types)), TabClass);
    assert forall i :: 0 <= i < |order| ==> order[i] == TabClass(Keys(PlansByType(types))[i]);
    order
  }

  /** Whether a plan is the current selection: its id is `selectedID` or its heading is `currentPlanHeading`. */
  predicate IsSelected(t: PlanType, selectedID: Option<string>, currentPlanHeading: Option<string>) {
    selectedID == Some(t.id) || currentPlanHeading == Some(t.heading)
  }

  /** `types.find(...)`: the first selected plan, if any. */
  function FindSelected(types: seq<PlanType>, selectedID: Option<string>, currentPlanHeading: Option<string>)
    : (r: Option<PlanType>)
    ensures r.None? <==> forall i :: 0 <= i < |types| ==> !IsSelected(types[i], selectedID, currentPlanHeading)
    ensures r.Some? ==> exists i :: 0 <= i < |types| && types[i] == r.value &&
                          IsSelected(r.value, selectedID, currentPlanHeading) &&
                          forall j :: 0 <= j < i ==> !IsSelected(types[j], selectedID, currentPlanHeading)
  {
    if types == [] then None
    else if IsSelected(types[0], selectedID, currentPlanHeading) then Some(types[0])
    else
      var r := FindSelected(types[1..], selectedID, currentPlanHeading);
      assert forall i :: 1 <= i < |types| ==> types[i] == types[1..][i - 1];
      r
  }

  /** The class whose tab opens first: the selected plan's class (nanode read as standard), else dedicated. */
  function SelectedClass(types: seq<PlanType>, selectedID: Option<string>, currentPlanHeading: Option<string>)
    : (c: PlanClass)
    ensures c != Nanode
    ensures FindSelected(types, selectedID, currentPlanHeading).None? ==> c == Dedicated
    ensures FindSelected(types, selectedID, currentPlanHeading).Some? ==>
              var t := FindSelected(types, selectedID, currentPlanHeading).value;
              c == (if t.cls == Nanode then Standard else t.cls)
  {
    var c := match FindSelected(types, selectedID, currentPlanHeading)
      case Some(t) => t.cls
      case None => Dedicated;
    if c == Nanode then Standard else c
  }

  /** `determineInitialPlanCategoryTab`: the index of the selected class in the tab order, or -1. */
  function DetermineInitialPlanCategoryTab(
    types: seq<PlanType>, selectedID: Option<string>, currentPlanHeading: Option<string>): (tab: int)
    requires AllRecognised(types)
    ensures -1 <= tab < |PlansByType(types)|
  {
    IndexOf(TabOrder(types), SelectedClass(types, selectedID, currentPlanHeading))
  }

  lemma SelectedClassRecognised(types: seq<PlanType>, selectedID: Option<string>, currentPlanHeading: Option<string>)
    requires AllRecognised(types)
    ensures SelectedClass(types, selectedID, currentPlanHeading).Recognised()
    ensures SelectedClass(types, selectedID, currentPlanHeading) != Nanode
  {
  }

  /** The tab of a class other than nanode is the tab of that class's key, and of no other key. */
  lemma TabOfClass(c: PlanClass)
    requires c.Recognised() && c != Nanode
    ensures forall k :: TabClass(k) == c <==> k == KeyOf(c).value
  {
  }

  /**
   * The initial tab is a real tab exactly when the selected class has plans; it is then
   * the tab of that class's key, and -1 otherwise.
   */
  lemma InitialTab(types: seq<PlanType>, selectedID: Option<string>, currentPlanHeading: Option<string>)
    requires AllRecognised(types)
    ensures var c := SelectedClass(types, selectedID, currentPlanHeading);
            var tab := DetermineInitialPlanCategoryTab(types, selectedID, currentPlanHeading);
            && c.Recognised()
            && (0 <= tab <==> Bucket(types, KeyOf(c).value) != [])
            && (0 <= tab ==> PlansByType(types)[tab].key == KeyOf(c).value)
  {
    var c := SelectedClass(types, selectedID, currentPlanHeading);
    SelectedClassRecognised(types, selectedID, currentPlanHeading);
    var k := KeyOf(c).value;
    var plans := PlansByType(types);
    var order := TabOrder(types);
    var tab := DetermineInitialPlanCategoryTab(types, selectedID, currentPlanHeading);
    TabOfClass(c);
    KeyReturnedIffBucket(types, k);
    if k in Keys(plans) {
      var q :| 0 <= q < |plans| && Keys(plans)[q] == k;
      assert order[q] == c;
    }
  }

  /** When some plan is selected, the initial tab is a real tab, and it lists that plan. */
  lemma SelectedPlanOnInitialTab(types: seq<PlanType>, selectedID: Option<string>, currentPlanHeading: Option<string>)
    requires AllRecognised(types)
    requires FindSelected(types, selectedID, currentPlanHeading).Some?
    ensures var tab := DetermineInitialPlanCategoryTab(types, selectedID, currentPlanHeading);
            0 <= tab && FindSelected(types, selectedID, currentPlanHeading).value in PlansByType(types)[tab].plans
  {
    var t := FindSelected(types, selectedID, currentPlanHeading).value;
    var c := SelectedClass(types, selectedID, currentPlanHeading);
    assert KeyOf(c) == KeyOf(t.cls);
    var k := KeyOf(c).value;
    FilterMembership(types, KeyIs(k), t);
    InitialTab(types, selectedID, currentPlanHeading);
    var tab := DetermineInitialPlanCategoryTab(types, selectedID, currentPlanHeading);
    ReturnedEntries(types, PlansByType(types)[tab]);
  }

  /** With no plan selected and no dedicated plans, the initial tab is -1. */
  lemma NoSelectionNoDedicated(types: seq<PlanType>, selectedID: Option<string>, currentPlanHeading: Option<string>)
    requires AllRecognised(types)
    requires FindSelected(types, selectedID, currentPlanHeading).None?
    requires forall i :: 0 <= i < |types| ==> types[i].cls != Dedicated
    ensures DetermineInitialPlanCategoryTab(types, selectedID, currentPlanHeading) == -1
  {
    InitialTab(types, selectedID, currentPlanHeading);
    assert SelectedClass(types, selectedID, currentPlanHeading) == Dedicated;
    NoDedicatedBucket(types);
  }

  /** Without dedicated plans, the `dedicated` bucket is empty. */
  lemma NoDedicatedBucket(types: seq<PlanType>)
    requires forall i :: 0 <= i < |types| ==> types[i].cls != Dedicated
    ensures Bucket(types, DedicatedKey) == []
  {
    FilterEmpty(types, KeyIs(DedicatedKey));
    assert forall i :: 0 <= i < |types| ==> !KeyIs(DedicatedKey)(types[i]);
  }

  // ---------------------------------------------------------------------------
  // getRegionsWithCapability

  /** A capability name, such as "Linodes" or "Block Storage". */
  type Capability = string

  datatype Region = Region(id: string, labelText: string, capabilities: seq<Capability>)

  function HasCapability(capability: Capability): Region -> bool {
    (r: Region) => capability in r.capabilities
  }

  /** The labels handed to `arrayToList`: those of the regions offering `capability`; none when `regions` is missing. */
  function CapableLabels(capability: Capability, regions: Option<seq<Region>>): (labels: seq<string>)
    ensures regions.None? ==> labels == []
    ensures regions.Some? ==> |labels| <= |regions.value|
    ensures regions.Some? ==> forall l :: l in labels ==>
              exists r :: r in regions.value && capability in r.capabilities && r.labelText == l
  {
    match regions
    case None => []
    case Some(rs) =>
      var capable := Filter(rs, HasCapability(capability));
      var labels := Map(capable, (r: Region) => r.labelText);
      assert forall i :: 0 <= i < |labels| ==> labels[i] == capable[i].labelText && capable[i] in capable;
      labels
  }

  /**
   * `getRegionsWithCapability`; `arrayToList` is the list formatter this model does not include.
   * Which labels it is handed, and in what order, is stated by `CapableLabelsInOrder`.
   */
  function GetRegionsWithCapability(
    capability: Capability, regions: Option<seq<Region>>, arrayToList: seq<string> -> string): (list: string)
    ensures regions.None? ==> list == arrayToList([])
    ensures list == arrayToList(CapableLabels(capability, regions))
  {
    arrayToList(CapableLabels(capability, regions))
  }

  /** The labels passed on are exactly those of the regions with the capability, in input order. */
  lemma CapableLabelsInOrder(capability: Capability, rs: seq<Region>) returns (idx: seq<nat>)
    ensures var labels := CapableLabels(capability, Some(rs));
            && |idx| == |labels|
            && (forall j :: 0 <= j < |idx| ==> idx[j] < |rs| && labels[j] == rs[idx[j]].labelText)
            && (forall j, k :: 0 <= j < k < |idx| ==> idx[j] < idx[k])
            && (forall i :: 0 <= i < |rs| ==> (i in idx <==> capability in rs[i].capabilities))
  {
    idx := FilterPositions(rs, HasCapability(capability));
  }
}
