/**
 * Reordering the rules of a load-balancer route in the rules table: moving a rule
 * from one position to another on a copy of the rule list, by the move-up and
 * move-down buttons or by drag and drop.
 */
module Rules {
  import opened Wrappers

  /** The rules after moving the one at `from` to `to`: take it out, then insert it at `to` of the rest. */
  function Moved<T>(s: seq<T>, from: nat, to: nat): (r: seq<T>)
    requires from < |s| && to < |s|
    ensures |r| == |s| && r[to] == s[from]
  {
    var rest := s[..from] + s[from + 1..];
    rest[..to] + [s[from]] + rest[to..]
  }

  /** A move keeps every rule and adds none: the result is a permutation of the rules. */
  lemma MovedIsPermutation<T>(s: seq<T>, from: nat, to: nat)
    requires from < |s| && to < |s|
    ensures |Moved(s, from, to)| == |s|
    ensures multiset(Moved(s, from, to)) == multiset(s)
  {
    var rest := s[..from] + s[from + 1..];
    assert s == s[..from] + [s[from]] + s[from + 1..];
    assert multiset(s) == multiset(rest) + multiset{s[from]};
    assert rest == rest[..to] + rest[to..];
    assert Moved(s, from, to) == rest[..to] + [s[from]] + rest[to..];
  }

  /**
   * Where every rule goes: the moved rule lands at `to`; the rules between the two
   * positions shift by one toward `from`; all others keep their positions.
   */
  lemma MovedAt<T>(s: seq<T>, from: nat, to: nat)
    requires from < |s| && to < |s|
    ensures var r := Moved(s, from, to);
            && |r| == |s|
            && r[to] == s[from]
            && (forall k :: 0 <= k < |s| && k < from && k < to ==> r[k] == s[k])
            && (forall k :: 0 <= k < |s| && k > from && k > to ==> r[k] == s[k])
            && (forall k :: from <= k < to ==> r[k] == s[k + 1])
            && (forall k :: to < k <= from ==> r[k] == s[k - 1])
  {
  }

  /** Moving a rule onto its own position changes nothing. */
  lemma MovedInPlace<T>(s: seq<T>, i: nat)
    requires i < |s|
    ensures Moved(s, i, i) == s
  {
    MovedAt(s, i, i);
  }

  /** Moving a rule back to where it came from undoes the move. */
  lemma MovedBack<T>(s: seq<T>, from: nat, to: nat)
    requires from < |s| && to < |s|
    ensures Moved(Moved(s, from, to), to, from) == s
  {
    var r := Moved(s, from, to);
    MovedAt(s, from, to);
    MovedAt(r, to, from);
  }

  /** Moving a rule down by one swaps it with the rule below. */
  lemma MoveDownSwaps<T>(s: seq<T>, i: nat)
    requires i + 1 < |s|
    ensures Moved(s, i, i + 1) == s[i := s[i + 1]][i + 1 := s[i]]
  {
    MovedAt(s, i, i + 1);
  }

  /** Moving a rule up by one swaps it with the rule above. */
  lemma MoveUpSwaps<T>(s: seq<T>, i: nat)
    requires 0 < i < |s|
    ensures Moved(s, i, i - 1) == s[i - 1 := s[i]][i := s[i - 1]]
  {
    MovedAt(s, i, i - 1);
  }

  /** `a.splice(i, 1)` on the first `len` cells of `a`: the cells after `i` move one to the left. */
  method SpliceRemove<T>(a: array<T>, len: nat, i: nat) returns (removed: T)
    requires i < len <= a.Length
    modifies a
    ensures removed == old(a[i])
    ensures a[..len - 1] == old(a[..i]) + old(a[i + 1..len])
    ensures a[len..] == old(a[len..])
  {
    ghost var s := a[..];
    removed := a[i];
    var k := i;
    while k < len - 1
      invariant i <= k <= len - 1
      invariant forall j :: 0 <= j < i ==> a[j] == s[j]
      invariant forall j :: i <= j < k ==> a[j] == s[j + 1]
      invariant forall j :: k <= j < a.Length ==> a[j] == s[j]
    {
      a[k] := a[k + 1];
      k := k + 1;
    }
    assert forall j :: 0 <= j < len - 1 ==> a[j] == (s[..i] + s[i + 1..len])[j];
    assert forall j :: 0 <= j < a.Length - len ==> a[len..][j] == s[len..][j];
  }

  /** `a.splice(i, 0, x)` on the first `len` cells of `a`: the cells from `i` move one to the right and `x` goes to `i`. */
  method SpliceInsert<T>(a: array<T>, len: nat, i: nat, x: T)
    requires i <= len < a.Length
    modifies a
    ensures a[..len + 1] == old(a[..i]) + [x] + old(a[i..len])
    ensures a[len + 1..] == old(a[len + 1..])
  {
    ghost var s := a[..];
    var k := len;
    while k > i
      invariant i <= k <= len
      invariant forall j :: 0 <= j < k ==> a[j] == s[j]
      invariant forall j :: k < j <= len ==> a[j] == s[j - 1]
      invariant forall j :: len < j < a.Length ==> a[j] == s[j]
    {
      a[k] := a[k - 1];
      k := k - 1;
    }
    a[i] := x;
    assert forall j :: 0 <= j <= len ==> a[j] == (s[..i] + [x] + s[i..len])[j];
    assert forall j :: len < j < a.Length ==> a[j] == s[j];
    assert a[len + 1..] == s[len + 1..];
  }

  /**
   * The body of `handleRulesReorder`: copy the rules (`[...rules]`), take the rule at
   * `sourceIndex` out of the copy and insert it at `destinationIndex`. The rules
   * themselves are not touched.
   */
  method Reorder<T>(rules: array<T>, sourceIndex: int, destinationIndex: int) returns (reordered: array<T>)
    requires 0 <= sourceIndex < rules.Length && 0 <= destinationIndex < rules.Length
    ensures fresh(reordered)
    ensures reordered[..] == Moved(rules[..], sourceIndex, destinationIndex)
  {
    reordered := new T[rules.Length](i requires 0 <= i < rules.Length reads rules => rules[i]);
    assert reordered[..] == rules[..];
    var removed := SpliceRemove(reordered, rules.Length, sourceIndex);
    ghost var rest := reordered[..rules.Length - 1];
    assert rest == rules[..sourceIndex] + rules[sourceIndex + 1..];
    assert rest[..destinationIndex] == reordered[..destinationIndex];
    assert rest[destinationIndex..] == reordered[destinationIndex..rules.Length - 1];
    SpliceInsert(reordered, rules.Length - 1, destinationIndex, removed);
    assert reordered[..] == reordered[..rules.Length];
  }

  /** Where a drag started or ended. */
  datatype DraggableLocation = DraggableLocation(droppableId: string, index: int)

  /** The outcome of a drag: its source and, unless dropped outside the list, its destination. */
  datatype DropResult = DropResult(source: DraggableLocation, destination: Option<DraggableLocation>)

  /** The rules table of one route, with its reorder handlers. */
  class RulesTable<Rule> {
    /** `route.rules`. */
    const rules: array<Rule>
    /** The reordered copies the handlers have computed, oldest first; the table hands none of them on. */
    ghost var computed: seq<seq<Rule>>

    constructor (rules: array<Rule>)
      ensures this.rules == rules && computed == []
    {
      this.rules := rules;
      computed := [];
    }

    /** `handleRulesReorder`: computes the moved copy and drops it; `route.rules` stays as it was. */
    method HandleRulesReorder(sourceIndex: int, destinationIndex: int)
      requires 0 <= sourceIndex < rules.Length && 0 <= destinationIndex < rules.Length
      modifies this
      ensures rules[..] == old(rules[..])
      ensures computed == old(computed) + [Moved(rules[..], sourceIndex, destinationIndex)]
    {
      var reorderedRules := Reorder(rules, sourceIndex, destinationIndex);
      computed := computed + [reorderedRules[..]];
    }

    /** `handleMoveUp`: a reorder from `sourceIndex` to the position above it. */
    method HandleMoveUp(sourceIndex: int)
      requires 1 <= sourceIndex < rules.Length
      modifies this
      ensures rules[..] == old(rules[..])
      ensures computed == old(computed) + [Moved(rules[..], sourceIndex, sourceIndex - 1)]
    {
      HandleRulesReorder(sourceIndex, sourceIndex - 1);
    }

    /** `handleMoveDown`: a reorder from `sourceIndex` to the position below it. */
    method HandleMoveDown(sourceIndex: int)
      requires 0 <= sourceIndex < rules.Length - 1
      modifies this
      ensures rules[..] == old(rules[..])
      ensures computed == old(computed) + [Moved(rules[..], sourceIndex, sourceIndex + 1)]
    {
      HandleRulesReorder(sourceIndex, sourceIndex + 1);
    }

    /** `onDragEnd`: a drop outside the list or back onto its source does nothing; any other drop is a reorder. */
    method OnDragEnd(result: DropResult)
      requires 0 <= result.source.index < rules.Length
      requires result.destination.Some? ==> 0 <= result.destination.value.index < rules.Length
      modifies this
      ensures rules[..] == old(rules[..])
      ensures result.destination.None? || result.destination.value.index == result.source.index ==>
                computed == old(computed)
      ensures result.destination.Some? && result.destination.value.index != result.source.index ==>
                computed == old(computed) + [Moved(rules[..], result.source.index, result.destination.value.index)]
    {
      if result.destination.None? || result.destination.value.index == result.source.index {
        return;
      }
      if result.destination.Some? {
        HandleRulesReorder(result.source.index, result.destination.value.index);
      }
    }
  }
}
