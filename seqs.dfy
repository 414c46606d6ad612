/** The optional value JavaScript writes as `undefined` or `?.` */
module Wrappers {
  datatype Option<+T> = None | Some(value: T)
}

/**
 * Sequence operations that the array methods of the console (`filter`, `find`,
 * `indexOf`) stand for, with the facts about them that the models rely on.
 */
module Seqs {

  /** The elements of `s` that satisfy `p`, in their order in `s` (`Array.prototype.filter`). */
  function Filter<T>(s: seq<T>, p: T -> bool): (r: seq<T>)
    ensures |r| <= |s|
    ensures forall x :: x in r ==> x in s && p(x)
  {
    if s == [] then [] else Filter(s[..|s| - 1], p) + (if p(s[|s| - 1]) then [s[|s| - 1]] else [])
  }

  /** `idx` picks, at strictly increasing positions of `s`, the elements of `r` in order. */
  ghost predicate Embeds<T>(idx: seq<nat>, r: seq<T>, s: seq<T>) {
    && |idx| == |r|
    && (forall j :: 0 <= j < |idx| ==> idx[j] < |s| && r[j] == s[idx[j]])
    && (forall j, k :: 0 <= j < k < |idx| ==> idx[j] < idx[k])
  }

  /** A prefix one longer is the shorter prefix and the next element (a loop's step over `s`). */
  lemma PrefixSnoc<T>(s: seq<T>, i: nat)
    requires i < |s|
    ensures s[..i + 1] == s[..i] + [s[i]]
  {
  }

  /** The prefix of full length is the whole sequence (a loop's exit over `s`). */
  lemma PrefixAll<T>(s: seq<T>)
    ensures s[..|s|] == s
  {
  }

  /**
   * `kept` followed by the suffix of `s` from `m`: deleting the element at `|kept|` leaves
   * `kept` and the suffix after `m`; keeping it is `kept + [s[m]]` and that suffix.
   */
  lemma SplitAt<T>(kept: seq<T>, s: seq<T>, m: nat)
    requires m < |s|
    ensures var t := kept + s[m..];
            && t[..|kept|] + t[|kept| + 1..] == kept + s[m + 1..]
            && t == kept + [s[m]] + s[m + 1..]
  {
    var t := kept + s[m..];
    assert t[..|kept|] == kept;
    assert t[|kept| + 1..] == s[m + 1..];
    assert s[m..] == [s[m]] + s[m + 1..];
  }

  /** A loop filtering `s` from the front: at the start nothing is filtered yet; at the end everything is. */
  lemma FilterBounds<T>(s: seq<T>, p: T -> bool)
    ensures s == Filter(s[..0], p) + s[0..]
    ensures Filter(s, p) == Filter(s[..|s|], p) + s[|s|..]
  {
    assert s[..0] == [] && s[0..] == s;
    assert s[..|s|] == s && s[|s|..] == [];
  }

  /** Appending one element extends the filtered sequence by that element or by nothing. */
  lemma FilterSnoc<T>(s: seq<T>, x: T, p: T -> bool)
    ensures Filter(s + [x], p) == Filter(s, p) + (if p(x) then [x] else [])
  {
    assert (s + [x])[..|s|] == s;
  }

  /** Filtering two elements keeps each one that satisfies `p`, first before second. */
  lemma FilterPair<T>(a: T, b: T, p: T -> bool)
    ensures Filter([a, b], p) == (if p(a) then [a] else []) + (if p(b) then [b] else [])
  {
    FilterSnoc([], a, p);
    FilterSnoc([a], b, p);
    assert [a, b] == [a] + [b] && [a] == [] + [a];
  }

  /**
   * Filter keeps input order and drops nothing it should keep: its result sits at
   * increasing positions of `s`, and those positions are exactly the ones where `p` holds.
   */
  lemma {:induction false} FilterPositions<T>(s: seq<T>, p: T -> bool) returns (idx: seq<nat>)
    ensures Embeds(idx, Filter(s, p), s)
    ensures forall i :: 0 <= i < |s| ==> (p(s[i]) <==> i in idx)
  {
    if s == [] {
      idx := [];
    } else {
      var n := |s| - 1;
      var pre := FilterPositions(s[..n], p);
      EmbedsExtend(pre, Filter(s[..n], p), s, p(s[n]));
      PositionsExtend(pre, s, p);
      idx := if p(s[n]) then pre + [n] else pre;
    }
  }

  /** Positions of picked elements of all of `s` but its last stay valid, and the last one may be added. */
  lemma EmbedsExtend<T>(idx: seq<nat>, r: seq<T>, s: seq<T>, keep: bool)
    requires s != []
    requires Embeds(idx, r, s[..|s| - 1])
    ensures Embeds(if keep then idx + [|s| - 1] else idx, if keep then r + [s[|s| - 1]] else r, s)
  {
    var n := |s| - 1;
    assert forall j :: 0 <= j < |idx| ==> idx[j] < n && r[j] == s[idx[j]];
  }

  /** Where `p` holds in `s`: where it holds in all but the last element, and the last if it holds there. */
  lemma PositionsExtend<T>(pre: seq<nat>, s: seq<T>, p: T -> bool)
    requires s != []
    requires forall j :: 0 <= j < |pre| ==> pre[j] < |s| - 1
    requires forall i :: 0 <= i < |s| - 1 ==> (p(s[..|s| - 1][i]) <==> i in pre)
    ensures var n := |s| - 1;
            forall i :: 0 <= i < |s| ==> (p(s[i]) <==> i in (if p(s[n]) then pre + [n] else pre))
  {
    var n := |s| - 1;
    assert n !in pre;
    forall i | 0 <= i < n
      ensures p(s[i]) <==> i in pre
    {
      assert s[..n][i] == s[i];
    }
  }

  /** The filtered sequence is empty exactly when no element satisfies `p`. */
  lemma {:induction false} FilterEmpty<T>(s: seq<T>, p: T -> bool)
    ensures Filter(s, p) == [] <==> forall i :: 0 <= i < |s| ==> !p(s[i])
  {
    var idx := FilterPositions(s, p);
    if Filter(s, p) != [] {
      assert p(s[idx[0]]);
    }
  }

  /** An element is kept exactly when it occurs in `s` and satisfies `p`. */
  lemma {:induction false} FilterMembership<T>(s: seq<T>, p: T -> bool, x: T)
    ensures x in Filter(s, p) <==> x in s && p(x)
  {
    if x in s && p(x) {
      var idx := FilterPositions(s, p);
      var i :| 0 <= i < |s| && s[i] == x;
      var j :| 0 <= j < |idx| && idx[j] == i;
      assert Filter(s, p)[j] == x;
    }
  }

  /** Filtering by a stronger predicate after a weaker one is filtering by the stronger one. */
  lemma {:induction false} FilterFilter<T>(s: seq<T>, p: T -> bool, q: T -> bool)
    requires forall x :: q(x) ==> p(x)
    ensures Filter(Filter(s, p), q) == Filter(s, q)
  {
    if s != [] {
      var n := |s| - 1;
      FilterFilter(s[..n], p, q);
      assert Filter(s, q) == Filter(s[..n], q) + (if q(s[n]) then [s[n]] else []);
      if p(s[n]) {
        assert Filter(s, p) == Filter(s[..n], p) + [s[n]];
        FilterSnoc(Filter(s[..n], p), s[n], q);
      } else {
        assert !q(s[n]);
        assert Filter(s, p) == Filter(s[..n], p);
      }
    }
  }

  /** Two predicates that agree everywhere filter alike. */
  lemma {:induction false} FilterCongruent<T>(s: seq<T>, p: T -> bool, q: T -> bool)
    requires forall x :: p(x) == q(x)
    ensures Filter(s, p) == Filter(s, q)
  {
    if s != [] {
      FilterCongruent(s[..|s| - 1], p, q);
    }
  }

  /** Filtering by a predicate that every element satisfies changes nothing. */
  lemma {:induction false} FilterAll<T>(s: seq<T>, p: T -> bool)
    requires forall i :: 0 <= i < |s| ==> p(s[i])
    ensures Filter(s, p) == s
  {
    if s != [] {
      var n := |s| - 1;
      assert forall i :: 0 <= i < n ==> s[..n][i] == s[i];
      FilterAll(s[..n], p);
      PrefixSnoc(s, n);
      PrefixAll(s);
    }
  }

  /** The position of the first `x` in `s`, or -1 (`Array.prototype.indexOf`). */
  function IndexOf<T(==)>(s: seq<T>, x: T): (r: int)
    ensures -1 <= r < |s|
    ensures r == -1 <==> x !in s
    ensures 0 <= r ==> s[r] == x && x !in s[..r]
  {
    if s == [] then -1
    else if s[0] == x then 0
    else
      var r := IndexOf(s[1..], x);
      assert s[1..][..(if r < 0 then 0 else r)] == s[1..1 + (if r < 0 then 0 else r)];
      if r < 0 then -1 else r + 1
  }

  /** `f` applied to every element of `s` (`Array.prototype.map`). */
  function Map<T, U>(s: seq<T>, f: T -> U): seq<U> {
    seq(|s|, i requires 0 <= i < |s| => f(s[i]))
  }
}
