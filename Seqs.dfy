/**
 * The array built-ins the components use on their record lists, as
 * functions on sequences: `filter`, counting with `filter(...).length`,
 * and the insertion-ordered de-duplication of `[...new Set(xs)]`.
 */
module Seqs {

  /** `a` is obtained from `b` by deleting elements, keeping the order. */
  ghost predicate IsSubsequence<T>(a: seq<T>, b: seq<T>)
    decreases |b|
  {
    if a == [] then true
    else if b == [] then false
    else if a[0] == b[0] then IsSubsequence(a[1..], b[1..])
    else IsSubsequence(a, b[1..])
  }

  /** `s.filter(p)`: the elements satisfying `p`, in their original order. */
  function Filter<T>(p: T -> bool, s: seq<T>): seq<T> {
    if s == [] then []
    else if p(s[0]) then [s[0]] + Filter(p, s[1..])
    else Filter(p, s[1..])
  }

  /** The filter keeps exactly the elements that satisfy `p`, deleting the
      others and keeping the order. */
  lemma {:induction false} FilterSpec<T>(p: T -> bool, s: seq<T>)
    ensures |Filter(p, s)| <= |s|
    ensures forall x :: x in Filter(p, s) <==> x in s && p(x)
    ensures IsSubsequence(Filter(p, s), s)
  {
    if s != [] {
      FilterSpec(p, s[1..]);
      var rest := Filter(p, s[1..]);
      if p(s[0]) {
        assert ([s[0]] + rest)[1..] == rest;
      }
      assert forall x :: x in s <==> x == s[0] || x in s[1..];
    }
  }

  /** Filtering distributes over concatenation. */
  lemma {:induction false} FilterAppend<T(!new)>(p: T -> bool, a: seq<T>, b: seq<T>)
    ensures Filter(p, a + b) == Filter(p, a) + Filter(p, b)
  {
    if a == [] {
      assert a + b == b;
    } else {
      var ab := a + b;
      var head := if p(a[0]) then [a[0]] else [];
      assert Filter(p, ab) == head + Filter(p, a[1..] + b) by {
        assert ab[0] == a[0] && ab[1..] == a[1..] + b;
      }
      assert Filter(p, a[1..] + b) == Filter(p, a[1..]) + Filter(p, b) by {
        FilterAppend(p, a[1..], b);
      }
      assert Filter(p, a) == head + Filter(p, a[1..]);
    }
  }

  /** A one-element list keeps its element exactly when it passes. */
  lemma FilterSingleton<T(!new)>(p: T -> bool, x: T)
    ensures Filter(p, [x]) == if p(x) then [x] else []
  {
    assert [x][1..] == [];
  }

  /** A filter that every element passes changes nothing. */
  lemma {:induction false} FilterKeepsAll<T(!new)>(p: T -> bool, s: seq<T>)
    requires forall i :: 0 <= i < |s| ==> p(s[i])
    ensures Filter(p, s) == s
  {
    if s != [] {
      FilterKeepsAll(p, s[1..]);
      assert [s[0]] + s[1..] == s;
    }
  }

  /** Two filters in a row are one filter by the conjunction. */
  lemma {:induction false} FilterFilter<T(!new)>(p: T -> bool, q: T -> bool, pq: T -> bool, s: seq<T>)
    requires forall x :: pq(x) == (p(x) && q(x))
    ensures Filter(q, Filter(p, s)) == Filter(pq, s)
  {
    if s != [] {
      FilterFilter(p, q, pq, s[1..]);
      if p(s[0]) {
        assert ([s[0]] + Filter(p, s[1..]))[1..] == Filter(p, s[1..]);
      }
    }
  }

  /** Filters by predicates that agree on every element give one result. */
  lemma {:induction false} FilterCongruent<T(!new)>(p: T -> bool, q: T -> bool, s: seq<T>)
    requires forall i :: 0 <= i < |s| ==> p(s[i]) == q(s[i])
    ensures Filter(p, s) == Filter(q, s)
  {
    if s != [] {
      FilterCongruent(p, q, s[1..]);
    }
  }

  /** A filter that no element passes keeps nothing. */
  lemma {:induction false} FilterKeepsNone<T(!new)>(p: T -> bool, s: seq<T>)
    requires forall i :: 0 <= i < |s| ==> !p(s[i])
    ensures Filter(p, s) == []
  {
    if s != [] {
      FilterKeepsNone(p, s[1..]);
    }
  }

  // ---------------------------------------------------------------------
  // Chains of optional filters

  /** One step of a chain of `if (cond) xs = xs.filter(keep)` statements. */
  datatype Stage<!T> = Stage(active: bool, keep: T -> bool)

  /** `x` survives the first `k` stages of the chain that are active. */
  predicate PassesStages<T>(stages: seq<Stage<T>>, k: nat, x: T)
    requires k <= |stages|
  {
    forall i :: 0 <= i < k ==> stages[i].active ==> stages[i].keep(x)
  }

  function StagesFilter<T>(stages: seq<Stage<T>>, k: nat): T -> bool
    requires k <= |stages|
  {
    x => PassesStages(stages, k, x)
  }

  /** Before any stage, nothing has been removed. */
  lemma NoStagesKeepAll<T(!new)>(stages: seq<Stage<T>>, s: seq<T>)
    ensures Filter(StagesFilter(stages, 0), s) == s
  {
    FilterKeepsAll(StagesFilter(stages, 0), s);
  }

  /** Running stage `k` after the first `k` stages gives the first `k + 1`
      stages; an inactive stage changes nothing. */
  lemma StageStep<T(!new)>(stages: seq<Stage<T>>, k: nat, s: seq<T>)
    requires k < |stages|
    ensures Filter(StagesFilter(stages, k + 1), s) ==
      if stages[k].active then Filter(stages[k].keep, Filter(StagesFilter(stages, k), s))
      else Filter(StagesFilter(stages, k), s)
  {
    var p := StagesFilter(stages, k);
    var pq := StagesFilter(stages, k + 1);
    if stages[k].active {
      FilterFilter(p, stages[k].keep, pq, s);
    } else {
      FilterCongruent(pq, p, s);
    }
  }

  /** `if (active) xs = xs.filter(keep)` for stage `k`, after the first `k`
      stages have run on `s`. */
  method RunStage<T(!new)>(stages: seq<Stage<T>>, k: nat, s: seq<T>, xs: seq<T>) returns (ys: seq<T>)
    requires k < |stages| && xs == Filter(StagesFilter(stages, k), s)
    ensures ys == Filter(StagesFilter(stages, k + 1), s)
  {
    ys := xs;
    if stages[k].active {
      ys := Filter(stages[k].keep, ys);
    }
    StageStep(stages, k, s);
  }

  /** `s.filter(p).length`. */
  function Count<T>(p: T -> bool, s: seq<T>): (n: nat)
    ensures n <= |s|
  {
    if s == [] then 0 else (if p(s[0]) then 1 else 0) + Count(p, s[1..])
  }

  lemma {:induction false} FilterLength<T(!new)>(p: T -> bool, s: seq<T>)
    ensures |Filter(p, s)| == Count(p, s)
  {
    if s != [] {
      FilterLength(p, s[1..]);
    }
  }

  /** Two counts by predicates that no element satisfies together never
      exceed the length of the list. */
  lemma {:induction false} CountDisjoint<T>(p: T -> bool, q: T -> bool, s: seq<T>)
    requires forall i :: 0 <= i < |s| ==> !(p(s[i]) && q(s[i]))
    ensures Count(p, s) + Count(q, s) <= |s|
  {
    if s != [] {
      CountDisjoint(p, q, s[1..]);
    }
  }

  /** Deleting the elements that satisfy `p` removes exactly `Count(p, s)`
      of them. */
  lemma {:induction false} CountComplement<T(!new)>(p: T -> bool, notP: T -> bool, s: seq<T>)
    requires forall x :: notP(x) == !p(x)
    ensures |Filter(notP, s)| == |s| - Count(p, s)
  {
    if s != [] {
      CountComplement(p, notP, s[1..]);
    }
  }

  // ---------------------------------------------------------------------
  // Insertion-ordered distinct elements

  ghost predicate NoDuplicates<T>(s: seq<T>) {
    forall i, j :: 0 <= i < j < |s| ==> s[i] != s[j]
  }

  /** The position of the first occurrence of `x` in `s`. */
  function FirstIndex<T(==)>(s: seq<T>, x: T): (k: nat)
    requires x in s
    ensures k < |s| && s[k] == x
    ensures forall m :: 0 <= m < k ==> s[m] != x
  {
    if s[0] == x then 0 else 1 + FirstIndex(s[1..], x)
  }

  /** The first occurrence of an element of a prefix lies in that prefix. */
  lemma FirstIndexInPrefix<T>(s: seq<T>, k: nat, x: T)
    requires k <= |s| && x in s[..k]
    ensures FirstIndex(s, x) == FirstIndex(s[..k], x)
  {
    var a := FirstIndex(s, x);
    var b := FirstIndex(s[..k], x);
    assert s[b] == x;
    assert a <= b;
    assert s[..k][a] == x;
  }

  /** `[...new Set(s)]`: each distinct element once, in order of first
      occurrence. */
  function Distinct<T(==,!new)>(s: seq<T>): (r: seq<T>)
    ensures NoDuplicates(r)
    ensures forall x :: x in r <==> x in s
    decreases |s|
  {
    if s == [] then []
    else
      var d := Distinct(s[..|s| - 1]);
      var last := s[|s| - 1];
      assert s == s[..|s| - 1] + [last];
      if last in d then d else d + [last]
  }

  /** The elements of `Distinct(s)` are ordered by where they first occur in
      `s`: together with the contract of Distinct this fixes the result. */
  lemma {:induction false} DistinctFirstOccurrenceOrder<T(!new)>(s: seq<T>)
    ensures forall i, j :: 0 <= i < j < |Distinct(s)| ==>
      FirstIndex(s, Distinct(s)[i]) < FirstIndex(s, Distinct(s)[j])
    decreases |s|
  {
    if s != [] {
      var p := s[..|s| - 1];
      var d := Distinct(p);
      var last := s[|s| - 1];
      DistinctFirstOccurrenceOrder(p);
      var r := Distinct(s);
      forall i, j | 0 <= i < j < |r| ensures FirstIndex(s, r[i]) < FirstIndex(s, r[j]) {
        assert r[i] == d[i];
        assert r[i] in p;
        FirstIndexInPrefix(s, |s| - 1, r[i]);
        assert s[..|s| - 1] == p;
        if j < |d| {
          assert r[j] == d[j];
          FirstIndexInPrefix(s, |s| - 1, r[j]);
        } else {
          assert r[j] == last && last !in p;
          assert FirstIndex(s, r[j]) == |s| - 1;
        }
      }
    }
  }
}
