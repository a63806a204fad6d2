/** Duplicate-free lists, and counting the positions of a list whose element lies in a set. */
module Sequences {

  ghost predicate Distinct<T>(s: seq<T>) {
    forall i, j :: 0 <= i < j < |s| ==> s[i] != s[j]
  }

  function SetOf<T(==)>(s: seq<T>): set<T> {
    set x | x in s
  }

  /** The marked positions, each exactly once and in order. */
  ghost predicate Marked(marks: seq<bool>, pos: seq<int>) {
    && (forall i, j :: 0 <= i < j < |pos| ==> pos[i] < pos[j])
    && (forall j | 0 <= j < |pos| :: 0 <= pos[j] < |marks| && marks[pos[j]])
    && (forall i {:trigger i in pos} | 0 <= i < |marks| && marks[i] :: i in pos)
  }

  lemma MarkedNext(marks: seq<bool>, pos: seq<int>, mark: bool)
    requires Marked(marks, pos)
    ensures Marked(marks + [mark], if mark then pos + [|marks|] else pos)
  {
    var pos' := if mark then pos + [|marks|] else pos;
    forall i | 0 <= i < |marks + [mark]| && (marks + [mark])[i] ensures i in pos' {
      if i < |marks| {
        assert i in pos;
      } else {
        assert pos'[|pos|] == i;
      }
    }
  }

  ghost predicate ElementsAt<T>(s: seq<T>, pos: seq<int>, r: seq<T>) {
    |r| == |pos| && forall j {:trigger pos[j]} | 0 <= j < |pos| :: 0 <= pos[j] < |s| && r[j] == s[pos[j]]
  }

  /** The elements at the marked positions, in order. */
  ghost predicate Picks<T(!new)>(s: seq<T>, marks: seq<bool>, r: seq<T>) {
    |marks| == |s| && exists pos: seq<int> :: Marked(marks, pos) && ElementsAt(s, pos, r)
  }

  lemma ElementsAtNext<T>(s: seq<T>, pos: seq<int>, r: seq<T>, x: T)
    requires ElementsAt(s, pos, r)
    ensures ElementsAt(s + [x], pos, r) && ElementsAt(s + [x], pos + [|s|], r + [x])
  {}

  /** One more element, marked or not. */
  lemma PicksNext<T>(s: seq<T>, marks: seq<bool>, pos: seq<int>, r: seq<T>, x: T, mark: bool) returns (pos': seq<int>)
    requires |marks| == |s| && Marked(marks, pos) && ElementsAt(s, pos, r)
    ensures Marked(marks + [mark], pos') && ElementsAt(s + [x], pos', if mark then r + [x] else r)
  {
    MarkedNext(marks, pos, mark);
    ElementsAtNext(s, pos, r, x);
    pos' := if mark then pos + [|s|] else pos;
  }

  function CountIn<T(==)>(s: seq<T>, members: set<T>): (n: nat)
    ensures n <= |s|
  {
    if s == [] then 0
    else CountIn(s[..|s| - 1], members) + if s[|s| - 1] in members then 1 else 0
  }

  lemma CountInNext<T>(s: seq<T>, n: nat, members: set<T>)
    requires n < |s|
    ensures CountIn(s[..n + 1], members) == CountIn(s[..n], members) + if s[n] in members then 1 else 0
  {
    assert s[..n + 1][..n] == s[..n];
  }

  lemma {:induction false} CountInNone<T>(s: seq<T>, members: set<T>)
    requires forall x | x in s :: x !in members
    ensures CountIn(s, members) == 0
  {
    if s != [] {
      CountInNone(s[..|s| - 1], members);
    }
  }

  function Filter<T(==, !new)>(s: seq<T>, keep: seq<T>): (r: seq<T>)
    ensures forall x :: x in r <==> x in s && x in keep
    ensures |r| <= |s|
  {
    if s == [] then []
    else if s[0] in keep then [s[0]] + Filter(s[1..], keep)
    else Filter(s[1..], keep)
  }

  lemma {:induction false} FilterAppend<T(!new)>(s: seq<T>, x: T, keep: seq<T>)
    ensures Filter(s + [x], keep) == Filter(s, keep) + if x in keep then [x] else []
  {
    if s == [] {
    } else {
      FilterAppend(s[1..], x, keep);
      assert (s + [x])[1..] == s[1..] + [x];
    }
  }

  /** Which elements are kept. */
  function KeepMarks<T(==)>(s: seq<T>, keep: seq<T>): (marks: seq<bool>)
    ensures |marks| == |s| && forall i | 0 <= i < |s| :: marks[i] <==> s[i] in keep
  {
    seq(|s|, i requires 0 <= i < |s| => s[i] in keep)
  }

  lemma {:induction false} FilterPositions<T(!new)>(s: seq<T>, keep: seq<T>) returns (pos: seq<int>)
    ensures Marked(KeepMarks(s, keep), pos) && ElementsAt(s, pos, Filter(s, keep))
  {
    if s == [] {
      pos := [];
    } else {
      var init, last := s[..|s| - 1], s[|s| - 1];
      assert s == init + [last] && KeepMarks(s, keep) == KeepMarks(init, keep) + [last in keep];
      pos := FilterPositions(init, keep);
      FilterAppend(init, last, keep);
      pos := PicksNext(init, KeepMarks(init, keep), pos, Filter(init, keep), last, last in keep);
    }
  }

  /** The filter keeps the elements as often and in the order they occur. */
  lemma FilterInOrder<T(!new)>(s: seq<T>, keep: seq<T>)
    ensures Picks(s, KeepMarks(s, keep), Filter(s, keep))
  {
    var pos := FilterPositions(s, keep);
  }

  lemma SetOfLast<T>(s: seq<T>)
    requires s != []
    ensures SetOf(s) == SetOf(s[..|s| - 1]) + {s[|s| - 1]}
  {}

  lemma SetOfAppend<T>(s: seq<T>, x: T)
    ensures SetOf(s + [x]) == SetOf(s) + {x}
  {}

  lemma {:induction false} DistinctCardinality<T>(s: seq<T>)
    requires Distinct(s)
    ensures |SetOf(s)| == |s|
  {
    if s != [] {
      DistinctCardinality(s[..|s| - 1]);
      SetOfLast(s);
    }
  }

  lemma {:induction false} SetOfCardinality<T>(s: seq<T>)
    ensures |SetOf(s)| <= |s|
  {
    if s != [] {
      SetOfCardinality(s[..|s| - 1]);
      SetOfLast(s);
    }
  }

  lemma SubsetCardinality<T>(a: set<T>, b: set<T>)
    requires a <= b
    ensures |a| <= |b|
  {
    assert b == a + (b - a);
  }

  /** Some counted element occupies two positions. */
  ghost predicate Repeats<T(!new)>(s: seq<T>, members: set<T>) {
    exists i, j :: 0 <= i < j < |s| && s[i] == s[j] && s[i] in members
  }

  lemma RepeatsLast<T(!new)>(s: seq<T>, members: set<T>)
    requires s != []
    ensures var init, last := s[..|s| - 1], s[|s| - 1];
            Repeats(s, members) <==> Repeats(init, members) || (last in members && last in init)
  {}

  /** Counting positions agrees with counting elements exactly when no counted element repeats. */
  lemma {:induction false} CountInExact<T(!new)>(s: seq<T>, members: set<T>)
    ensures |SetOf(s) * members| <= CountIn(s, members)
    ensures CountIn(s, members) == |SetOf(s) * members| <==> !Repeats(s, members)
  {
    if s != [] {
      var init, last := s[..|s| - 1], s[|s| - 1];
      CountInExact(init, members);
      RepeatsLast(s, members);
      if last in members && last !in init {
        assert SetOf(s) * members == SetOf(init) * members + {last};
      } else {
        assert SetOf(s) * members == SetOf(init) * members;
      }
    }
  }

  lemma CountInDistinct<T(!new)>(s: seq<T>, members: set<T>)
    requires Distinct(s)
    ensures CountIn(s, members) == |SetOf(s) * members|
  {
    CountInExact(s, members);
  }
}
