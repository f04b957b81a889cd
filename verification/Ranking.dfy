/** Insertion sort under a relation that need not be an order: what it guarantees anyway. */
module Ranking {

  /** Where `x` ends up when it is swapped leftwards past each neighbour it ranks before. */
  function Sink<T>(sorted: seq<T>, x: T, before: (T, T) -> bool): (r: seq<T>)
    ensures |r| == |sorted| + 1
  {
    if sorted == [] || !before(x, sorted[|sorted| - 1]) then sorted + [x]
    else Sink(sorted[..|sorted| - 1], x, before) + [sorted[|sorted| - 1]]
  }

  function Ranked<T>(s: seq<T>, before: (T, T) -> bool): (r: seq<T>)
    ensures |r| == |s|
  {
    if s == [] then [] else Sink(Ranked(s[..|s| - 1], before), s[|s| - 1], before)
  }

  lemma SinkPast<T>(sorted: seq<T>, x: T, before: (T, T) -> bool, j: nat)
    requires 0 < j <= |sorted| && before(x, sorted[j - 1])
    ensures Sink(sorted[..j], x, before) + sorted[j..] == Sink(sorted[..j - 1], x, before) + sorted[j - 1..]
  {
    var left := Sink(sorted[..j - 1], x, before);
    assert sorted[..j][..j - 1] == sorted[..j - 1];
    assert sorted[j - 1..] == [sorted[j - 1]] + sorted[j..];
    assert left + [sorted[j - 1]] + sorted[j..] == left + ([sorted[j - 1]] + sorted[j..]);
  }

  method SinkLeft<T>(a: array<T>, i: nat, before: (T, T) -> bool)
    requires i < a.Length
    modifies a
    ensures a[..i + 1] == Sink(old(a[..i]), old(a[i]), before)
    ensures forall k | i < k < a.Length :: a[k] == old(a[k])
  {
    ghost var sorted, x := a[..i], a[i];
    var j := i;
    ghost var target := Sink(sorted, x, before);
    assert sorted[..i] == sorted && sorted[i..] == [];
    while j > 0 && before(a[j], a[j - 1])
      invariant 0 <= j <= i && a[j] == x
      invariant forall k | 0 <= k < j :: a[k] == sorted[k]
      invariant forall k | j < k <= i :: a[k] == sorted[k - 1]
      invariant forall k | i < k < a.Length :: a[k] == old(a[k])
      invariant target == Sink(sorted[..j], x, before) + sorted[j..]
    {
      SinkPast(sorted, x, before, j);
      a[j], a[j - 1] := a[j - 1], a[j];
      j := j - 1;
    }
    assert target == sorted[..j] + [x] + sorted[j..] by {
      assert j > 0 ==> sorted[..j][j - 1] == sorted[j - 1];
    }
    forall k | 0 <= k <= i ensures a[..i + 1][k] == target[k] {
    }
  }

  /** The sort in place, by swaps of neighbours. */
  method RankInPlace<T>(a: array<T>, before: (T, T) -> bool)
    modifies a
    ensures a[..] == Ranked(old(a[..]), before)
  {
    ghost var was := a[..];
    var i := 1;
    assert a.Length > 0 ==> was[..1] == [was[0]] && was[..1][..0] == [];
    while i < a.Length
      invariant 1 <= i && (i <= a.Length || a.Length == 0)
      invariant i <= a.Length ==> a[..i] == Ranked(was[..i], before)
      invariant forall k | i <= k < a.Length :: a[k] == was[k]
    {
      assert was[..i + 1][..i] == was[..i];
      SinkLeft(a, i, before);
      i := i + 1;
    }
    if a.Length > 0 {
      assert a[..] == a[..i] && was[..i] == was;
    }
  }

  // ---- what the ranking guarantees ------------------------------------------------------

  lemma {:induction false} SinkAdds<T>(sorted: seq<T>, x: T, before: (T, T) -> bool)
    ensures multiset(Sink(sorted, x, before)) == multiset(sorted) + multiset{x}
  {
    if sorted != [] && before(x, sorted[|sorted| - 1]) {
      SinkAdds(sorted[..|sorted| - 1], x, before);
      assert sorted == sorted[..|sorted| - 1] + [sorted[|sorted| - 1]];
    }
  }

  lemma SinkMember<T>(sorted: seq<T>, x: T, before: (T, T) -> bool, i: nat)
    requires i <= |sorted|
    ensures Sink(sorted, x, before)[i] == x || Sink(sorted, x, before)[i] in sorted
  {
    var r := Sink(sorted, x, before);
    SinkAdds(sorted, x, before);
    assert r[i] in multiset(r);
  }

  lemma {:induction false} RankedIsPermutation<T>(s: seq<T>, before: (T, T) -> bool)
    ensures multiset(Ranked(s, before)) == multiset(s)
  {
    if s != [] {
      RankedIsPermutation(s[..|s| - 1], before);
      SinkAdds(Ranked(s[..|s| - 1], before), s[|s| - 1], before);
      LastAdds(s);
    }
  }

  lemma LastAdds<T>(s: seq<T>)
    requires s != []
    ensures multiset(s) == multiset(s[..|s| - 1]) + multiset{s[|s| - 1]}
  {
    assert s == s[..|s| - 1] + [s[|s| - 1]];
  }

  /** Neighbours are never the wrong way round for certain. */
  ghost predicate Settled<T>(s: seq<T>, before: (T, T) -> bool) {
    forall i | 0 <= i < |s| - 1 :: before(s[i], s[i + 1]) || !before(s[i + 1], s[i])
  }

  lemma {:induction false} SinkSettles<T>(sorted: seq<T>, x: T, before: (T, T) -> bool)
    requires Settled(sorted, before)
    ensures var r := Sink(sorted, x, before);
            Settled(r, before) && (r[|sorted|] == x || (sorted != [] && r[|sorted|] == sorted[|sorted| - 1]))
  {
    if sorted != [] && before(x, sorted[|sorted| - 1]) {
      var n := |sorted| - 1;
      var front := sorted[..n];
      assert Settled(front, before);
      SinkSettles(front, x, before);
      if n > 0 {
        assert front[n - 1] == sorted[n - 1];
        assert before(sorted[n - 1], sorted[n - 1 + 1]) || !before(sorted[n], sorted[n - 1]);
      }
    }
  }

  lemma {:induction false} RankedIsSettled<T>(s: seq<T>, before: (T, T) -> bool)
    ensures Settled(Ranked(s, before), before)
  {
    if s != [] {
      RankedIsSettled(s[..|s| - 1], before);
      SinkSettles(Ranked(s[..|s| - 1], before), s[|s| - 1], before);
    }
  }

  // ---- who overtakes whom ---------------------------------------------------------------

  /** The elements with their places. */
  function Placed<T>(s: seq<T>): seq<(nat, T)> {
    seq(|s|, i requires 0 <= i < |s| => (i, s[i]))
  }

  function Unplaced<T>(s: seq<(nat, T)>): seq<T> {
    seq(|s|, i requires 0 <= i < |s| => s[i].1)
  }

  function Lift<T>(before: (T, T) -> bool): ((nat, T), (nat, T)) -> bool {
    (p: (nat, T), q: (nat, T)) => before(p.1, q.1)
  }

  lemma {:induction false} SinkPlaced<T>(sorted: seq<(nat, T)>, x: (nat, T), before: (T, T) -> bool)
    ensures Unplaced(Sink(sorted, x, Lift(before))) == Sink(Unplaced(sorted), x.1, before)
  {
    if sorted != [] && before(x.1, sorted[|sorted| - 1].1) {
      SinkPlaced(sorted[..|sorted| - 1], x, before);
      assert Unplaced(sorted)[..|sorted| - 1] == Unplaced(sorted[..|sorted| - 1]);
    }
  }

  /** The ranking does not look at the places it carries along. */
  lemma {:induction false} RankedPlaced<T>(s: seq<T>, before: (T, T) -> bool)
    ensures Unplaced(Ranked(Placed(s), Lift(before))) == Ranked(s, before)
  {
    if s != [] {
      var n := |s| - 1;
      RankedPlaced(s[..n], before);
      assert Placed(s)[..n] == Placed(s[..n]);
      SinkPlaced(Ranked(Placed(s[..n]), Lift(before)), (n, s[n]), before);
    }
  }

  /** Whoever stands ahead of an element that came before it ranks before it. */
  ghost predicate FairlyOvertaken<T>(r: seq<(nat, T)>, before: (T, T) -> bool) {
    forall i, j | 0 <= i < j < |r| :: r[i].0 > r[j].0 ==> before(r[i].1, r[j].1)
  }

  lemma {:induction false} SinkOvertakes<T>(sorted: seq<(nat, T)>, x: (nat, T), before: (T, T) -> bool)
    requires FairlyOvertaken(sorted, before) && forall i | 0 <= i < |sorted| :: sorted[i].0 < x.0
    ensures FairlyOvertaken(Sink(sorted, x, Lift(before)), before)
  {
    if sorted != [] && before(x.1, sorted[|sorted| - 1].1) {
      var n := |sorted| - 1;
      var left, last := Sink(sorted[..n], x, Lift(before)), sorted[n];
      SinkOvertakes(sorted[..n], x, before);
      forall i | 0 <= i < |left| && left[i].0 > last.0 ensures before(left[i].1, last.1) {
        SinkMember(sorted[..n], x, Lift(before), i);
      }
    }
  }

  /** Ranking the elements with their places: each place once, and nobody is overtaken by
      an element that does not rank before it. */
  lemma {:induction false} OvertakersRankBefore<T>(s: seq<T>, before: (T, T) -> bool)
    ensures FairlyOvertaken(Ranked(Placed(s), Lift(before)), before)
    ensures multiset(Ranked(Placed(s), Lift(before))) == multiset(Placed(s))
  {
    RankedIsPermutation(Placed(s), Lift(before));
    if s != [] {
      var n := |s| - 1;
      var front := Ranked(Placed(s[..n]), Lift(before));
      OvertakersRankBefore(s[..n], before);
      assert Placed(s)[..n] == Placed(s[..n]);
      forall i | 0 <= i < |front| ensures front[i].0 < n {
        assert front[i] in multiset(front);
        assert front[i] in Placed(s[..n]);
      }
      SinkOvertakes(front, (n, s[n]), before);
    }
  }

  // ---- what is placed stays in order --------------------------------------------------------

  /** `a` stands somewhere ahead of `b`. */
  ghost predicate Ahead<T>(s: seq<T>, a: T, b: T) {
    exists i, j :: 0 <= i < j < |s| && s[i] == a && s[j] == b
  }

  lemma AheadAt<T>(s: seq<T>, a: T, b: T, i: nat, j: nat)
    requires i < j < |s| && s[i] == a && s[j] == b
    ensures Ahead(s, a, b)
  {
  }

  lemma {:induction false} SinkKeepsAhead<T>(sorted: seq<T>, x: T, before: (T, T) -> bool, a: T, b: T)
    requires Ahead(sorted, a, b)
    ensures Ahead(Sink(sorted, x, before), a, b)
  {
    var i, j :| 0 <= i < j < |sorted| && sorted[i] == a && sorted[j] == b;
    var n, r := |sorted| - 1, Sink(sorted, x, before);
    if !before(x, sorted[n]) {
      AheadAt(r, a, b, i, j);
    } else {
      var left := Sink(sorted[..n], x, before);
      assert r == left + [sorted[n]];
      if j < n {
        AheadAt(sorted[..n], a, b, i, j);
        SinkKeepsAhead(sorted[..n], x, before, a, b);
        var k, l :| 0 <= k < l < |left| && left[k] == a && left[l] == b;
        AheadAt(r, a, b, k, l);
      } else {
        SinkAdds(sorted[..n], x, before);
        assert sorted[..n][i] in multiset(sorted[..n]);
        assert a in multiset(left);
        var k :| 0 <= k < |left| && left[k] == a;
        AheadAt(r, a, b, k, n + 1);
      }
    }
  }

  /** Ranking more elements never reorders two already placed. */
  lemma {:induction false} RankedKeepsAhead<T>(first: seq<T>, more: seq<T>, before: (T, T) -> bool, a: T, b: T)
    requires Ahead(Ranked(first, before), a, b)
    ensures Ahead(Ranked(first + more, before), a, b)
  {
    if more == [] {
      assert first + more == first;
    } else {
      var n := |more| - 1;
      RankedKeepsAhead(first, more[..n], before, a, b);
      assert (first + more)[..|first + more| - 1] == first + more[..n];
      SinkKeepsAhead(Ranked(first + more[..n], before), more[n], before, a, b);
    }
  }

  lemma RankTwo<T>(a: T, b: T, before: (T, T) -> bool)
    ensures Ranked([a, b], before) == if before(b, a) then [b, a] else [a, b]
  {
    assert [a, b][..1] == [a] && [a][..0] == [];
    assert Ranked([a], before) == Sink([], a, before) == [a];
    assert Ranked([a, b], before) == Sink([a], b, before);
    assert Sink([], b, before) == [b];
    assert [b] + [a] == [b, a] && [a] + [b] == [a, b];
  }

  /** Two elements of which the second ranks before the first change places, whatever follows. */
  lemma SecondOvertakes<T>(a: T, b: T, more: seq<T>, before: (T, T) -> bool)
    requires before(a, b)
    ensures Ahead(Ranked([b, a] + more, before), a, b)
  {
    RankTwo(b, a, before);
    AheadAt([a, b], a, b, 0, 1);
    RankedKeepsAhead([b, a], more, before, a, b);
  }

  lemma TakeOut<T>(s: seq<T>, i: nat)
    requires i < |s|
    ensures multiset(s) == multiset{s[i]} + multiset(s[..i] + s[i + 1..])
  {
    assert s == s[..i] + ([s[i]] + s[i + 1..]);
  }

  /** Any two elements can be put first, in either order. */
  lemma PutFirst<T>(s: seq<T>, a: T, b: T) returns (more: seq<T>)
    requires a in s && b in s && a != b
    ensures multiset([b, a] + more) == multiset(s)
  {
    var i :| 0 <= i < |s| && s[i] == a;
    var rest := s[..i] + s[i + 1..];
    TakeOut(s, i);
    assert b in multiset(s);
    assert b in multiset(rest);
    var j :| 0 <= j < |rest| && rest[j] == b;
    more := rest[..j] + rest[j + 1..];
    TakeOut(rest, j);
  }
}
