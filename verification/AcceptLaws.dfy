/** What ranking an `Accept` header guarantees, and what it does not. */
module AcceptLaws {
  import opened JsonValue
  import opened Text
  import opened Ranking
  import opened Accept

  /** The parts of a header are its comma-separated pieces, less one empty piece at the end. */
  lemma {:induction false} PartsAreSplit(s: string)
    ensures var all := Split(s, ',');
            Parts(Header(s)) == if all[|all| - 1] == "" then all[..|all| - 1] else all
    decreases |s|
  {
    var at := Find(s, ',');
    if at + 1 < |s| {
      PartsAreSplit(s[at + 1..]);
      var rest := Split(s[at + 1..], ',');
      assert Split(s, ',') == [s[..at]] + rest;
      assert Header(s[at + 1..]) == Cut(s, ',').1;
      assert ([s[..at]] + rest)[..|rest|] == [s[..at]] + rest[..|rest| - 1];
    } else if at < |s| {
      assert s[at + 1..] == "" && Split("", ',') == [""];
      assert Split(s, ',') == [s[..at], ""];
    } else {
      assert s[..at] == s;
    }
  }

  // ---- the order ---------------------------------------------------------------------

  /** Whatever ranks before another range of the header is at least as heavy. */
  ghost predicate Consistent(ranges: seq<Range>) {
    forall a, b | a in ranges && b in ranges && RanksBefore(a, b) :: a.q >= b.q
  }

  /** Whatever ranks before another range of the header is heavier. */
  ghost predicate Strict(ranges: seq<Range>) {
    forall a, b | a in ranges && b in ranges && RanksBefore(a, b) :: a.q > b.q
  }

  predicate NoWildcard(ranges: seq<Range>) {
    forall i | 0 <= i < |ranges| :: ranges[i].kind != "*" && ranges[i].subtype != "*"
  }

  ghost predicate Descending(ranges: seq<Range>) {
    forall i, j | 0 <= i < j < |ranges| :: ranges[i].q >= ranges[j].q
  }

  /** Every header: the ranking holds each parsed range as often as the header does, no two
      neighbours are the wrong way round for certain, and a range stands ahead of one
      written before it only by ranking before it. */
  lemma RankingIsFair(ranges: seq<Range>)
    ensures multiset(Ranked(ranges, RanksBefore)) == multiset(ranges)
    ensures Settled(Ranked(ranges, RanksBefore), RanksBefore)
    ensures var placed := Ranked(Placed(ranges), Lift(RanksBefore));
            && Unplaced(placed) == Ranked(ranges, RanksBefore)
            && multiset(placed) == multiset(Placed(ranges))
            && FairlyOvertaken(placed, RanksBefore)
  {
    RankedIsPermutation(ranges, RanksBefore);
    RankedIsSettled(ranges, RanksBefore);
    RankedPlaced(ranges, RanksBefore);
    OvertakersRankBefore(ranges, RanksBefore);
  }

  lemma {:induction false} SinkDescends(sorted: seq<Range>, x: Range)
    requires Descending(sorted) && forall y | y in sorted && RanksBefore(x, y) :: x.q >= y.q
    ensures Descending(Sink(sorted, x, RanksBefore))
  {
    if sorted != [] && RanksBefore(x, sorted[|sorted| - 1]) {
      var n := |sorted| - 1;
      var left, last := Sink(sorted[..n], x, RanksBefore), sorted[n];
      SinkDescends(sorted[..n], x);
      forall i | 0 <= i < |left| ensures left[i].q >= last.q {
        SinkMember(sorted[..n], x, RanksBefore, i);
      }
    }
  }

  lemma {:induction false} ConsistentDescends(ranges: seq<Range>)
    requires Consistent(ranges)
    ensures Descending(Ranked(ranges, RanksBefore))
  {
    if ranges != [] {
      var n := |ranges| - 1;
      var front := Ranked(ranges[..n], RanksBefore);
      ConsistentDescends(ranges[..n]);
      forall y | y in front && RanksBefore(ranges[n], y) ensures ranges[n].q >= y.q {
        InBoth(ranges[..n], y);
      }
      SinkDescends(front, ranges[n]);
    }
  }

  lemma ConsistentPermutes(ranges: seq<Range>, s: seq<Range>)
    requires multiset(s) == multiset(ranges)
    ensures Consistent(ranges) ==> Consistent(s)
    ensures Strict(ranges) ==> Strict(s)
  {
    forall a | a in s ensures a in ranges {
      assert a in multiset(s);
    }
  }

  lemma AheadRises(ranges: seq<Range>, a: Range, b: Range)
    requires Ahead(ranges, a, b) && a.q < b.q
    ensures !Descending(ranges)
  {
  }

  ghost predicate FallsByWeight(ranges: seq<Range>) {
    Descending(Ranked(ranges, RanksBefore))
  }

  /** Whatever order a client writes its ranges in, they come out by falling weight, if and
      only if no range of theirs ranks before a heavier one. */
  lemma DescendingIffConsistent(ranges: seq<Range>)
    ensures (forall s: seq<Range> | multiset(s) == multiset(ranges) :: FallsByWeight(s)) <==> Consistent(ranges)
  {
    if Consistent(ranges) {
      forall s: seq<Range> | multiset(s) == multiset(ranges) ensures FallsByWeight(s) {
        ConsistentPermutes(ranges, s);
        ConsistentDescends(s);
      }
    } else {
      var a, b :| a in ranges && b in ranges && RanksBefore(a, b) && a.q < b.q;
      var more := PutFirst(ranges, a, b);
      SecondOvertakes(a, b, more, RanksBefore);
      AheadRises(Ranked([b, a] + more, RanksBefore), a, b);
      assert !FallsByWeight([b, a] + more);
    }
  }

  /** Weights fall, and of two ranges of one weight the one written first stands first. */
  ghost predicate StableByWeight(ranges: seq<Range>) {
    var placed := Ranked(Placed(ranges), Lift(RanksBefore));
    && FallsByWeight(ranges)
    && forall i, j | 0 <= i < j < |placed| && placed[i].1.q == placed[j].1.q :: placed[i].0 <= placed[j].0
  }

  lemma PlacedIsWritten(ranges: seq<Range>, i: nat)
    requires i < |ranges|
    ensures Ranked(Placed(ranges), Lift(RanksBefore))[i].1 in ranges
  {
    var placed := Ranked(Placed(ranges), Lift(RanksBefore));
    RankedIsPermutation(Placed(ranges), Lift(RanksBefore));
    assert placed[i] in multiset(placed);
    assert placed[i] in Placed(ranges);
  }

  lemma StrictIsStable(ranges: seq<Range>)
    requires Strict(ranges)
    ensures StableByWeight(ranges)
  {
    ConsistentDescends(ranges);
    OvertakersRankBefore(ranges, RanksBefore);
    var placed := Ranked(Placed(ranges), Lift(RanksBefore));
    forall i, j | 0 <= i < j < |placed| && placed[i].1.q == placed[j].1.q ensures placed[i].0 <= placed[j].0 {
      PlacedIsWritten(ranges, i);
      PlacedIsWritten(ranges, j);
    }
  }

  lemma SwappedIsUnstable(a: Range, b: Range, more: seq<Range>)
    requires RanksBefore(a, b) && a.q == b.q
    ensures !StableByWeight([b, a] + more)
  {
    var s := [b, a] + more;
    var rest := Placed(s)[2..];
    assert Placed(s) == [(0, b), (1, a)] + rest;
    SecondOvertakes((1, a), (0, b), rest, Lift(RanksBefore));
    var placed := Ranked(Placed(s), Lift(RanksBefore));
    var i, j :| 0 <= i < j < |placed| && placed[i] == (1, a) && placed[j] == (0, b);
    assert placed[i].1.q == placed[j].1.q && placed[i].0 > placed[j].0;
  }

  /** Whatever order a client writes its ranges in, the ranking is the stable sort by falling
      weight, if and only if no range ranks before another without being heavier. */
  lemma StableIffStrict(ranges: seq<Range>)
    ensures (forall s: seq<Range> | multiset(s) == multiset(ranges) :: StableByWeight(s)) <==> Strict(ranges)
  {
    if Strict(ranges) {
      forall s: seq<Range> | multiset(s) == multiset(ranges) ensures StableByWeight(s) {
        ConsistentPermutes(ranges, s);
        StrictIsStable(s);
      }
    } else {
      var a, b :| a in ranges && b in ranges && RanksBefore(a, b) && a.q <= b.q;
      var more := PutFirst(ranges, a, b);
      if a.q == b.q {
        SwappedIsUnstable(a, b, more);
      } else {
        SecondOvertakes(a, b, more, RanksBefore);
        AheadRises(Ranked([b, a] + more, RanksBefore), a, b);
      }
      assert !StableByWeight([b, a] + more);
    }
  }

  lemma PlainIsStrict(ranges: seq<Range>)
    requires NoWildcard(ranges)
    ensures Strict(ranges)
  {
  }

  /** Without wildcards the ranking is the stable sort by falling weight. */
  lemma PlainRankingIsStable(ranges: seq<Range>)
    requires NoWildcard(ranges)
    ensures StableByWeight(ranges)
  {
    PlainIsStrict(ranges);
    StableIffStrict(ranges);
  }

  /** With a wildcard neither holds: a concrete type outranks `*` `/` `*` whatever their
      weights, and two ranges that each rank before the other come out in reverse. */
  lemma WildcardsBreakTheOrder(low: real, high: real)
    requires low < high
    ensures var any, json := Range("*", "*", high), Range("application", "json", low);
            Ranked([any, json], RanksBefore) == [json, any] && !Descending([json, any])
    ensures forall a, b | RanksBefore(a, b) && RanksBefore(b, a) ::
              Ranked([a, b], RanksBefore) == [b, a] && Ranked([b, a], RanksBefore) == [a, b]
    ensures var a, b := Range("text", "*", high), Range("text", "html", low);
            RanksBefore(a, b) && RanksBefore(b, a)
    ensures var any, text := Range("*", "*", high), Range("text", "*", low);
            RanksBefore(any, text) && RanksBefore(text, any)
  {
    var any, json := Range("*", "*", high), Range("application", "json", low);
    RankTwo(any, json, RanksBefore);
    assert [json, any][0].q < [json, any][1].q;
    forall a, b | RanksBefore(a, b) && RanksBefore(b, a)
      ensures Ranked([a, b], RanksBefore) == [b, a] && Ranked([b, a], RanksBefore) == [a, b]
    {
      RankTwo(a, b, RanksBefore);
      RankTwo(b, a, RanksBefore);
    }
  }

  // ---- the choice --------------------------------------------------------------------

  lemma {:induction false} FirstServedAt(ranges: seq<Range>) returns (at: nat)
    ensures at <= |ranges|
    ensures forall i | 0 <= i < at :: Serialization(ranges[i]).None?
    ensures at < |ranges| ==> Serialization(ranges[at]).Some? && FirstServed(ranges) == Serialization(ranges[at])
    ensures at == |ranges| ==> FirstServed(ranges) == None
  {
    if ranges == [] || Serialization(ranges[0]).Some? {
      at := 0;
    } else {
      at := FirstServedAt(ranges[1..]);
      at := at + 1;
      assert forall i | 1 <= i < at :: ranges[i] == ranges[1..][i - 1];
    }
  }

  lemma InBoth(ranges: seq<Range>, range: Range)
    ensures range in Ranked(ranges, RanksBefore) <==> range in ranges
  {
    RankedIsPermutation(ranges, RanksBefore);
    assert range in multiset(ranges) <==> range in ranges;
    assert range in multiset(Ranked(ranges, RanksBefore)) <==> range in Ranked(ranges, RanksBefore);
  }

  lemma ServedIffTaken(ranges: seq<Range>, served: Served)
    ensures FirstServed(Ranked(ranges, RanksBefore)) == Some(served) ==>
            exists range | range in ranges :: Takes(range, served)
    ensures FirstServed(Ranked(ranges, RanksBefore)) == None ==> !exists range | range in ranges :: Takes(range, served)
  {
    var ranked := Ranked(ranges, RanksBefore);
    var at := FirstServedAt(ranked);
    if at < |ranked| {
      InBoth(ranges, ranked[at]);
    } else {
      forall range | range in ranges ensures !Takes(range, served) {
        InBoth(ranges, range);
        var i :| 0 <= i < |ranked| && ranked[i] == range;
        assert Serialization(ranked[i]).None?;
      }
    }
  }

  /** Every header: there is an answer exactly when some serialization is admitted, and the
      answer is one of those. */
  lemma NegotiatesIffAdmitted(accept: string, read: Weights)
    ensures Negotiate(accept, read).Some? <==> exists served :: Admits(accept, served, read)
    ensures Negotiate(accept, read).Some? ==> Admits(accept, Negotiate(accept, read).value, read)
  {
    var ranges := Ranges(accept, read);
    forall served
      ensures Negotiate(accept, read) == Some(served) ==> Admits(accept, served, read)
      ensures Negotiate(accept, read) == None ==> !Admits(accept, served, read)
    {
      ServedIffTaken(ranges, served);
    }
  }

  /** When no range ranks before a heavier one, the answer is that of a heaviest range among
      those that take anything. */
  lemma HeaviestWins(ranges: seq<Range>) returns (chosen: Range)
    requires Consistent(ranges) && exists range :: range in ranges && Serialization(range).Some?
    ensures chosen in ranges && Serialization(chosen).Some?
    ensures FirstServed(Ranked(ranges, RanksBefore)) == Serialization(chosen)
    ensures forall range | range in ranges && Serialization(range).Some? :: range.q <= chosen.q
  {
    var ranked := Ranked(ranges, RanksBefore);
    ConsistentDescends(ranges);
    var at := FirstServedAt(ranked);
    var some :| some in ranges && Serialization(some).Some?;
    InBoth(ranges, some);
    chosen := ranked[at];
    InBoth(ranges, chosen);
    forall range | range in ranges && Serialization(range).Some? ensures range.q <= chosen.q {
      InBoth(ranges, range);
      var k :| 0 <= k < |ranked| && ranked[k] == range;
      assert at <= k;
      if at < k {
        assert ranked[at].q >= ranked[k].q;
      }
    }
  }

  /** When what ranks before is always heavier, as without wildcards, it is the first such
      range of the header. */
  lemma HeaviestFirstWins(ranges: seq<Range>) returns (chosen: nat)
    requires Strict(ranges) && exists i :: 0 <= i < |ranges| && Serialization(ranges[i]).Some?
    ensures chosen < |ranges| && Serialization(ranges[chosen]).Some?
    ensures FirstServed(Ranked(ranges, RanksBefore)) == Serialization(ranges[chosen])
    ensures forall i | 0 <= i < |ranges| && Serialization(ranges[i]).Some? ::
              if i < chosen then ranges[i].q < ranges[chosen].q else ranges[i].q <= ranges[chosen].q
  {
    var ranked, placed := Ranked(ranges, RanksBefore), Ranked(Placed(ranges), Lift(RanksBefore));
    RankingIsFair(ranges);
    StrictIsStable(ranges);
    var at := FirstServedAt(ranked);
    var some :| 0 <= some < |ranges| && Serialization(ranges[some]).Some?;
    var there := PlacedAt(ranges, some);
    assert Unplaced(placed)[there] == ranges[some];
    assert placed[at] in multiset(placed);
    assert placed[at] in Placed(ranges);
    chosen := placed[at].0;
    assert Unplaced(placed)[at] == ranges[chosen];
    forall i | 0 <= i < |ranges| && Serialization(ranges[i]).Some?
      ensures if i < chosen then ranges[i].q < ranges[chosen].q else ranges[i].q <= ranges[chosen].q
    {
      var k := PlacedAt(ranges, i);
      assert Unplaced(placed)[k] == ranges[i];
      assert at <= k;
      if at < k {
        assert ranked[at].q >= ranked[k].q;
      }
    }
  }

  lemma PlacedAt(ranges: seq<Range>, i: nat) returns (k: nat)
    requires i < |ranges|
    ensures k < |Ranked(Placed(ranges), Lift(RanksBefore))|
            && Ranked(Placed(ranges), Lift(RanksBefore))[k] == (i, ranges[i])
  {
    var placed := Ranked(Placed(ranges), Lift(RanksBefore));
    RankedIsPermutation(Placed(ranges), Lift(RanksBefore));
    assert Placed(ranges)[i] in multiset(Placed(ranges));
    assert (i, ranges[i]) in placed;
    k :| 0 <= k < |placed| && placed[k] == (i, ranges[i]);
  }

  /** Without wildcards: the first written of the heaviest that take anything, or none at all. */
  lemma HeaviestFirstOrNone(ranges: seq<Range>) returns (chosen: nat)
    requires NoWildcard(ranges)
    ensures chosen <= |ranges|
    ensures chosen == |ranges| ==>
              FirstServed(Ranked(ranges, RanksBefore)) == None &&
              forall i | 0 <= i < |ranges| :: Serialization(ranges[i]) == None
    ensures chosen < |ranges| ==>
              && Serialization(ranges[chosen]) != None
              && FirstServed(Ranked(ranges, RanksBefore)) == Serialization(ranges[chosen])
              && forall i | 0 <= i < |ranges| && Serialization(ranges[i]) != None ::
                   if i < chosen then ranges[i].q < ranges[chosen].q else ranges[i].q <= ranges[chosen].q
  {
    if some :| 0 <= some < |ranges| && Serialization(ranges[some]).Some? {
      PlainIsStrict(ranges);
      chosen := HeaviestFirstWins(ranges);
    } else {
      chosen := |ranges|;
      var ranked := Ranked(ranges, RanksBefore);
      var at := FirstServedAt(ranked);
      if at < |ranked| {
        InBoth(ranges, ranked[at]);
      }
    }
  }
}
