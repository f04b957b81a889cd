/** What a whole continue series returns against a catalog that stands still. */
module PagedListLaws {
  import opened JsonValue
  import opened TextOrder
  import opened PagedList

  // ---- one request over a still catalog ------------------------------------------------

  /** The end of the store page that holds position `n`, pages starting at 0. */
  function PageEnd(n: nat, limit: nat): (end: nat)
    requires 0 < limit
    ensures n <= end && limit <= end
  {
    if n <= limit then limit else limit + PageEnd(n - limit, limit)
  }

  predicate Fills(run: seq<Item>, sel: Selector, room: nat) {
    |FirstMatches(run, sel, room)| == room
  }

  /** A run that fills ends on a match, one that does not is scanned whole. */
  lemma {:induction false} FillPointMatches(items: seq<Item>, sel: Selector, room: nat)
    ensures !Fills(items, sel, room) ==> FillPoint(items, sel, room) == |items|
    ensures Fills(items, sel, room) && 0 < room ==>
              && 0 < FillPoint(items, sel, room)
              && FirstMatches(items, sel, room)[room - 1] == Emit(items[FillPoint(items, sel, room) - 1])
  {
    if items != [] && room != 0 {
      FillPointMatches(items[1..], sel, if sel(items[0].value) then room - 1 else room);
    }
  }

  /** What the matches up to the fill point leave behind. */
  lemma {:induction false} FirstThenRest(items: seq<Item>, sel: Selector, room: nat)
    ensures Filtered(items, sel) == FirstMatches(items, sel, room) + Filtered(items[FillPoint(items, sel, room)..], sel)
  {
    if items != [] && room != 0 {
      var tail, head := items[1..], Match(items[0], sel);
      var left := room - |head|;
      var n := FillPoint(tail, sel, left);
      FirstThenRest(tail, sel, left);
      assert items[n + 1..] == tail[n..];
      OneMore(head, FirstMatches(tail, sel, left), Filtered(tail[n..], sel));
      assert FirstMatches(items, sel, room) == head + FirstMatches(tail, sel, left);
    } else {
      assert items[0..] == items;
    }
  }

  lemma OneMore(head: seq<Item>, first: seq<Item>, rest: seq<Item>)
    ensures head + (first + rest) == head + first + rest
  {
  }

  /** Where a run fills does not depend on what follows, and a first part that does not
      fill is scanned whole. */
  lemma {:induction false} FillSplits(a: seq<Item>, b: seq<Item>, sel: Selector, room: nat)
    ensures FirstMatches(a + b, sel, room) ==
            FirstMatches(a, sel, room) + FirstMatches(b, sel, room - |FirstMatches(a, sel, room)|)
    ensures FillPoint(a + b, sel, room) ==
            if Fills(a, sel, room) then FillPoint(a, sel, room)
            else |a| + FillPoint(b, sel, room - |FirstMatches(a, sel, room)|)
  {
    if a == [] {
      assert a + b == b;
    } else if room != 0 {
      assert (a + b)[0] == a[0] && (a + b)[1..] == a[1..] + b;
      var head, rest := Match(a[0], sel), room - |Match(a[0], sel)|;
      FillSplits(a[1..], b, sel, rest);
      var first := FirstMatches(a[1..], sel, rest);
      OneMore(head, first, FirstMatches(b, sel, rest - |first|));
      assert FirstMatches(a, sel, room) == head + first;
    }
  }

  /** The page holds these items, and goes on exactly when they filled it within the first `n`
      items of the run and the store page that holds the last of those was not the last. */
  predicate Answered(page: Page, items: seq<Item>, n: nat, fills: bool, run: seq<Item>, limit: nat)
    requires 0 < limit && n <= |run|
  {
    && page.items == items
    && (page.next.Some? <==> fills && PageEnd(n, limit) < |run|)
    && (page.next.Some? ==>
          && 0 < n && page.next.value == Token(page.revision, run[n - 1].key)
          && page.remaining == Some(|run| - PageEnd(n, limit)))
    && (page.next.None? ==> page.remaining == None)
  }

  /** One request against a catalog that stands still: the page is the first matches of the
      run, and the series goes on exactly when they filled it and the store page in which
      they did was not the last. */
  ghost predicate Answers(page: Page, run: seq<Item>, sel: Selector, limit: nat, accepted: seq<Item>)
    requires |accepted| < limit
  {
    var room := limit - |accepted|;
    Answered(page, accepted + FirstMatches(run, sel, room), FillPoint(run, sel, room), Fills(run, sel, room), run,
        limit)
  }

  lemma FullAnswered(page: seq<Item>, rest: seq<Item>, items: seq<Item>, n: nat, revision: nat, limit: nat)
    requires |page| <= limit && (rest != [] ==> |page| == limit) && 0 < n <= |page|
    requires |items| == limit && items[limit - 1].key == page[n - 1].key
    ensures Answered(Closed(items, revision, limit, |rest|), items, n, true, page + rest, limit)
  {
    assert (page + rest)[n - 1] == page[n - 1];
  }

  lemma NextAnswered(answer: Page, page: seq<Item>, rest: seq<Item>, items: seq<Item>, n: nat, fills: bool, limit: nat)
    requires 0 < limit == |page| && n <= |rest| && (fills ==> 0 < n) && Answered(answer, items, n, fills, rest, limit)
    ensures Answered(answer, items, limit + n, fills, page + rest, limit)
  {
    if 0 < n {
      assert PageEnd(limit + n, limit) == limit + PageEnd(n, limit);
      assert (page + rest)[limit + n - 1] == rest[n - 1];
    }
  }

  lemma FullPageAnswers(page: seq<Item>, rest: seq<Item>, sel: Selector, limit: nat, accepted: seq<Item>, revision: nat)
    requires |accepted| < limit && Fills(page, sel, limit - |accepted|) && |page| <= limit
    requires rest != [] ==> |page| == limit
    ensures Answers(Closed(accepted + FirstMatches(page, sel, limit - |accepted|), revision, limit, |rest|),
                    page + rest, sel, limit, accepted)
  {
    var room := limit - |accepted|;
    var first, n := FirstMatches(page, sel, room), FillPoint(page, sel, room);
    FillPointMatches(page, sel, room);
    FullAnswered(page, rest, accepted + first, n, revision, limit);
    FullSplits(page, rest, sel, room);
  }

  /** A run whose first part fills: the rest adds nothing. */
  lemma FullSplits(a: seq<Item>, b: seq<Item>, sel: Selector, room: nat)
    requires Fills(a, sel, room)
    ensures FirstMatches(a + b, sel, room) == FirstMatches(a, sel, room) && Fills(a + b, sel, room)
    ensures FillPoint(a + b, sel, room) == FillPoint(a, sel, room)
  {
    FillSplits(a, b, sel, room);
    assert FirstMatches(a, sel, room) + FirstMatches(b, sel, 0) == FirstMatches(a, sel, room);
  }

  lemma NextPageAnswers(page: seq<Item>, rest: seq<Item>, sel: Selector, limit: nat, accepted: seq<Item>, answer: Page)
    requires |accepted| < limit && !Fills(page, sel, limit - |accepted|) && |page| == limit
    requires Answers(answer, rest, sel, limit, accepted + FirstMatches(page, sel, limit - |accepted|))
    ensures Answers(answer, page + rest, sel, limit, accepted)
  {
    var room := limit - |accepted|;
    var first := FirstMatches(page, sel, room);
    var left := room - |first|;
    var second, n := FirstMatches(rest, sel, left), FillPoint(rest, sel, left);
    FillPointMatches(rest, sel, left);
    OneMore(accepted, first, second);
    NextAnswered(answer, page, rest, accepted + first + second, n, Fills(rest, sel, left), limit);
    FillSplits(page, rest, sel, room);
  }

  lemma LastPageAnswers(page: seq<Item>, sel: Selector, limit: nat, accepted: seq<Item>, revision: nat)
    requires |accepted| < limit && !Fills(page, sel, limit - |accepted|)
    ensures Answers(Closed(accepted + FirstMatches(page, sel, limit - |accepted|), revision, limit, 0), page, sel,
            limit, accepted)
  {
  }

  lemma TurnAnswers(run: seq<Item>, sel: Selector, limit: nat, accepted: seq<Item>, revision: nat, turn: Page,
                    later: Page)
    requires |accepted| < limit
    requires var store := PageOf(run, limit);
             var got := accepted + FirstMatches(store.items, sel, limit - |accepted|);
             && turn == (if |got| == limit || |run| <= limit then Closed(got, revision, limit, store.remaining)
                else later)
             && (|got| < limit < |run| ==> Answers(later, run[limit..], sel, limit, got))
    ensures Answers(turn, run, sel, limit, accepted)
  {
    var page, rest := PageOf(run, limit).items, run[|PageOf(run, limit).items|..];
    assert run == page + rest;
    if Fills(page, sel, limit - |accepted|) {
      FullPageAnswers(page, rest, sel, limit, accepted, revision);
    } else if |run| > limit {
      NextPageAnswers(page, rest, sel, limit, accepted, later);
    } else {
      LastPageAnswers(page, sel, limit, accepted, revision);
    }
  }

  lemma {:induction false} ScanAnswers(still: Snapshot, sel: Selector, limit: nat, cursor: Option<Key>,
                                       accepted: seq<Item>, snapshot: Option<nat>)
    requires Ordered(still.items) && |accepted| < limit
    ensures Answers(Scan([still], sel, limit, cursor, accepted, snapshot), After(still.items, cursor), sel, limit,
            accepted)
    ensures Scan([still], sel, limit, cursor, accepted, snapshot).revision == Pinned(snapshot, [still])
    decreases |After(still.items, cursor)|
  {
    var run, revision := After(still.items, cursor), Pinned(snapshot, [still]);
    var store := PageOf(run, limit);
    var got := accepted + FirstMatches(store.items, sel, limit - |accepted|);
    var turn := Scan([still], sel, limit, cursor, accepted, snapshot);
    ScanTurns([still], sel, limit, cursor, accepted, snapshot);
    if |got| < limit < |run| {
      AfterNth(still.items, cursor, limit);
      ScanAnswers(still, sel, limit, store.next, got, Some(revision));
      TurnAnswers(run, sel, limit, accepted, revision, turn,
          Scan([still], sel, limit, store.next, got, Some(revision)));
    } else {
      TurnAnswers(run, sel, limit, accepted, revision, turn, turn);
    }
  }

  // ---- a whole series over a still catalog ------------------------------------------------

  /** The page is the first matches past the cursor; it goes on exactly when they filled it and
      the store page in which they did was not the last; its token resumes right after them. */
  ghost predicate Resumes(page: Page, still: Snapshot, cursor: Option<Key>, sel: Selector, limit: nat)
    requires 0 < limit
  {
    var run := After(still.items, cursor);
    var n := FillPoint(run, sel, limit);
    && page.items == FirstMatches(run, sel, limit)
    && (page.next.Some? <==> Fills(run, sel, limit) && PageEnd(n, limit) < |run|)
    && (page.next.Some? ==>
          && 0 < n && After(still.items, Cursor(page.next)) == run[n..]
          && page.remaining == Some(|run| - PageEnd(n, limit)))
  }

  /** The token resumes right after the last item the answer stands on. */
  lemma AnsweredResumes(page: Page, items: seq<Item>, n: nat, fills: bool,
                        still: Snapshot, cursor: Option<Key>, limit: nat)
    requires Ordered(still.items) && 0 < limit && n <= |After(still.items, cursor)|
    requires Answered(page, items, n, fills, After(still.items, cursor), limit)
    ensures page.next.Some? ==> After(still.items, Cursor(page.next)) == After(still.items, cursor)[n..]
  {
    if page.next.Some? {
      AfterNth(still.items, cursor, n);
    }
  }

  lemma AnswersResume(page: Page, still: Snapshot, cursor: Option<Key>, sel: Selector, limit: nat)
    requires Ordered(still.items) && 0 < limit && Answers(page, After(still.items, cursor), sel, limit, [])
    ensures Resumes(page, still, cursor, sel, limit)
  {
    var run := After(still.items, cursor);
    var first, n := FirstMatches(run, sel, limit), FillPoint(run, sel, limit);
    assert [] + first == first;
    AnsweredResumes(page, first, n, Fills(run, sel, limit), still, cursor, limit);
  }

  lemma RequestAnswers(still: Snapshot, sel: Selector, limit: nat, token: Option<Token>)
    requires Ordered(still.items) && 0 < limit
    ensures Resumes(Listed([still], sel, limit, token), still, Cursor(token), sel, limit)
  {
    var page := Scan([still], sel, limit, Cursor(token), [], Series(token));
    ScanAnswers(still, sel, limit, Cursor(token), [], Series(token));
    AnswersResume(page, still, Cursor(token), sel, limit);
  }

  /** Following the continue tokens to the end, which there always is. */
  function Follow(still: Snapshot, sel: Selector, limit: nat, token: Option<Token>): (pages: seq<Page>)
    requires Ordered(still.items) && 0 < limit
    decreases |After(still.items, Cursor(token))|
  {
    var page := Listed([still], sel, limit, token);
    RequestAnswers(still, sel, limit, token);
    if page.next.None? then [page] else [page] + Follow(still, sel, limit, page.next)
  }

  /** The matches a series leaves behind: those after the fill point of the first request
      whose page fills within the last store page. */
  function Dropped(run: seq<Item>, sel: Selector, limit: nat): seq<Item>
    requires 0 < limit
    decreases |run|
  {
    var n := FillPoint(run, sel, limit);
    if !Fills(run, sel, limit) then []
    else
      FillPointMatches(run, sel, limit);
      if PageEnd(n, limit) < |run| then Dropped(run[n..], sel, limit) else Filtered(run[n..], sel)
  }

  /** The matches a series returns, request by request. */
  function Served(run: seq<Item>, sel: Selector, limit: nat): seq<Item>
    requires 0 < limit
    decreases |run|
  {
    var n := FillPoint(run, sel, limit);
    FillPointMatches(run, sel, limit);
    FirstMatches(run, sel, limit) +
    if Fills(run, sel, limit) && PageEnd(n, limit) < |run| then Served(run[n..], sel, limit) else []
  }

  lemma {:induction false} SeriesServes(still: Snapshot, sel: Selector, limit: nat, token: Option<Token>)
    requires Ordered(still.items) && 0 < limit
    ensures Emitted(Follow(still, sel, limit, token)) == Served(After(still.items, Cursor(token)), sel, limit)
    decreases |After(still.items, Cursor(token))|
  {
    var page := Listed([still], sel, limit, token);
    RequestAnswers(still, sel, limit, token);
    if page.next.Some? {
      var later := Follow(still, sel, limit, page.next);
      SeriesServes(still, sel, limit, page.next);
      assert Follow(still, sel, limit, token) == [page] + later;
      assert ([page] + later)[1..] == later;
    } else {
      assert Follow(still, sel, limit, token) == [page];
      assert [page][1..] == [];
    }
  }

  /** What a series returns and what it drops are together the filtered list. */
  lemma {:induction false} ServedThenDropped(run: seq<Item>, sel: Selector, limit: nat)
    requires 0 < limit
    ensures Served(run, sel, limit) + Dropped(run, sel, limit) == Filtered(run, sel)
    decreases |run|
  {
    var n := FillPoint(run, sel, limit);
    var first := FirstMatches(run, sel, limit);
    FirstThenRest(run, sel, limit);
    FillPointMatches(run, sel, limit);
    if !Fills(run, sel, limit) {
      assert run[n..] == [];
    } else if PageEnd(n, limit) < |run| {
      ServedThenDropped(run[n..], sel, limit);
      var served, dropped := Served(run[n..], sel, limit), Dropped(run[n..], sel, limit);
      assert first + served + dropped == first + (served + dropped);
    }
  }

  lemma WholeIff<T>(part: seq<T>, rest: seq<T>, whole: seq<T>)
    requires part + rest == whole
    ensures part <= whole && (part == whole <==> rest == [])
  {
    assert |part| + |rest| == |whole|;
    assert whole[..|part|] == part;
    if rest == [] {
      assert part == whole;
    }
  }

  /** From the start or from any token, a series returns the whole filtered rest exactly when
      no match stands behind the fill point in the last store page; always a prefix of it. */
  lemma CompleteIffNothingDropped(still: Snapshot, sel: Selector, limit: nat, token: Option<Token>)
    requires Ordered(still.items) && 0 < limit
    ensures var run := After(still.items, Cursor(token));
            && Emitted(Follow(still, sel, limit, token)) <= Filtered(run, sel)
            && (Emitted(Follow(still, sel, limit, token)) == Filtered(run, sel) <==> Dropped(run, sel, limit) == [])
            && (token.None? ==> run == still.items)
  {
    var run := After(still.items, Cursor(token));
    SeriesServes(still, sel, limit, token);
    ServedThenDropped(run, sel, limit);
    WholeIff(Served(run, sel, limit), Dropped(run, sel, limit), Filtered(run, sel));
  }

  /** With no selector the series is complete, from wherever it resumes, and each page that
      goes on counts exactly what is left. */
  lemma UnselectedSeriesIsComplete(still: Snapshot, sel: Selector, limit: nat, token: Option<Token>)
    requires Ordered(still.items) && 0 < limit && forall v :: sel(v)
    ensures Emitted(Follow(still, sel, limit, token)) == Filtered(After(still.items, Cursor(token)), sel)
    ensures var page := Listed([still], sel, limit, token);
            page.next.Some? ==> page.remaining == Some(|After(still.items, Cursor(page.next))|)
  {
    var run := After(still.items, Cursor(token));
    SeriesServes(still, sel, limit, token);
    ServedThenDropped(run, sel, limit);
    NothingDropped(run, sel, limit);
    RemainingIsExact(still, sel, limit, token);
  }

  lemma ResumesExactly(page: Page, still: Snapshot, cursor: Option<Key>, sel: Selector, limit: nat)
    requires 0 < limit && Resumes(page, still, cursor, sel, limit) && forall v :: sel(v)
    ensures page.next.Some? ==> page.remaining == Some(|After(still.items, Cursor(page.next))|)
  {
    EveryItemMatches(After(still.items, cursor), sel, limit);
  }

  lemma RemainingIsExact(still: Snapshot, sel: Selector, limit: nat, token: Option<Token>)
    requires Ordered(still.items) && 0 < limit && forall v :: sel(v)
    ensures var page := Listed([still], sel, limit, token);
            page.next.Some? ==> page.remaining == Some(|After(still.items, Cursor(page.next))|)
  {
    RequestAnswers(still, sel, limit, token);
    ResumesExactly(Listed([still], sel, limit, token), still, Cursor(token), sel, limit);
  }

  lemma {:induction false} EveryItemMatches(run: seq<Item>, sel: Selector, room: nat)
    requires forall v :: sel(v)
    ensures FillPoint(run, sel, room) == if room <= |run| then room else |run|
  {
    if run != [] && room != 0 {
      EveryItemMatches(run[1..], sel, room - 1);
    }
  }

  lemma {:induction false} NothingDropped(run: seq<Item>, sel: Selector, limit: nat)
    requires 0 < limit && forall v :: sel(v)
    ensures Dropped(run, sel, limit) == []
    decreases |run|
  {
    EveryItemMatches(run, sel, limit);
    if limit < |run| {
      NothingDropped(run[limit..], sel, limit);
    }
  }

  /** A selector with fewer matches left than the page size is served whole. */
  lemma FewMatchesAreComplete(still: Snapshot, sel: Selector, limit: nat, token: Option<Token>)
    requires Ordered(still.items) && |Filtered(After(still.items, Cursor(token)), sel)| < limit
    ensures Emitted(Follow(still, sel, limit, token)) == Filtered(After(still.items, Cursor(token)), sel)
  {
    FirstThenRest(After(still.items, Cursor(token)), sel, limit);
    CompleteIffNothingDropped(still, sel, limit, token);
  }

  /** Asked for without a limit, the list is what a series of any page size returns, if and only
      if that series drops nothing. */
  lemma UnlimitedIsTheSeries(still: Snapshot, sel: Selector, limit: nat, token: Option<Token>)
    requires Ordered(still.items) && 0 < limit
    ensures Listed([still], sel, 0, token).items == Emitted(Follow(still, sel, limit, token)) <==>
            Dropped(After(still.items, Cursor(token)), sel, limit) == []
  {
    CompleteIffNothingDropped(still, sel, limit, token);
  }

  /** Two at a time over a match, a miss and two matches: the last match is never returned. */
  lemma LastMatchIsLost(a: Item, b: Item, c: Item, d: Item, revision: nat, sel: Selector)
    requires Ordered([a, b, c, d]) && sel(a.value) && !sel(b.value) && sel(c.value) && sel(d.value)
    ensures Emitted(Follow(Snapshot([a, b, c, d], revision), sel, 2, None)) == [Emit(a), Emit(c)]
    ensures Filtered([a, b, c, d], sel) == [Emit(a), Emit(c), Emit(d)]
  {
    var run := [a, b, c, d];
    assert run[1..] == [b, c, d] && [b, c, d][1..] == [c, d] && [c, d][1..] == [d] && [d][1..] == [];
    assert FillPoint([d], sel, 0) == 0 && FillPoint([c, d], sel, 1) == 1;
    assert FillPoint([b, c, d], sel, 1) == 2 && FillPoint(run, sel, 2) == 3;
    assert FirstMatches([c, d], sel, 1) == [Emit(c)];
    assert FirstMatches(run, sel, 2) == [Emit(a), Emit(c)];
    assert Filtered([d], sel) == [Emit(d)];
    assert Filtered([c, d], sel) == [Emit(c), Emit(d)];
    assert run[3..] == [d];
    assert PageEnd(3, 2) == 4;
    assert Served(run, sel, 2) == [Emit(a), Emit(c)];
    assert After(run, None) == run;
    SeriesServes(Snapshot(run, revision), sel, 2, None);
  }

  /** One at a time over a match and a miss: the page carries a token and counts one more
      item, and nothing that matches is left. */
  lemma TokenWithNothingLeft(a: Item, b: Item, revision: nat, sel: Selector)
    requires Ordered([a, b]) && sel(a.value) && !sel(b.value)
    ensures var page := Listed([Snapshot([a, b], revision)], sel, 1, None);
            && page.items == [Emit(a)] && page.next.Some? && page.remaining == Some(1)
            && Filtered(After([a, b], Cursor(page.next)), sel) == []
  {
    var run := [a, b];
    assert run[1..] == [b] && [b][1..] == [];
    assert FillPoint([b], sel, 0) == 0 && FillPoint(run, sel, 1) == 1;
    assert FirstMatches([b], sel, 0) == [] && FirstMatches(run, sel, 1) == [Emit(a)];
    assert After(run, None) == run;
    assert Filtered([b], sel) == [];
    RequestAnswers(Snapshot(run, revision), sel, 1, None);
  }

  // ---- what a token and its count promise --------------------------------------------------------

  lemma {:induction false} FilteredJoins(a: seq<Item>, b: seq<Item>, sel: Selector)
    ensures Filtered(a + b, sel) == Filtered(a, sel) + Filtered(b, sel)
  {
    if a == [] {
      assert a + b == b;
    } else {
      assert (a + b)[0] == a[0] && (a + b)[1..] == a[1..] + b;
      FilteredJoins(a[1..], b, sel);
      OneMore(Match(a[0], sel), Filtered(a[1..], sel), Filtered(b, sel));
    }
  }

  predicate NoMatch(items: seq<Item>, sel: Selector) {
    forall i | 0 <= i < |items| :: !sel(items[i].value)
  }

  lemma {:induction false} EmptyIffNoMatch(items: seq<Item>, sel: Selector)
    ensures Filtered(items, sel) == [] <==> NoMatch(items, sel)
  {
    if items != [] {
      EmptyIffNoMatch(items[1..], sel);
      assert forall i | 1 <= i < |items| :: items[i] == items[1..][i - 1];
    }
  }

  lemma TokenIffItemsPast(page: Page, still: Snapshot, cursor: Option<Key>, sel: Selector, limit: nat)
    requires 0 < limit && Resumes(page, still, cursor, sel, limit)
    ensures var run := After(still.items, cursor);
            page.next.Some? <==> PageEnd(FillPoint(run, sel, limit), limit) < |run|
  {
    FillPointMatches(After(still.items, cursor), sel, limit);
  }

  /** A page carries a token just when matches are left, except in two cases: items follow its
      last store page and none left is a match, or none follow it and a match is left inside it. */
  lemma TokenIffMatchesLeft(still: Snapshot, sel: Selector, limit: nat, token: Option<Token>)
    requires Ordered(still.items) && 0 < limit
    ensures var run := After(still.items, Cursor(token));
            var n := FillPoint(run, sel, limit);
            var end := PageEnd(n, limit);
            (Listed([still], sel, limit, token).next.Some? <==> Filtered(run[n..], sel) != []) <==>
            && !(end < |run| && NoMatch(run[n..], sel))
            && !(|run| <= end && !NoMatch(run[n..], sel))
  {
    var run := After(still.items, Cursor(token));
    var n := FillPoint(run, sel, limit);
    RequestAnswers(still, sel, limit, token);
    TokenIffItemsPast(Listed([still], sel, limit, token), still, Cursor(token), sel, limit);
    EmptyIffNoMatch(run[n..], sel);
  }

  /** The count a token comes with is at most the matches left, if and only if the misses past the
      last store page are no more than the matches that page was left with. */
  lemma CountIsLowerBoundIff(still: Snapshot, sel: Selector, limit: nat, token: Option<Token>)
    requires Ordered(still.items) && 0 < limit
    ensures var run, page := After(still.items, Cursor(token)), Listed([still], sel, limit, token);
            var n := FillPoint(run, sel, limit);
            var end := PageEnd(n, limit);
            page.next.Some? ==>
              && end < |run| && page.remaining.Some?
              && (page.remaining.value <= |Filtered(run[n..], sel)| <==>
                  |run[end..]| - |Filtered(run[end..], sel)| <= |Filtered(run[n..end], sel)|)
  {
    var run := After(still.items, Cursor(token));
    var n := FillPoint(run, sel, limit);
    RequestAnswers(still, sel, limit, token);
    if PageEnd(n, limit) < |run| {
      MatchesAdd(run, n, PageEnd(n, limit), sel);
    }
  }

  lemma MatchesAdd(run: seq<Item>, n: nat, end: nat, sel: Selector)
    requires n <= end <= |run|
    ensures |Filtered(run[n..], sel)| == |Filtered(run[n..end], sel)| + |Filtered(run[end..], sel)|
  {
    assert run[n..] == run[n..end] + run[end..];
    FilteredJoins(run[n..end], run[end..], sel);
  }
}
