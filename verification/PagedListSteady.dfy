/** When a continue series over a changing catalog reads as if from one revision, and a series
    that does not. */
module PagedListSteady {
  import opened JsonValue
  import opened TextOrder
  import opened PagedList
  import opened PagedListLaws
  import opened PagedListChanges
  import opened PagedListReads

  // ---- reads that find the first snapshot ----------------------------------------------------

  /** Each store read of the request finds, past its cursor, what the first snapshot has there. */
  ghost predicate Steady(views: seq<Snapshot>, first: Snapshot, sel: Selector, limit: nat, cursor: Option<Key>,
                         accepted: seq<Item>)
    requires Readable(views) && |accepted| < limit
    decreases |views|, |After(views[0].items, cursor)|
  {
    var run := After(first.items, cursor);
    && After(views[0].items, cursor) == run
    && var store := PageOf(run, limit);
       var got := accepted + FirstMatches(store.items, sel, limit - |accepted|);
       (|got| < limit < |run| ==>
          (AfterNth(views[0].items, cursor, limit);
           Steady(Later(views), first, sel, limit, store.next, got)))
  }

  /** One turn of the loop, on the request's own read and on the first snapshot. */
  lemma SteadyTurn(views: seq<Snapshot>, first: Snapshot, sel: Selector, limit: nat,
                   cursor: Option<Key>, accepted: seq<Item>, snapshot: Option<nat>)
    requires Readable(views) && Ordered(first.items) && |accepted| < limit
    requires After(views[0].items, cursor) == After(first.items, cursor)
             && Pinned(snapshot, views) == Pinned(snapshot, [first])
    ensures var run, revision := After(first.items, cursor), Pinned(snapshot, [first]);
            var store := PageOf(run, limit);
            var got := accepted + FirstMatches(store.items, sel, limit - |accepted|);
            var here, there := Scan(views, sel, limit, cursor, accepted, snapshot),
                Scan([first], sel, limit, cursor, accepted, snapshot);
            if |got| < limit < |run| then
              && here == Scan(Later(views), sel, limit, store.next, got, Some(revision))
              && there == Scan([first], sel, limit, store.next, got, Some(revision))
              && |After(views[0].items, store.next)| < |After(views[0].items, cursor)|
            else here == there
  {
    ScanTurns(views, sel, limit, cursor, accepted, snapshot);
    ScanTurns([first], sel, limit, cursor, accepted, snapshot);
  }

  lemma {:induction false} SteadyScan(views: seq<Snapshot>, first: Snapshot, sel: Selector, limit: nat,
                                      cursor: Option<Key>, accepted: seq<Item>, snapshot: Option<nat>)
    requires Readable(views) && Ordered(first.items) && |accepted| < limit
    requires Steady(views, first, sel, limit, cursor, accepted) && Pinned(snapshot, views) == Pinned(snapshot, [first])
    ensures Scan(views, sel, limit, cursor, accepted, snapshot) == Scan([first], sel, limit, cursor, accepted, snapshot)
    decreases |views|, |After(views[0].items, cursor)|
  {
    var run, revision := After(first.items, cursor), Pinned(snapshot, [first]);
    var store := PageOf(run, limit);
    var got := accepted + FirstMatches(store.items, sel, limit - |accepted|);
    SteadyTurn(views, first, sel, limit, cursor, accepted, snapshot);
    if |got| < limit < |run| {
      SteadyScan(Later(views), first, sel, limit, store.next, got, Some(revision));
    }
  }

  function Take<T>(s: seq<T>, n: nat): seq<T> {
    if n < |s| then s[..n] else s
  }

  lemma TakeGrows<T>(head: T, rest: seq<T>, n: nat)
    ensures Take([head] + rest, n + 1) == [head] + Take(rest, n)
  {
  }

  /** The pages of one snapshot, as many as `n` requests bring. */
  function FirstPages(first: Snapshot, sel: Selector, limit: nat, token: Option<Token>, n: nat): (pages: seq<Page>)
    requires Ordered(first.items) && 0 < limit
  {
    Take(Follow(first, sel, limit, token), n)
  }

  lemma FollowTurn(first: Snapshot, sel: Selector, limit: nat, token: Option<Token>, page: Page)
    requires Ordered(first.items) && 0 < limit && page == Listed([first], sel, limit, token)
    ensures Follow(first, sel, limit, token) == [page] + if page.next.None? then []
            else Follow(first, sel, limit, page.next)
  {
  }

  lemma FirstPagesTurn(first: Snapshot, sel: Selector, limit: nat, token: Option<Token>, n: nat, page: Page)
    requires Ordered(first.items) && 0 < limit && page == Listed([first], sel, limit, token)
    ensures FirstPages(first, sel, limit, token, n + 1) ==
            [page] + if page.next.None? then [] else FirstPages(first, sel, limit, page.next, n)
  {
    var rest := if page.next.None? then [] else Follow(first, sel, limit, page.next);
    FollowTurn(first, sel, limit, token, page);
    TakeGrows(page, rest, n);
  }

  lemma ChasedTurn(requests: seq<seq<Snapshot>>, sel: Selector, limit: nat, token: Option<Token>, page: Page)
    requires AllReadable(requests) && requests != [] && page == Listed(requests[0], sel, limit, token)
    ensures Chased(requests, sel, limit, token) ==
            [page] + if page.next.None? then [] else Chased(requests[1..], sel, limit, page.next)
  {
  }

  ghost predicate SteadySeries(requests: seq<seq<Snapshot>>, first: Snapshot, sel: Selector, limit: nat,
                               token: Option<Token>)
    requires AllReadable(requests) && Ordered(first.items) && 0 < limit
  {
    requests == [] ||
    (&& Steady(requests[0], first, sel, limit, Cursor(token), [])
     && var page := Listed([first], sel, limit, token);
        page.next.Some? ==> SteadySeries(requests[1..], first, sel, limit, page.next))
  }

  /** The series begins at the snapshot: by its token, or by its first read. */
  ghost predicate Begins(requests: seq<seq<Snapshot>>, first: Snapshot, token: Option<Token>)
    requires AllReadable(requests)
  {
    token.None? && requests != [] ==> requests[0][0].revision == first.revision
  }

  /** A series over changing reads returns exactly the pages of its first snapshot whenever
      each read finds, past its cursor, what that snapshot has there. */
  lemma {:induction false} SteadySeriesIsOneRevision(requests: seq<seq<Snapshot>>, first: Snapshot, sel: Selector,
                                                     limit: nat, token: Option<Token>)
    requires AllReadable(requests) && Ordered(first.items) && 0 < limit
    requires Begins(requests, first, token) && SteadySeries(requests, first, sel, limit, token)
    ensures Chased(requests, sel, limit, token) == FirstPages(first, sel, limit, token, |requests|)
  {
    if requests != [] {
      var page := Listed([first], sel, limit, token);
      SteadyScan(requests[0], first, sel, limit, Cursor(token), [], Series(token));
      ChasedTurn(requests, sel, limit, token, page);
      FirstPagesTurn(first, sel, limit, token, |requests| - 1, page);
      if page.next.Some? {
        SteadySeriesIsOneRevision(requests[1..], first, sel, limit, page.next);
      }
    }
  }

  // ---- for every selector, exactly when --------------------------------------------------------

  lemma SameHeads<T>(x: T, a: seq<T>, y: T, b: seq<T>)
    ensures [x] + a == [y] + b <==> x == y && a == b
  {
    if [x] + a == [y] + b {
      assert ([x] + a)[0] == ([y] + b)[0] && ([x] + a)[1..] == a && ([y] + b)[1..] == b;
    }
  }

  /** One request of the two series side by side. */
  lemma TurnIff(requests: seq<seq<Snapshot>>, first: Snapshot, sel: Selector, limit: nat, token: Option<Token>,
                here: Page, there: Page)
    requires AllReadable(requests) && requests != [] && Ordered(first.items) && 0 < limit
    requires here == Listed(requests[0], sel, limit, token) && there == Listed([first], sel, limit, token)
    ensures Chased(requests, sel, limit, token) == FirstPages(first, sel, limit, token, |requests|) <==>
            && here == there
            && (there.next.Some? ==>
                  Chased(requests[1..], sel, limit, there.next) ==
                  FirstPages(first, sel, limit, there.next, |requests| - 1))
  {
    ChasedTurn(requests, sel, limit, token, here);
    FirstPagesTurn(first, sel, limit, token, |requests| - 1, there);
    var later := if here.next.None? then [] else Chased(requests[1..], sel, limit, here.next);
    var laters := if there.next.None? then [] else FirstPages(first, sel, limit, there.next, |requests| - 1);
    SameHeads(here, later, there, laters);
  }

  /** The reads of every request the series makes agree with the snapshot. */
  ghost predicate AgreesThroughout(requests: seq<seq<Snapshot>>, first: Snapshot, sel: Selector, limit: nat,
                                   token: Option<Token>)
    requires AllReadable(requests) && Ordered(first.items) && 0 < limit
  {
    requests == [] ||
    (&& Agrees(requests[0], first, sel, limit, Cursor(token))
     && var page := Listed([first], sel, limit, token);
        page.next.Some? ==> AgreesThroughout(requests[1..], first, sel, limit, page.next))
  }

  lemma AgreesTurn(requests: seq<seq<Snapshot>>, first: Snapshot, sel: Selector, limit: nat, token: Option<Token>,
                   there: Page)
    requires AllReadable(requests) && requests != [] && Ordered(first.items) && 0 < limit
    requires there == Listed([first], sel, limit, token)
    ensures AgreesThroughout(requests, first, sel, limit, token) <==>
            && Agrees(requests[0], first, sel, limit, Cursor(token))
            && (there.next.Some? ==> AgreesThroughout(requests[1..], first, sel, limit, there.next))
  {
  }

  lemma AnswersTurn(requests: seq<seq<Snapshot>>, first: Snapshot, sel: Selector, limit: nat, token: Option<Token>,
                    there: Page)
    requires AllReadable(requests) && requests != [] && Ordered(first.items) && 0 < limit
    requires there == Listed([first], sel, limit, token)
    ensures Chased(requests, sel, limit, token) == FirstPages(first, sel, limit, token, |requests|) <==>
            && Begins(requests, first, token) && Agrees(requests[0], first, sel, limit, Cursor(token))
            && (there.next.Some? ==>
                  Chased(requests[1..], sel, limit, there.next) ==
                  FirstPages(first, sel, limit, there.next, |requests| - 1))
  {
    TurnIff(requests, first, sel, limit, token, Listed(requests[0], sel, limit, token), there);
    SameAnswerIff(requests[0], first, sel, limit, token);
  }

  lemma {:induction false} AnswersIffAgrees(requests: seq<seq<Snapshot>>, first: Snapshot, sel: Selector, limit: nat,
                                            token: Option<Token>)
    requires AllReadable(requests) && Ordered(first.items) && 0 < limit && Begins(requests, first, token)
    ensures Chased(requests, sel, limit, token) == FirstPages(first, sel, limit, token, |requests|) <==>
            AgreesThroughout(requests, first, sel, limit, token)
  {
    if requests != [] {
      var there := Listed([first], sel, limit, token);
      AnswersTurn(requests, first, sel, limit, token, there);
      AgreesTurn(requests, first, sel, limit, token, there);
      if there.next.Some? {
        AnswersIffAgrees(requests[1..], first, sel, limit, there.next);
      }
    }
  }

  /** For every selector, a series over changing reads returns the pages of a snapshot if and only
      if it begins at its revision and, request by request, the store pages read hold the matches
      the snapshot has past the token, with as many items past the last of them when they fill. */
  lemma OneRevisionIff(requests: seq<seq<Snapshot>>, first: Snapshot, sel: Selector, limit: nat, token: Option<Token>)
    requires AllReadable(requests) && Ordered(first.items) && 0 < limit
    ensures Chased(requests, sel, limit, token) == FirstPages(first, sel, limit, token, |requests|) <==>
            Begins(requests, first, token) && AgreesThroughout(requests, first, sel, limit, token)
  {
    if Begins(requests, first, token) {
      AnswersIffAgrees(requests, first, sel, limit, token);
    } else {
      AnswersTurn(requests, first, sel, limit, token, Listed([first], sel, limit, token));
    }
  }

  // ---- without a selector, exactly when --------------------------------------------------------

  function EmitAll(items: seq<Item>): seq<Item> {
    seq(|items|, i requires 0 <= i < |items| => Emit(items[i]))
  }

  lemma {:induction false} EveryItemIsTaken(items: seq<Item>, sel: Selector, room: nat)
    requires (forall v :: sel(v)) && |items| <= room
    ensures FirstMatches(items, sel, room) == EmitAll(items)
  {
    if items != [] {
      EveryItemIsTaken(items[1..], sel, room - 1);
      assert EmitAll(items) == [Emit(items[0])] + EmitAll(items[1..]);
    }
  }

  /** The read finds as many items past the cursor as the snapshot has, and the same page of them. */
  ghost predicate Alike(view: Snapshot, first: Snapshot, cursor: Option<Key>, limit: nat) {
    var here, there := After(view.items, cursor), After(first.items, cursor);
    |here| == |there| && EmitAll(PageOf(here, limit).items) == EmitAll(PageOf(there, limit).items)
  }

  function PageFrom(run: seq<Item>, revision: nat, limit: nat): Page {
    Closed(EmitAll(PageOf(run, limit).items), revision, limit, PageOf(run, limit).remaining)
  }

  lemma UnselectedTurn(run: seq<Item>, sel: Selector, limit: nat)
    requires 0 < limit && forall v :: sel(v)
    ensures var store := PageOf(run, limit);
            var got := [] + FirstMatches(store.items, sel, limit);
            got == EmitAll(store.items) && (|got| == limit || |run| <= limit)
  {
    var store := PageOf(run, limit);
    EveryItemIsTaken(store.items, sel, limit);
    assert [] + FirstMatches(store.items, sel, limit) == FirstMatches(store.items, sel, limit);
  }

  lemma UnselectedScan(views: seq<Snapshot>, sel: Selector, limit: nat, cursor: Option<Key>, series: Option<nat>)
    requires Readable(views) && 0 < limit && forall v :: sel(v)
    ensures Scan(views, sel, limit, cursor, [], series) ==
            PageFrom(After(views[0].items, cursor), Pinned(series, views), limit)
  {
    UnselectedTurn(After(views[0].items, cursor), sel, limit);
    ScanCloses(views, sel, limit, cursor, [], series);
  }

  /** Without a selector a request reads one store page. */
  lemma UnselectedPage(views: seq<Snapshot>, sel: Selector, limit: nat, token: Option<Token>)
    requires Readable(views) && 0 < limit && forall v :: sel(v)
    ensures Listed(views, sel, limit, token) ==
            PageFrom(After(views[0].items, Cursor(token)), Pinned(Series(token), views), limit)
  {
    UnselectedScan(views, sel, limit, Cursor(token), Series(token));
  }

  lemma PageFromIff(here: seq<Item>, there: seq<Item>, revision: nat, limit: nat)
    requires 0 < limit
    ensures PageFrom(here, revision, limit) == PageFrom(there, revision, limit) <==>
            |here| == |there| && EmitAll(PageOf(here, limit).items) == EmitAll(PageOf(there, limit).items)
  {
  }

  lemma UnselectedPageIff(views: seq<Snapshot>, first: Snapshot, sel: Selector, limit: nat, token: Option<Token>)
    requires Readable(views) && Ordered(first.items) && 0 < limit && forall v :: sel(v)
    requires Pinned(Series(token), views) == Pinned(Series(token), [first])
    ensures Listed(views, sel, limit, token) == Listed([first], sel, limit, token) <==>
            Alike(views[0], first, Cursor(token), limit)
  {
    UnselectedPage(views, sel, limit, token);
    UnselectedPage([first], sel, limit, token);
    PageFromIff(After(views[0].items, Cursor(token)), After(first.items, Cursor(token)), Pinned(Series(token), views),
        limit);
  }

  ghost predicate AlikeSeries(requests: seq<seq<Snapshot>>, first: Snapshot, sel: Selector, limit: nat,
                              token: Option<Token>)
    requires AllReadable(requests) && Ordered(first.items) && 0 < limit
  {
    requests == [] ||
    (&& Alike(requests[0][0], first, Cursor(token), limit)
     && var page := Listed([first], sel, limit, token);
        page.next.Some? ==> AlikeSeries(requests[1..], first, sel, limit, page.next))
  }

  lemma {:induction false} AgreesIffAlike(requests: seq<seq<Snapshot>>, first: Snapshot, sel: Selector, limit: nat,
                                          token: Option<Token>)
    requires AllReadable(requests) && Ordered(first.items) && 0 < limit && forall v :: sel(v)
    requires Begins(requests, first, token)
    ensures AgreesThroughout(requests, first, sel, limit, token) <==> AlikeSeries(requests, first, sel, limit, token)
  {
    if requests != [] {
      var page := Listed([first], sel, limit, token);
      UnselectedPageIff(requests[0], first, sel, limit, token);
      SameAnswerIff(requests[0], first, sel, limit, token);
      if page.next.Some? {
        AgreesIffAlike(requests[1..], first, sel, limit, page.next);
      }
    }
  }

  /** Without a selector that is: each request finds as many items past its token as the snapshot
      has, and the same page of them. */
  lemma OneRevisionIffAlike(requests: seq<seq<Snapshot>>, first: Snapshot, sel: Selector, limit: nat,
                            token: Option<Token>)
    requires AllReadable(requests) && Ordered(first.items) && 0 < limit && forall v :: sel(v)
    ensures Chased(requests, sel, limit, token) == FirstPages(first, sel, limit, token, |requests|) <==>
            Begins(requests, first, token) && AlikeSeries(requests, first, sel, limit, token)
  {
    OneRevisionIff(requests, first, sel, limit, token);
    if Begins(requests, first, token) {
      AgreesIffAlike(requests, first, sel, limit, token);
    }
  }

  lemma PageFromTwo(x: Item, y: Item, revision: nat)
    ensures PageFrom([x, y], revision, 1) == Page([Emit(x)], revision, Some(Token(revision, x.key)), Some(1))
    ensures PageFrom([y], revision, 1) == Page([Emit(y)], revision, None, None)
  {
    assert PageOf([x, y], 1).items == [x] && EmitAll([x]) == [Emit(x)] && EmitAll([y]) == [Emit(y)];
  }

  lemma AfterFirst(view: Snapshot, x: Item, y: Item)
    requires view.items == [x, y] && Ordered(view.items)
    ensures After(view.items, None) == [x, y] && After(view.items, Some(x.key)) == [y]
  {
    StartAfter(view.items, 0);
  }

  /** Of two items, one at a time: the first and what is left, and, after it, the second. */
  lemma PageOfTwo(view: Snapshot, x: Item, y: Item, sel: Selector, token: Option<Token>)
    requires view.items == [x, y] && Ordered(view.items) && (token.Some? ==> token.value.lastKey == x.key)
             && forall v :: sel(v)
    ensures var revision := Pinned(Series(token), [view]);
            Listed([view], sel, 1, token) ==
            if token.None? then Page([Emit(x)], revision, Some(Token(revision, x.key)), Some(1))
                else Page([Emit(y)], revision, None, None)
  {
    AfterFirst(view, x, y);
    UnselectedPage([view], sel, 1, token);
    PageFromTwo(x, y, Pinned(Series(token), [view]));
  }

  lemma TwoTurns(before: seq<Snapshot>, after: seq<Snapshot>, sel: Selector, limit: nat, p: Page, q: Page)
    requires Readable(before) && Readable(after)
    requires p == Listed(before, sel, limit, None) && p.next.Some?
    requires q == Listed(after, sel, limit, p.next) && q.next.None?
    ensures Chased([before, after], sel, limit, None) == [p, q]
  {
    var requests := [before, after];
    ChasedTurn(requests, sel, limit, None, p);
    assert requests[1..] == [after];
    ChasedTurn([after], sel, limit, p.next, q);
  }

  /** One at a time over `a` and `b`, with `b` replaced by `c` between the requests: the second
      page is `c`, labelled with the revision at which nothing stood under its key. */
  lemma SecondPageIsNewer(before: Snapshot, after: Snapshot, a: Item, b: Item, c: Item, sel: Selector)
    requires before.items == [a, b] && Ordered(before.items) && after.items == [a, c] && Ordered(after.items)
    requires b.key != c.key && forall v :: sel(v)
    ensures Chased([[before], [after]], sel, 1, None) ==
            [Page([Emit(a)], before.revision, Some(Token(before.revision, a.key)), Some(1)),
                Page([Emit(c)], before.revision, None, None)]
    ensures forall i | 0 <= i < |before.items| :: before.items[i].key != c.key
  {
    var token := Token(before.revision, a.key);
    var p, q := Page([Emit(a)], before.revision, Some(token), Some(1)), Page([Emit(c)], before.revision, None, None);
    PageOfTwo(before, a, b, sel, None);
    PageOfTwo(after, a, c, sel, Some(token));
    TwoTurns([before], [after], sel, 1, p, q);
    KeyLessAsymmetric(after.items[0].key, after.items[1].key);
  }
}
