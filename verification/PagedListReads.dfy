/** What the store reads of one request find, whatever the selector, and when they answer it as
    one snapshot would. */
module PagedListReads {
  import opened JsonValue
  import opened TextOrder
  import opened PagedList
  import opened PagedListLaws

  /** Store pages put together, and how many items stood past the last of them. */
  datatype Found = Found(items: seq<Item>, past: nat)

  /** The store pages a request reads until it has `limit` matches or the store ends. */
  function Reads(views: seq<Snapshot>, sel: Selector, limit: nat, cursor: Option<Key>, accepted: seq<Item>)
    : (found: Found)
    requires Readable(views) && |accepted| < limit
    decreases |views|, |After(views[0].items, cursor)|
  {
    var store := PageOf(After(views[0].items, cursor), limit);
    var got := accepted + FirstMatches(store.items, sel, limit - |accepted|);
    if |got| == limit || store.next.None? then Found(store.items, store.remaining)
    else
      AfterNth(views[0].items, cursor, limit);
      Onto(store.items, Reads(Later(views), sel, limit, store.next, got))
  }

  function Onto(page: seq<Item>, later: Found): Found {
    Found(page + later.items, later.past)
  }

  /** The page made of what a request has and what it finds. */
  function Made(accepted: seq<Item>, found: Found, sel: Selector, limit: nat, revision: nat): Page
    requires |accepted| < limit
  {
    Closed(accepted + FirstMatches(found.items, sel, limit - |accepted|), revision, limit, found.past)
  }

  /** The loop's last turn, and any other, which goes on to the next read. */
  lemma ReadsTurns(views: seq<Snapshot>, sel: Selector, limit: nat, cursor: Option<Key>, accepted: seq<Item>)
    requires Readable(views) && |accepted| < limit
    ensures var run := After(views[0].items, cursor);
            var store := PageOf(run, limit);
            var got := accepted + FirstMatches(store.items, sel, limit - |accepted|);
            Reads(views, sel, limit, cursor, accepted) ==
            if |got| == limit || |run| <= limit then Found(store.items, store.remaining)
            else Onto(store.items, Reads(if |views| == 1 then views else views[1..], sel, limit, store.next, got))
  {
  }

  /** What a store page brings and what later ones bring, taken one after the other or at once. */
  lemma Regroup(accepted: seq<Item>, items: seq<Item>, later: Found, sel: Selector, limit: nat, revision: nat)
    requires |accepted| < limit && !Fills(items, sel, limit - |accepted|)
    ensures Made(accepted + FirstMatches(items, sel, limit - |accepted|), later, sel, limit, revision) ==
            Made(accepted, Onto(items, later), sel, limit, revision)
  {
    var room := limit - |accepted|;
    var first := FirstMatches(items, sel, room);
    FillSplits(items, later.items, sel, room);
    OneMore(accepted, first, FirstMatches(later.items, sel, room - |first|));
  }

  /** One turn, from the page that the turns after it make and what they find. */
  lemma TurnReads(run: seq<Item>, sel: Selector, limit: nat, accepted: seq<Item>, revision: nat, turn: Page,
                  page: Page, here: Found, later: Found)
    requires |accepted| < limit
    requires var store := PageOf(run, limit);
             var got := accepted + FirstMatches(store.items, sel, limit - |accepted|);
             && turn == (if |got| == limit || |run| <= limit then Closed(got, revision, limit, store.remaining)
                else page)
             && here == (if |got| == limit || |run| <= limit then Found(store.items, store.remaining)
                else Onto(store.items, later))
             && (|got| < limit < |run| ==> page == Made(got, later, sel, limit, revision))
    ensures turn == Made(accepted, here, sel, limit, revision)
  {
    var store := PageOf(run, limit);
    if |accepted + FirstMatches(store.items, sel, limit - |accepted|)| < limit < |run| {
      Regroup(accepted, store.items, later, sel, limit, revision);
    }
  }

  /** Over changing reads, a request answers by the matches of the store pages it read. */
  lemma {:induction false} ScanReads(views: seq<Snapshot>, sel: Selector, limit: nat, cursor: Option<Key>,
                                     accepted: seq<Item>, snapshot: Option<nat>)
    requires Readable(views) && |accepted| < limit
    ensures Scan(views, sel, limit, cursor, accepted, snapshot) ==
            Made(accepted, Reads(views, sel, limit, cursor, accepted), sel, limit, Pinned(snapshot, views))
    decreases |views|, |After(views[0].items, cursor)|
  {
    var run, revision := After(views[0].items, cursor), Pinned(snapshot, views);
    var store := PageOf(run, limit);
    var got := accepted + FirstMatches(store.items, sel, limit - |accepted|);
    var turn, here := Scan(views, sel, limit, cursor, accepted, snapshot), Reads(views, sel, limit, cursor, accepted);
    ScanTurns(views, sel, limit, cursor, accepted, snapshot);
    ReadsTurns(views, sel, limit, cursor, accepted);
    if |got| < limit < |run| {
      ScanReads(Later(views), sel, limit, store.next, got, Some(revision));
      TurnReads(run, sel, limit, accepted, revision, turn,
          Scan(Later(views), sel, limit, store.next, got, Some(revision)), here,
          Reads(Later(views), sel, limit, store.next, got));
    } else {
      TurnReads(run, sel, limit, accepted, revision, turn, turn, here, here);
    }
  }

  lemma ReadsAnswer(views: seq<Snapshot>, sel: Selector, limit: nat, token: Option<Token>)
    requires Readable(views) && 0 < limit
    ensures var found := Reads(views, sel, limit, Cursor(token), []);
            Listed(views, sel, limit, token) ==
            Closed(FirstMatches(found.items, sel, limit), Pinned(Series(token), views), limit, found.past)
  {
    var first := FirstMatches(Reads(views, sel, limit, Cursor(token), []).items, sel, limit);
    ScanReads(views, sel, limit, Cursor(token), [], Series(token));
    assert [] + first == first;
  }

  // ---- one snapshot -------------------------------------------------------------------------

  /** The items past the store page in which the run fills. */
  function PastFill(run: seq<Item>, sel: Selector, limit: nat): nat
    requires 0 < limit
  {
    var end := PageEnd(FillPoint(run, sel, limit), limit);
    if end < |run| then |run| - end else 0
  }

  lemma AnsweredCloses(page: Page, run: seq<Item>, items: seq<Item>, n: nat, fills: bool, limit: nat, past: nat)
    requires 0 < limit && n <= |run| && Answered(page, items, n, fills, run, limit)
    requires past == if PageEnd(n, limit) < |run| then |run| - PageEnd(n, limit) else 0
    requires fills <==> |items| == limit
    requires fills ==> 0 < n && items[limit - 1].key == run[n - 1].key
    ensures page == Closed(items, page.revision, limit, past)
  {
  }

  lemma AnswersClose(page: Page, run: seq<Item>, sel: Selector, limit: nat)
    requires 0 < limit && Answers(page, run, sel, limit, [])
    ensures page == Closed(FirstMatches(run, sel, limit), page.revision, limit, PastFill(run, sel, limit))
  {
    var first, n := FirstMatches(run, sel, limit), FillPoint(run, sel, limit);
    FillPointMatches(run, sel, limit);
    assert [] + first == first;
    AnsweredCloses(page, run, first, n, Fills(run, sel, limit), limit, PastFill(run, sel, limit));
  }

  /** A snapshot answers by the first matches past the token and the items past the store page
      in which they fill. */
  lemma StillCloses(still: Snapshot, sel: Selector, limit: nat, token: Option<Token>)
    requires Ordered(still.items) && 0 < limit
    ensures var run := After(still.items, Cursor(token));
            Listed([still], sel, limit, token) ==
            Closed(FirstMatches(run, sel, limit), Pinned(Series(token), [still]), limit, PastFill(run, sel, limit))
  {
    ScanAnswers(still, sel, limit, Cursor(token), [], Series(token));
    AnswersClose(Scan([still], sel, limit, Cursor(token), [], Series(token)), After(still.items, Cursor(token)), sel,
        limit);
  }

  // ---- both -----------------------------------------------------------------------------------

  lemma ClosedIff(a: seq<Item>, b: seq<Item>, q: nat, r: nat, limit: nat, s: nat, t: nat)
    requires 0 < limit
    ensures Closed(a, q, limit, s) == Closed(b, r, limit, t) <==> a == b && q == r && (|b| == limit ==> s == t)
  {
  }

  /** The first `limit` matches in the store pages the request reads are those the snapshot has
      past the token; and, when these fill the page, as many items stand past the last page read
      as past the one in which the snapshot fills it. */
  ghost predicate Agrees(views: seq<Snapshot>, first: Snapshot, sel: Selector, limit: nat, cursor: Option<Key>)
    requires Readable(views) && 0 < limit
  {
    var found, run := Reads(views, sel, limit, cursor, []), After(first.items, cursor);
    && FirstMatches(found.items, sel, limit) == FirstMatches(run, sel, limit)
    && (Fills(run, sel, limit) ==> found.past == PastFill(run, sel, limit))
  }

  /** For every selector, a request over changing reads is answered as the snapshot would answer
      it if and only if what it reads agrees with the snapshot, at the revision of the series. */
  lemma SameAnswerIff(views: seq<Snapshot>, first: Snapshot, sel: Selector, limit: nat, token: Option<Token>)
    requires Readable(views) && Ordered(first.items) && 0 < limit
    ensures Listed(views, sel, limit, token) == Listed([first], sel, limit, token) <==>
            && Pinned(Series(token), views) == Pinned(Series(token), [first])
            && Agrees(views, first, sel, limit, Cursor(token))
  {
    var found, run := Reads(views, sel, limit, Cursor(token), []), After(first.items, Cursor(token));
    ReadsAnswer(views, sel, limit, token);
    StillCloses(first, sel, limit, token);
    ClosedIff(FirstMatches(found.items, sel, limit), FirstMatches(run, sel, limit), Pinned(Series(token), views),
        Pinned(Series(token), [first]), limit, found.past, PastFill(run, sel, limit));
  }
}
