/** What a continue series keeps while the catalog changes under it, between its requests
    and between the store reads of one request. */
module PagedListChanges {
  import opened JsonValue
  import opened TextOrder
  import opened PagedList

  /** In strictly increasing key order, all of it past `low`. */
  ghost predicate Chain(items: seq<Item>, low: Option<Key>) {
    Ordered(items) && forall i | 0 <= i < |items| :: Beyond(items[i], low)
  }

  /** Every key at or before `high`. */
  predicate Within(item: Item, high: Option<Key>) {
    high.Some? && (item.key == high.value || KeyLess(item.key, high.value))
  }

  ghost predicate UpTo(items: seq<Item>, high: Option<Key>) {
    forall i | 0 <= i < |items| :: Within(items[i], high)
  }

  ghost predicate Advance(low: Option<Key>, high: Option<Key>) {
    low.Some? ==> high.Some? && (low == high || KeyLess(low.value, high.value))
  }

  lemma PastBoth(item: Item, low: Option<Key>, high: Option<Key>)
    requires Advance(low, high) && Beyond(item, high)
    ensures Beyond(item, low)
  {
    if low.Some? && low != high {
      KeyLessTransitive(low.value, high.value, item.key);
    }
  }

  lemma ChainJoins(a: seq<Item>, b: seq<Item>, low: Option<Key>, middle: Option<Key>)
    requires Chain(a, low) && Chain(b, middle) && UpTo(a, middle) && Advance(low, middle)
    ensures Chain(a + b, low)
  {
    var all := a + b;
    forall i, j | 0 <= i < j < |all| ensures KeyLess(all[i].key, all[j].key) {
      if i < |a| <= j {
        assert Beyond(b[j - |a|], middle);
        if a[i].key != middle.value {
          KeyLessTransitive(a[i].key, middle.value, all[j].key);
        }
      }
    }
    forall i | 0 <= i < |all| ensures Beyond(all[i], low) {
      if |a| <= i {
        PastBoth(b[i - |a|], low, middle);
      }
    }
  }

  /** A store page read after the cursor lies past it, and up to its own last key. */
  lemma StorePageChain(items: seq<Item>, cursor: Option<Key>, limit: nat)
    requires Ordered(items) && 0 < limit
    ensures var store := PageOf(After(items, cursor), limit);
            && Chain(store.items, cursor)
            && (store.next.Some? ==> UpTo(store.items, store.next) && Advance(cursor, store.next))
  {
    var run := After(items, cursor);
    forall i | 0 <= i < |run| ensures Beyond(run[i], cursor) {
      if cursor.Some? && 0 < i {
        KeyLessTransitive(cursor.value, run[0].key, run[i].key);
      }
    }
  }

  lemma {:induction false} FirstMatchesChain(items: seq<Item>, sel: Selector, room: nat, low: Option<Key>,
                                             high: Option<Key>)
    requires Chain(items, low)
    ensures Chain(FirstMatches(items, sel, room), low)
    ensures UpTo(items, high) ==> UpTo(FirstMatches(items, sel, room), high)
  {
    if items != [] && room != 0 {
      var head, rest := Some(items[0].key), items[1..];
      assert Chain(rest, head);
      assert Chain(rest, low);
      if sel(items[0].value) {
        FirstMatchesChain(rest, sel, room - 1, head, high);
        assert Chain([Emit(items[0])], low);
        ChainJoins([Emit(items[0])], FirstMatches(rest, sel, room - 1), low, head);
      } else {
        FirstMatchesChain(rest, sel, room, low, high);
      }
    }
  }

  /** What one request keeps: its items run strictly past `low`, there are no more than
      `limit`, and what it hands on is its revision and the key of its last item. */
  ghost predicate Sound(page: Page, low: Option<Key>, limit: nat) {
    && Chain(page.items, low)
    && |page.items| <= limit
    && (page.next.Some? ==>
          && page.items != []
          && page.next.value == Token(page.revision, page.items[|page.items| - 1].key))
  }

  lemma ClosedSound(got: seq<Item>, revision: nat, limit: nat, tail: nat, low: Option<Key>)
    requires Chain(got, low) && |got| <= limit
    ensures Sound(Closed(got, revision, limit, tail), low, limit)
            && Closed(got, revision, limit, tail).revision == revision
  {
  }

  lemma TurnSound(run: seq<Item>, sel: Selector, limit: nat, low: Option<Key>, cursor: Option<Key>, accepted: seq<Item>)
    requires |accepted| < limit && Chain(accepted, low) && UpTo(accepted, cursor) && Advance(low, cursor)
    requires var store := PageOf(run, limit);
             Chain(store.items, cursor) &&
                 (store.next.Some? ==> UpTo(store.items, store.next) && Advance(cursor, store.next))
    ensures var store := PageOf(run, limit);
            var got := accepted + FirstMatches(store.items, sel, limit - |accepted|);
            && Chain(got, low) && |got| <= limit
            && (store.next.Some? ==> UpTo(got, store.next) && Advance(low, store.next))
  {
    var store := PageOf(run, limit);
    var taken := FirstMatches(store.items, sel, limit - |accepted|);
    FirstMatchesChain(store.items, sel, limit - |accepted|, cursor, store.next);
    ChainJoins(accepted, taken, low, cursor);
    if store.next.Some? {
      Carries(accepted, taken, low, cursor, store.next);
    }
  }

  lemma {:induction false} ScanSound(views: seq<Snapshot>, sel: Selector, limit: nat, low: Option<Key>,
                                     cursor: Option<Key>, accepted: seq<Item>, snapshot: Option<nat>)
    requires Readable(views) && |accepted| < limit
    requires Chain(accepted, low) && UpTo(accepted, cursor) && Advance(low, cursor)
    ensures var page := Scan(views, sel, limit, cursor, accepted, snapshot);
            Sound(page, low, limit) && page.revision == Pinned(snapshot, views)
    decreases |views|, |After(views[0].items, cursor)|
  {
    var run, revision := After(views[0].items, cursor), Pinned(snapshot, views);
    var store := PageOf(run, limit);
    var got := accepted + FirstMatches(store.items, sel, limit - |accepted|);
    StorePageChain(views[0].items, cursor, limit);
    TurnSound(run, sel, limit, low, cursor, accepted);
    ScanTurns(views, sel, limit, cursor, accepted, snapshot);
    if |got| == limit || |run| <= limit {
      ClosedSound(got, revision, limit, store.remaining, low);
    } else {
      ScanSound(Later(views), sel, limit, low, store.next, got, Some(revision));
    }
  }

  lemma UpToRaises(items: seq<Item>, low: Option<Key>, high: Option<Key>)
    requires UpTo(items, low) && Advance(low, high)
    ensures UpTo(items, high)
  {
    forall i | 0 <= i < |items| ensures Within(items[i], high) {
      assert Within(items[i], low);
      if items[i].key != low.value && low != high {
        KeyLessTransitive(items[i].key, low.value, high.value);
      }
    }
  }

  lemma UpToJoins(a: seq<Item>, b: seq<Item>, high: Option<Key>)
    requires UpTo(a, high) && UpTo(b, high)
    ensures UpTo(a + b, high)
  {
    var all := a + b;
    forall i | 0 <= i < |all| ensures Within(all[i], high) {
      assert all[i] == if i < |a| then a[i] else b[i - |a|];
    }
  }

  lemma Carries(accepted: seq<Item>, taken: seq<Item>, low: Option<Key>, cursor: Option<Key>, next: Option<Key>)
    requires UpTo(accepted, cursor) && UpTo(taken, next) && Advance(low, cursor) && Advance(cursor, next)
    ensures UpTo(accepted + taken, next) && Advance(low, next)
  {
    if low.Some? && low != cursor && cursor != next {
      KeyLessTransitive(low.value, cursor.value, next.value);
    }
    UpToRaises(accepted, cursor, next);
    UpToJoins(accepted, taken, next);
  }

  lemma RequestSound(views: seq<Snapshot>, sel: Selector, limit: nat, token: Option<Token>)
    requires Readable(views) && 0 < limit
    ensures var page := Listed(views, sel, limit, token);
            && Sound(page, Cursor(token), limit) && page.revision == Pinned(Series(token), views)
            && (page.next.Some? ==> UpTo(page.items, Cursor(page.next)) && Advance(Cursor(token), Cursor(page.next)))
  {
    ScanSound(views, sel, limit, Cursor(token), Cursor(token), [], Series(token));
  }

  // ---- without a limit ------------------------------------------------------------------

  lemma {:induction false} FilteredIff(items: seq<Item>, sel: Selector, out: Item)
    ensures out in Filtered(items, sel) <==>
            exists i :: 0 <= i < |items| && sel(items[i].value) && out == Emit(items[i])
  {
    if items != [] {
      FilteredIff(items[1..], sel, out);
      assert forall i | 1 <= i < |items| :: items[i] == items[1..][i - 1];
    }
  }

  lemma {:induction false} MatchesFit(items: seq<Item>, sel: Selector, room: nat)
    requires |items| <= room
    ensures Filtered(items, sel) == FirstMatches(items, sel, room)
  {
    if items != [] {
      if sel(items[0].value) {
        MatchesFit(items[1..], sel, room - 1);
      } else {
        MatchesFit(items[1..], sel, room);
        assert Match(items[0], sel) + Filtered(items[1..], sel) == Filtered(items[1..], sel);
      }
    }
  }

  lemma BeyondIffAfter(items: seq<Item>, cursor: Option<Key>, i: nat)
    requires Ordered(items) && i < |items|
    ensures Beyond(items[i], cursor) <==> Start(items, cursor) <= i
  {
    var at := Start(items, cursor);
    if cursor.Some? && at < i {
      KeyLessTransitive(cursor.value, items[at].key, items[i].key);
    }
    if cursor.Some? && i + 1 < at && Beyond(items[i], cursor) {
      KeyLessTransitive(cursor.value, items[i].key, items[at - 1].key);
    }
  }

  /** A list without a limit: an object is emitted if and only if it stands past the token and
      matches, in strictly increasing key order, with no token, no count and the series' revision. */
  lemma UnlimitedAnswers(views: seq<Snapshot>, sel: Selector, token: Option<Token>)
    requires Readable(views)
    ensures var page, items := Listed(views, sel, 0, token), views[0].items;
            && page.next == None && page.remaining == None && page.revision == Pinned(Series(token), views)
            && Chain(page.items, Cursor(token))
            && forall out :: out in page.items <==>
                 exists i :: 0 <= i < |items| && Beyond(items[i], Cursor(token)) && sel(items[i].value) &&
                             out == Emit(items[i])
  {
    var items, cursor := views[0].items, Cursor(token);
    var run, at := After(items, cursor), Start(items, cursor);
    StorePageChain(items, cursor, |run| + 1);
    assert Chain(run, cursor);
    FirstMatchesChain(run, sel, |run|, cursor, cursor);
    MatchesFit(run, sel, |run|);
    forall out
      ensures out in Filtered(run, sel) <==>
              exists i :: 0 <= i < |items| && Beyond(items[i], cursor) && sel(items[i].value) && out == Emit(items[i])
    {
      EmittedFrom(items, cursor, sel, out);
    }
  }

  lemma EmittedFrom(items: seq<Item>, cursor: Option<Key>, sel: Selector, out: Item)
    requires Ordered(items)
    ensures out in Filtered(After(items, cursor), sel) <==>
            exists i :: 0 <= i < |items| && Beyond(items[i], cursor) && sel(items[i].value) && out == Emit(items[i])
  {
    var run, at := After(items, cursor), Start(items, cursor);
    FilteredIff(run, sel, out);
    forall i | 0 <= i < |items| ensures Beyond(items[i], cursor) <==> at <= i {
      BeyondIffAfter(items, cursor, i);
    }
    assert forall i | at <= i < |items| :: items[i] == run[i - at];
    assert forall j | 0 <= j < |run| :: run[j] == items[at + j];
  }

  // ---- a whole series ------------------------------------------------------------------

  ghost predicate AllReadable(requests: seq<seq<Snapshot>>) {
    forall i | 0 <= i < |requests| :: Readable(requests[i])
  }

  /** The pages of a series whose requests found the catalog in these states, as far as the
      tokens carry it. */
  function Chased(requests: seq<seq<Snapshot>>, sel: Selector, limit: nat, token: Option<Token>): (pages: seq<Page>)
    requires AllReadable(requests)
  {
    if requests == [] then []
    else
      var page := Listed(requests[0], sel, limit, token);
      if page.next.None? then [page] else [page] + Chased(requests[1..], sel, limit, page.next)
  }

  /** However the catalog changes, the keys of a series strictly increase, so no object is
      returned twice; no page holds more than the limit; every page and every token of the
      series carry the revision of its first read. */
  lemma {:induction false} SeriesNeverRepeats(requests: seq<seq<Snapshot>>, sel: Selector, limit: nat,
                                              token: Option<Token>)
    requires AllReadable(requests) && 0 < limit
    ensures var pages := Chased(requests, sel, limit, token);
            && Chain(Emitted(pages), Cursor(token))
            && forall i | 0 <= i < |pages| ::
                 && |pages[i].items| <= limit
                 && pages[i].revision == Pinned(Series(token), requests[0])
                 && (pages[i].next.Some? ==> pages[i].next.value.snapshot == pages[i].revision)
  {
    if requests != [] {
      var page := Listed(requests[0], sel, limit, token);
      RequestSound(requests[0], sel, limit, token);
      if page.next.None? {
        assert Chased(requests, sel, limit, token) == [page];
        assert Emitted([page]) == page.items + Emitted([]);
      } else {
        var later := Chased(requests[1..], sel, limit, page.next);
        SeriesNeverRepeats(requests[1..], sel, limit, page.next);
        assert Chased(requests, sel, limit, token) == [page] + later && ([page] + later)[1..] == later;
        ChainJoins(page.items, Emitted(later), Cursor(token), Cursor(page.next));
      }
    }
  }
}
