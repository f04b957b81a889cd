/** The selector-aware paged LIST (`handler.rs` `list_page`) over the store's pages
    (`state.rs` `page_of`). */
module PagedList {
  import opened JsonValue
  import opened TextOrder

  datatype Item = Item(key: Key, value: Json)

  /** The items of one kind as a store read finds them, with the revision of that moment. */
  datatype Snapshot = Snapshot(items: seq<Item>, revision: nat)

  datatype Token = Token(snapshot: nat, lastKey: Key)

  datatype Page = Page(items: seq<Item>, revision: nat, next: Option<Token>, remaining: Option<nat>)

  datatype StorePage = StorePage(items: seq<Item>, next: Option<Key>, remaining: nat)

  type Selector = Json -> bool

  ghost predicate Ordered(items: seq<Item>) {
    forall i, j | 0 <= i < j < |items| :: KeyLess(items[i].key, items[j].key)
  }

  // ---- the store -------------------------------------------------------------------

  predicate Beyond(item: Item, cursor: Option<Key>) {
    cursor.None? || KeyLess(cursor.value, item.key)
  }

  /** Where the items strictly after the cursor begin. */
  function Start(items: seq<Item>, cursor: Option<Key>): (at: nat)
    ensures at <= |items|
    ensures at < |items| ==> Beyond(items[at], cursor)
    ensures 0 < at ==> !Beyond(items[at - 1], cursor)
  {
    if items == [] || Beyond(items[0], cursor) then 0 else 1 + Start(items[1..], cursor)
  }

  /** The items strictly after the cursor: a suffix, since a catalog is in key order. */
  function After(items: seq<Item>, cursor: Option<Key>): seq<Item> {
    items[Start(items, cursor)..]
  }

  function PageOf(run: seq<Item>, limit: nat): StorePage {
    if limit == 0 || |run| <= limit then StorePage(run, None, 0)
    else StorePage(run[..limit], Some(run[limit - 1].key), |run| - limit)
  }

  lemma {:induction false} StartAfter(items: seq<Item>, at: nat)
    requires Ordered(items) && at < |items|
    ensures Start(items, Some(items[at].key)) == at + 1
  {
    var cursor := Some(items[at].key);
    if at == 0 {
      if KeyLess(items[0].key, items[0].key) {
        KeyLessAsymmetric(items[0].key, items[0].key);
      }
      assert |items| > 1 ==> Beyond(items[1], cursor);
    } else {
      KeyLessAsymmetric(items[0].key, items[at].key);
      assert items[1..][at - 1] == items[at];
      StartAfter(items[1..], at - 1);
    }
  }

  /** Resuming after the n-th item of a run leaves exactly what followed it. */
  lemma AfterNth(items: seq<Item>, cursor: Option<Key>, n: nat)
    requires Ordered(items) && 0 < n <= |After(items, cursor)|
    ensures After(items, Some(After(items, cursor)[n - 1].key)) == After(items, cursor)[n..]
  {
    StartAfter(items, Start(items, cursor) + n - 1);
  }

  // ---- filtering -------------------------------------------------------------------

  /** A list item goes out without its type: the list's envelope carries that. */
  function Emit(item: Item): Item {
    Item(item.key, if item.value.Obj? then Obj(item.value.members - {"kind", "apiVersion"}) else item.value)
  }

  /** What goes out is the object as stored but for `kind` and `apiVersion`, which are gone. */
  lemma EmitKeepsTheRest(item: Item, member: string)
    ensures Emit(item).key == item.key
    ensures Get(Emit(item).value, member) ==
            if member == "kind" || member == "apiVersion" then None else Get(item.value, member)
    ensures Emit(item).value.Obj? <==> item.value.Obj?
    ensures !item.value.Obj? ==> Emit(item) == item
  {
  }

  /** Every match, in order: the list asked for in one piece. */
  function Filtered(items: seq<Item>, sel: Selector): (out: seq<Item>)
    ensures |out| <= |items|
  {
    if items == [] then []
    else Match(items[0], sel) + Filtered(items[1..], sel)
  }

  /** The first matches, as many as there is room for. */
  function FirstMatches(items: seq<Item>, sel: Selector, room: nat): (out: seq<Item>)
    ensures |out| <= room
  {
    if items == [] || room == 0 then []
    else if sel(items[0].value) then [Emit(items[0])] + FirstMatches(items[1..], sel, room - 1)
    else FirstMatches(items[1..], sel, room)
  }

  /** How many items to scan for `room` matches: all of them when there are not that many. */
  function FillPoint(items: seq<Item>, sel: Selector, room: nat): (n: nat)
    ensures n <= |items|
  {
    if items == [] || room == 0 then 0
    else 1 + FillPoint(items[1..], sel, if sel(items[0].value) then room - 1 else room)
  }

  function Match(item: Item, sel: Selector): seq<Item> {
    if sel(item.value) then [Emit(item)] else []
  }

  // ---- one request -----------------------------------------------------------------

  /** The store reads of one request, in turn. The last one stands for every later read:
      a run that ends has made finitely many. */
  ghost predicate Readable(views: seq<Snapshot>) {
    views != [] && forall i | 0 <= i < |views| :: Ordered(views[i].items)
  }

  function Later(views: seq<Snapshot>): seq<Snapshot>
    requires views != []
  {
    if |views| > 1 then views[1..] else views
  }

  function LastKey(accepted: seq<Item>): Option<Key> {
    if accepted == [] then None else Some(accepted[|accepted| - 1].key)
  }

  function Closed(accepted: seq<Item>, revision: nat, limit: nat, tail: nat): Page {
    if accepted != [] && |accepted| == limit && tail > 0
    then Page(accepted, revision, Some(Token(revision, accepted[|accepted| - 1].key)), Some(tail))
    else Page(accepted, revision, None, None)
  }

  function Pinned(snapshot: Option<nat>, views: seq<Snapshot>): nat
    requires views != []
  {
    if snapshot.Some? then snapshot.value else views[0].revision
  }

  /** The loop over store pages, each as large as the page asked for. */
  function Scan(views: seq<Snapshot>, sel: Selector, limit: nat, cursor: Option<Key>, accepted: seq<Item>,
                snapshot: Option<nat>): (page: Page)
    requires Readable(views) && |accepted| < limit
    decreases |views|, |After(views[0].items, cursor)|
  {
    var store := PageOf(After(views[0].items, cursor), limit);
    var revision := Pinned(snapshot, views);
    var got := accepted + FirstMatches(store.items, sel, limit - |accepted|);
    if |got| == limit || store.next.None? then Closed(got, revision, limit, store.remaining)
    else
      AfterNth(views[0].items, cursor, limit);
      Scan(Later(views), sel, limit, store.next, got, Some(revision))
  }

  /** The loop's last turn, and any other. */
  lemma ScanTurns(views: seq<Snapshot>, sel: Selector, limit: nat, cursor: Option<Key>, accepted: seq<Item>,
                  snapshot: Option<nat>)
    requires Readable(views) && |accepted| < limit
    ensures var run, revision := After(views[0].items, cursor), Pinned(snapshot, views);
            var store := PageOf(run, limit);
            var got := accepted + FirstMatches(store.items, sel, limit - |accepted|);
            && Scan(views, sel, limit, cursor, accepted, snapshot) ==
               (if |got| == limit || |run| <= limit then Closed(got, revision, limit, store.remaining)
                else Scan(Later(views), sel, limit, store.next, got, Some(revision)))
            && (|run| > limit ==> |After(views[0].items, store.next)| < |run|)
  {
    if |After(views[0].items, cursor)| > limit {
      AfterNth(views[0].items, cursor, limit);
    }
  }

  lemma ScanCloses(views: seq<Snapshot>, sel: Selector, limit: nat, cursor: Option<Key>, accepted: seq<Item>,
                   snapshot: Option<nat>)
    requires Readable(views) && |accepted| < limit
    requires var run := After(views[0].items, cursor);
             |run| <= limit || |accepted + FirstMatches(PageOf(run, limit).items, sel, limit - |accepted|)| == limit
    ensures var store := PageOf(After(views[0].items, cursor), limit);
            Scan(views, sel, limit, cursor, accepted, snapshot) ==
            Closed(accepted + FirstMatches(store.items, sel, limit - |accepted|), Pinned(snapshot, views), limit,
                store.remaining)
  {
  }

  function Cursor(token: Option<Token>): Option<Key> {
    if token.Some? then Some(token.value.lastKey) else None
  }

  function Series(token: Option<Token>): Option<nat> {
    if token.Some? then Some(token.value.snapshot) else None
  }

  function Listed(views: seq<Snapshot>, sel: Selector, limit: nat, token: Option<Token>): Page
    requires Readable(views)
  {
    if limit == 0 then Page(Filtered(After(views[0].items, Cursor(token)), sel), Pinned(Series(token), views), None,
        None)
    else Scan(views, sel, limit, Cursor(token), [], Series(token))
  }

  /** The `for` over one store page, left at the match that fills the page. */
  method TakeMatches(items: seq<Item>, sel: Selector, limit: nat, accepted: seq<Item>, before: Option<Key>)
    returns (got: seq<Item>, lastKey: Option<Key>)
    requires |accepted| < limit && before == LastKey(accepted)
    ensures got == accepted + FirstMatches(items, sel, limit - |accepted|)
    ensures lastKey == LastKey(got)
  {
    got, lastKey := accepted, before;
    var i := 0;
    assert items[0..] == items;
    while i < |items| && |got| < limit
      invariant i <= |items| && |accepted| <= |got| <= limit
      invariant got + FirstMatches(items[i..], sel, limit - |got|) ==
                accepted + FirstMatches(items, sel, limit - |accepted|)
      invariant lastKey == LastKey(got)
    {
      assert items[i..][1..] == items[i + 1..];
      if sel(items[i].value) {
        got := got + [Emit(items[i])];
        lastKey := Some(items[i].key);
      }
      i := i + 1;
    }
  }

  /** The loop over store pages: left with what fills the page or ends the store, the last
      key emitted, the revision of the series and the count of items past the last page read. */
  method ScanPages(views: seq<Snapshot>, sel: Selector, limit: nat, from: Option<Key>, series: Option<nat>)
    returns (accepted: seq<Item>, lastEmitted: Option<Key>, revision: nat, tail: nat)
    requires Readable(views) && 0 < limit
    ensures Closed(accepted, revision, limit, tail) == Scan(views, sel, limit, from, [], series)
    ensures lastEmitted == LastKey(accepted)
  {
    accepted, lastEmitted, tail := [], None, 0;
    var ahead, cursor, snapshot := views, from, series;
    ghost var target := Scan(views, sel, limit, from, [], series);
    while true
      invariant Readable(ahead) && |accepted| < limit
      invariant lastEmitted == LastKey(accepted)
      invariant Scan(ahead, sel, limit, cursor, accepted, snapshot) == target
      decreases |ahead|, |After(ahead[0].items, cursor)|
    {
      ScanTurns(ahead, sel, limit, cursor, accepted, snapshot);
      var store := PageOf(After(ahead[0].items, cursor), limit);
      if snapshot.None? {
        snapshot := Some(ahead[0].revision);
      }
      tail := store.remaining;
      accepted, lastEmitted := TakeMatches(store.items, sel, limit, accepted, lastEmitted);
      if |accepted| == limit || store.next.None? {
        return accepted, lastEmitted, snapshot.value, tail;
      }
      cursor, ahead := store.next, Later(ahead);
    }
  }

  method ListPage(views: seq<Snapshot>, sel: Selector, limit: nat, token: Option<Token>) returns (page: Page)
    requires Readable(views)
    ensures page == Listed(views, sel, limit, token)
  {
    var snapshot, cursor := Series(token), Cursor(token);
    if limit == 0 {
      var all := PageOf(After(views[0].items, cursor), 0);
      return Page(Filtered(all.items, sel), Pinned(snapshot, views), None, None);
    }
    var accepted, lastEmitted, revision, tail := ScanPages(views, sel, limit, cursor, snapshot);
    if |accepted| == limit && tail > 0 && lastEmitted.Some? {
      page := Page(accepted, revision, Some(Token(revision, lastEmitted.value)), Some(tail));
    } else {
      page := Page(accepted, revision, None, None);
    }
  }

  /** The items of several pages, put together. */
  function Emitted(pages: seq<Page>): seq<Item> {
    if pages == [] then [] else pages[0].items + Emitted(pages[1..])
  }
}
