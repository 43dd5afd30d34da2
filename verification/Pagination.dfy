/** Listing an account's postings page by page with a keyset cursor. */
module Pagination {
  import opened Prelude
  import opened Money

  const DEFAULT_PAGE_SIZE: int := 20
  const MAX_PAGE_SIZE: int := 100

  datatype Entry = Entry(postingId: Id, account: Id, transactionId: Id, amount: int64, createdAt: Time)

  datatype Cursor = Cursor(createdAt: Time, postingId: Id)

  datatype Page = Page(entries: seq<Entry>, next: Option<Cursor>)

  datatype ListFailure = InvalidAccountId | InvalidPageSize

  function CursorOf(e: Entry): Cursor {
    Cursor(e.createdAt, e.postingId)
  }

  /** The entry comes strictly after the cursor in descending (created_at, id) order. */
  predicate Past(c: Cursor, e: Entry) {
    e.createdAt < c.createdAt || (e.createdAt == c.createdAt && e.postingId < c.postingId)
  }

  predicate Newer(e: Entry, f: Entry) {
    Past(CursorOf(e), f)
  }

  predicate Descending(es: seq<Entry>) {
    forall i, k :: 0 <= i < k < |es| ==> Newer(es[i], es[k])
  }

  /** Posting ids are the table's primary key. */
  predicate UniqueIds(table: seq<Entry>) {
    forall i, k :: 0 <= i < k < |table| ==> table[i].postingId != table[k].postingId
  }

  predicate Wanted(account: Id, cursor: Option<Cursor>, e: Entry) {
    e.account == account && (cursor.Some? ==> Past(cursor.value, e))
  }

  /** Where an entry belongs in a descending list. */
  function Position(es: seq<Entry>, e: Entry): (k: nat)
    requires Descending(es)
    ensures k <= |es|
    ensures forall i :: 0 <= i < k ==> Newer(es[i], e)
    ensures k < |es| ==> !Newer(es[k], e)
  {
    if es == [] || !Newer(es[0], e) then 0
    else
      var k := Position(es[1..], e);
      assert forall i :: 1 <= i < k + 1 ==> es[i] == es[1..][i - 1];
      k + 1
  }

  /** The list that the cursor query orders: the account's entries past the cursor, newest first. */
  function Listed(table: seq<Entry>, account: Id, cursor: Option<Cursor>): (es: seq<Entry>)
    requires UniqueIds(table)
    ensures Descending(es)
    ensures forall e :: e in es <==> e in table && Wanted(account, cursor, e)
  {
    if table == [] then []
    else
      var last := table[|table| - 1];
      var es := Listed(table[..|table| - 1], account, cursor);
      assert table == table[..|table| - 1] + [last];
      if Wanted(account, cursor, last) then
        assert forall i :: 0 <= i < |es| ==> es[i].postingId != last.postingId by {
          forall i | 0 <= i < |es| ensures es[i].postingId != last.postingId {
            assert es[i] in table[..|table| - 1];
          }
        }
        InsertKeepsOrder(es, last);
        es[..Position(es, last)] + [last] + es[Position(es, last)..]
      else es
  }

  lemma NewerIsAnOrder(e: Entry, f: Entry, g: Entry)
    ensures Newer(e, f) && Newer(f, g) ==> Newer(e, g)
    ensures e.postingId != f.postingId ==> Newer(e, f) || Newer(f, e)
  {
  }

  lemma DescendingConcat(es: seq<Entry>, fs: seq<Entry>)
    requires Descending(es) && Descending(fs)
    requires forall i, k :: 0 <= i < |es| && 0 <= k < |fs| ==> Newer(es[i], fs[k])
    ensures Descending(es + fs)
  {
    hide Newer;
  }

  lemma InsertKeepsOrder(es: seq<Entry>, e: Entry)
    requires Descending(es)
    requires forall i :: 0 <= i < |es| ==> es[i].postingId != e.postingId
    ensures var k := Position(es, e);
            var longer := es[..k] + [e] + es[k..];
            Descending(longer) && forall f :: f in longer <==> f in es || f == e
  {
    hide Newer, Position;
    var k := Position(es, e);
    forall i | k <= i < |es| ensures Newer(e, es[i]) {
      NewerIsAnOrder(es[k], e, es[k]);
      NewerIsAnOrder(e, es[k], es[i]);
    }
    DescendingConcat(es[..k], [e]);
    DescendingConcat(es[..k] + [e], es[k..]);
    assert es == es[..k] + es[k..];
  }

  // ---------------------------------------------------------------- the query and the use case

  /** Read the table, keep the wanted entries in order, and cut at the limit. */
  method ListEntries(table: seq<Entry>, account: Id, limit: nat, cursor: Option<Cursor>) returns (es: seq<Entry>)
    requires UniqueIds(table)
    ensures var all := Listed(table, account, cursor);
            es == if |all| <= limit then all else all[..limit]
  {
    es := [];
    for i := 0 to |table|
      invariant es == Listed(table[..i], account, cursor)
    {
      assert table[..i + 1][..i] == table[..i];
      if Wanted(account, cursor, table[i]) {
        var k := Position(es, table[i]);
        es := es[..k] + [table[i]] + es[k..];
      }
    }
    assert table[..|table|] == table;
    if |es| > limit { es := es[..limit]; }
  }

  function PageOf(all: seq<Entry>, limit: nat): Page
    requires limit > 0
  {
    if |all| <= limit then Page(all, None) else Page(all[..limit], Some(CursorOf(all[limit - 1])))
  }

  /** One entry more than the page is fetched; it decides whether there is a next page and is then dropped. */
  method Execute(table: seq<Entry>, account: Id, requested: int, cursor: Option<Cursor>)
    returns (r: Result<Page, ListFailure>)
    requires UniqueIds(table)
    ensures account == 0 ==> r == Err(InvalidAccountId)
    ensures account != 0 && !(0 <= requested <= 100) ==> r == Err(InvalidPageSize)
    ensures account != 0 && 0 <= requested <= 100 ==>
              r == Ok(PageOf(Listed(table, account, cursor), if requested == 0 then 20 else requested))
  {
    if account == 0 { return Err(InvalidAccountId); }
    var limit := requested;
    if limit == 0 { limit := DEFAULT_PAGE_SIZE; }
    if limit < 1 || limit > MAX_PAGE_SIZE { return Err(InvalidPageSize); }
    var entries := ListEntries(table, account, limit + 1, cursor);
    if |entries| <= limit { return Ok(Page(entries, None)); }
    var page := entries[..limit];
    assert page == Listed(table, account, cursor)[..limit];
    return Ok(Page(page, Some(CursorOf(page[|page| - 1]))));
  }

  // ---------------------------------------------------------------- cursors

  /** A strictly descending list is determined by its elements. */
  lemma {:induction false} DescendingUnique(es: seq<Entry>, fs: seq<Entry>)
    requires Descending(es) && Descending(fs)
    requires forall e :: e in es <==> e in fs
    ensures es == fs
  {
    assert |fs| > 0 ==> fs[0] in es;
    assert |es| > 0 ==> es[0] in fs;
    if es != [] {
      assert es[0] == fs[0];
      assert Descending(es[1..]) && Descending(fs[1..]);
      forall e ensures e in es[1..] <==> e in fs[1..] {
        if e in es[1..] { assert Newer(es[0], e) && e in fs; }
        if e in fs[1..] { assert Newer(fs[0], e) && e in es; }
      }
      DescendingUnique(es[1..], fs[1..]);
    }
  }

  /** Listing past the cursor of an entry gives exactly the rest of the list after that entry. */
  lemma {:induction false} CursorContinues(table: seq<Entry>, account: Id, cursor: Option<Cursor>, p: nat)
    requires UniqueIds(table) && p < |Listed(table, account, cursor)|
    ensures var all := Listed(table, account, cursor);
            Listed(table, account, Some(CursorOf(all[p]))) == all[p + 1..]
  {
    var all := Listed(table, account, cursor);
    var next := Some(CursorOf(all[p]));
    var rest := Listed(table, account, next);
    assert all[p] in all;
    forall e ensures e in all[p + 1..] <==> e in rest {
      if e in rest {
        assert e in all;
        var i :| 0 <= i < |all| && all[i] == e;
        assert i > p;
        assert all[p + 1..][i - p - 1] == e;
      }
      if e in all[p + 1..] {
        var i :| 0 <= i < |all[p + 1..]| && all[p + 1..][i] == e;
        assert Newer(all[p], all[p + 1 + i]);
        assert e in all;
      }
    }
    DescendingUnique(rest, all[p + 1..]);
  }

  /** Postings that are not past the cursor, newer ones in particular, do not disturb the pages after it. */
  lemma {:induction false} NewerEntriesDoNotShift(table: seq<Entry>, more: seq<Entry>, account: Id, c: Cursor)
    requires UniqueIds(table + more) && UniqueIds(table)
    requires forall e :: e in more ==> !Past(c, e)
    ensures Listed(table + more, account, Some(c)) == Listed(table, account, Some(c))
  {
    DescendingUnique(Listed(table + more, account, Some(c)), Listed(table, account, Some(c)));
  }

  // ---------------------------------------------------------------- following the cursors

  function Entries(pages: seq<Page>): seq<Entry> {
    if pages == [] then [] else Entries(pages[..|pages| - 1]) + pages[|pages| - 1].entries
  }

  lemma EntriesAppend(pages: seq<Page>, page: Page)
    ensures Entries([]) == [] && Entries(pages + [page]) == Entries(pages) + page.entries
  {
    assert (pages + [page])[..|pages|] == pages;
  }

  lemma Slices(all: seq<Entry>, p: nat, n: nat)
    requires p + n <= |all|
    ensures all[..p] + all[p..][..n] == all[..p + n] && all[p..][n..] == all[p + n..]
    ensures all[..p] + all[p..] == all
  {
  }

  /** A page takes its part of the list, and a full one continues at the cursor of its last entry. */
  lemma PageContinues(table: seq<Entry>, account: Id, cursor: Option<Cursor>, all: seq<Entry>, p: nat, n: nat)
    returns (q: nat)
    requires UniqueIds(table) && p <= |all| && Listed(table, account, cursor) == all[p..] && n > 0
    ensures var page := PageOf(all[p..], n);
            && p <= q <= |all| && all[..p] + page.entries == all[..q] && |page.entries| <= n
            && (page.next == None ==> q == |all|)
            && (page.next.Some? ==> p < q && |page.entries| == n && Listed(table, account, page.next) == all[q..])
  {
    hide Listed, UniqueIds, CursorOf;
    if |all| - p <= n {
      q := |all|;
      Slices(all, p, 0);
      assert all[..q] == all;
    } else {
      q := p + n;
      CursorContinues(table, account, cursor, n - 1);
      Slices(all, p, n);
    }
  }

  /** All pages so far are full and have a cursor, but for the last one when it is the end. */
  predicate Follows(pages: seq<Page>, limits: nat -> int, done: bool) {
    && (done ==> pages != [] && |pages[|pages| - 1].entries| <= limits(|pages| - 1))
    && (forall i :: 0 <= i < |pages| ==> (pages[i].next == None <==> done && i == |pages| - 1))
    && (forall i :: 0 <= i < |pages| && !(done && i == |pages| - 1) ==> |pages[i].entries| == limits(i))
  }

  lemma FollowsNext(pages: seq<Page>, limits: nat -> int, page: Page)
    requires Follows(pages, limits, false)
    requires |page.entries| <= limits(|pages|) && (page.next.Some? ==> |page.entries| == limits(|pages|))
    ensures Follows(pages + [page], limits, page.next == None)
  {
  }

  lemma FollowsToEnd(pages: seq<Page>, limits: nat -> int)
    requires Follows(pages, limits, true)
    ensures pages != []
    ensures forall i :: 0 <= i < |pages| ==> (pages[i].next == None <==> i == |pages| - 1)
    ensures forall i :: 0 <= i < |pages| - 1 ==> |pages[i].entries| == limits(i)
    ensures |pages[|pages| - 1].entries| <= limits(|pages| - 1)
  {
  }

  /** Whatever page sizes a reader asks for along the way, following the cursors ends, and the pages together
      are the account's postings in descending order, each once. Only the last page has no cursor, and all
      others are full. */
  method ReadAll(table: seq<Entry>, account: Id, limits: nat -> int) returns (pages: seq<Page>)
    requires UniqueIds(table) && account != 0
    requires forall i: nat :: 1 <= limits(i) <= 100
    ensures Entries(pages) == Listed(table, account, None)
    ensures forall e :: e in Entries(pages) <==> e in table && e.account == account
    ensures forall i, k :: 0 <= i < k < |Entries(pages)| ==>
              var e, f := Entries(pages)[i], Entries(pages)[k];
              e.createdAt > f.createdAt || (e.createdAt == f.createdAt && e.postingId > f.postingId)
    ensures pages != []
    ensures forall i :: 0 <= i < |pages| ==> (pages[i].next == None <==> i == |pages| - 1)
    ensures forall i :: 0 <= i < |pages| - 1 ==> |pages[i].entries| == limits(i)
    ensures |pages[|pages| - 1].entries| <= limits(|pages| - 1)
  {
    assert Follows([], limits, false);
    hide Listed, Entries, UniqueIds, CursorOf, Follows, PageOf;
    ghost var all := Listed(table, account, None);
    EntriesAppend([], Page([], None));
    var cursor: Option<Cursor> := None;
    var done := false;
    ghost var p := 0;
    pages := [];
    assert all[..0] == [] && all[0..] == all;
    while !done
      invariant 0 <= p <= |all| && Entries(pages) == all[..p]
      invariant !done ==> Listed(table, account, cursor) == all[p..]
      invariant done ==> p == |all|
      invariant Follows(pages, limits, done)
      decreases !done, |all| - p
    {
      var limit := limits(|pages|);
      var r := Execute(table, account, limit, cursor);
      if r.Err? { assert false; }
      var page := r.value;
      EntriesAppend(pages, page);
      p := PageContinues(table, account, cursor, all, p, limit);
      FollowsNext(pages, limits, page);
      pages, cursor, done := pages + [page], page.next, page.next == None;
    }
    assert all[..|all|] == all;
    FollowsToEnd(pages, limits);
  }
}
