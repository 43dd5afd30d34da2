/** The rows of the ledger tables, and how they hold a log of transactions. */
module Tables {
  import opened Prelude
  import opened Money
  import opened Journal
  import opened Transactions
  import opened Ledger

  datatype TransactionRow = TransactionRow(id: Id, description: string, reverses: Option<Id>)

  datatype EntryRow = EntryRow(id: Id, transactionId: Id, currency: string)

  datatype PostingRow = PostingRow(id: Id, entryId: Id, account: Id, direction: Direction, amount: int64)

  function TransactionRowOf(tx: Transaction): TransactionRow {
    TransactionRow(tx.id, tx.description, tx.reverses)
  }

  function EntryRowOf(tx: Transaction): EntryRow {
    EntryRow(tx.entry.id, tx.id, tx.entry.currency)
  }

  function PostingRowOf(entryId: Id, p: Posting): PostingRow {
    PostingRow(p.id, entryId, p.account, p.direction, p.amount.amount)
  }

  function TransactionTable(log: seq<Transaction>): seq<TransactionRow> {
    seq(|log|, i requires 0 <= i < |log| => TransactionRowOf(log[i]))
  }

  function EntryTable(log: seq<Transaction>): seq<EntryRow> {
    seq(|log|, i requires 0 <= i < |log| => EntryRowOf(log[i]))
  }

  function EntryPostings(j: JournalEntry): (rows: seq<PostingRow>)
    ensures |rows| == |j.postings|
  {
    seq(|j.postings|, i requires 0 <= i < |j.postings| => PostingRowOf(j.id, j.postings[i]))
  }

  function PostingTable(log: seq<Transaction>): seq<PostingRow> {
    if log == [] then [] else PostingTable(log[..|log| - 1]) + EntryPostings(log[|log| - 1].entry)
  }

  lemma TablesAppend(log: seq<Transaction>, tx: Transaction)
    ensures TransactionTable(log + [tx]) == TransactionTable(log) + [TransactionRowOf(tx)]
    ensures EntryTable(log + [tx]) == EntryTable(log) + [EntryRowOf(tx)]
    ensures PostingTable(log + [tx]) == PostingTable(log) + EntryPostings(tx.entry)
  {
    assert (log + [tx])[..|log + [tx]| - 1] == log;
  }

  // ---------------------------------------------------------------- unique indexes and references

  predicate TransactionIn(rows: seq<TransactionRow>, id: Id) {
    exists i :: 0 <= i < |rows| && rows[i].id == id
  }

  predicate ReversalIn(rows: seq<TransactionRow>, id: Id) {
    exists i :: 0 <= i < |rows| && rows[i].reverses == Some(id)
  }

  predicate EntryIn(rows: seq<EntryRow>, id: Id) {
    exists i :: 0 <= i < |rows| && rows[i].id == id
  }

  predicate EntryOfIn(rows: seq<EntryRow>, transactionId: Id) {
    exists i :: 0 <= i < |rows| && rows[i].transactionId == transactionId
  }

  predicate PostingIn(rows: seq<PostingRow>, id: Id) {
    exists i :: 0 <= i < |rows| && rows[i].id == id
  }

  predicate PostingOf(tx: Transaction, id: Id) {
    exists k :: 0 <= k < |tx.entry.postings| && tx.entry.postings[k].id == id
  }

  lemma PostingInConcat(rows: seq<PostingRow>, more: seq<PostingRow>, id: Id)
    ensures PostingIn(rows + more, id) <==> PostingIn(rows, id) || PostingIn(more, id)
  {
    var all := rows + more;
    if PostingIn(rows, id) {
      var i :| 0 <= i < |rows| && rows[i].id == id;
      assert all[i].id == id;
    }
    if PostingIn(more, id) {
      var i :| 0 <= i < |more| && more[i].id == id;
      assert all[|rows| + i].id == id;
    }
  }

  lemma EntryPostingIn(tx: Transaction, id: Id)
    ensures PostingIn(EntryPostings(tx.entry), id) <==> PostingOf(tx, id)
  {
    var rows := EntryPostings(tx.entry);
    if PostingOf(tx, id) {
      var k :| 0 <= k < |tx.entry.postings| && tx.entry.postings[k].id == id;
      assert rows[k].id == id;
    }
  }

  /** The posting index refuses an id exactly when some logged transaction uses it. */
  lemma {:induction false} PostingIndexed(log: seq<Transaction>, id: Id)
    ensures PostingIn(PostingTable(log), id) <==> exists i :: 0 <= i < |log| && PostingOf(log[i], id)
  {
    hide PostingOf, EntryPostings;
    if log == [] {
      assert PostingTable(log) == [];
    } else {
      hide PostingIn;
      var n := |log| - 1;
      PostingIndexed(log[..n], id);
      assert forall i :: 0 <= i < n ==> log[..n][i] == log[i];
      PostingInConcat(PostingTable(log[..n]), EntryPostings(log[n].entry), id);
      EntryPostingIn(log[n], id);
    }
  }

  /** The tables' index lookups answer what the log says. */
  lemma {:induction false} IndexesMatchLog(s: Store, id: Id)
    ensures TransactionIn(TransactionTable(s.log), id) <==> HasTransaction(s, id)
    ensures ReversalIn(TransactionTable(s.log), id) <==> HasReversalOf(s, id)
    ensures EntryIn(EntryTable(s.log), id) <==> HasEntry(s, id)
    ensures EntryOfIn(EntryTable(s.log), id) <==> HasTransaction(s, id)
    ensures PostingIn(PostingTable(s.log), id) <==> HasPosting(s, id)
  {
    var rows, entries := TransactionTable(s.log), EntryTable(s.log);
    assert forall i :: 0 <= i < |s.log| ==> rows[i].id == s.log[i].id && rows[i].reverses == s.log[i].reverses;
    assert forall i :: 0 <= i < |s.log| ==>
             entries[i].id == s.log[i].entry.id && entries[i].transactionId == s.log[i].id;
    PostingIndexed(s.log, id);
    assert HasPosting(s, id) <==> exists i :: 0 <= i < |s.log| && PostingOf(s.log[i], id);
  }

  // ---------------------------------------------------------------- sums

  /** Sum of the amounts on one side of one account, row by row. */
  function RowSide(rows: seq<PostingRow>, a: Id, d: Direction): int {
    if rows == [] then 0
    else
      var p := rows[|rows| - 1];
      RowSide(rows[..|rows| - 1], a, d) + if p.account == a && p.direction == d then p.amount else 0
  }

  lemma {:induction false} RowSideConcat(rows: seq<PostingRow>, more: seq<PostingRow>, a: Id, d: Direction)
    ensures RowSide(rows + more, a, d) == RowSide(rows, a, d) + RowSide(more, a, d)
  {
    if more == [] {
      assert rows + more == rows;
    } else {
      RowSideConcat(rows, more[..|more| - 1], a, d);
      assert (rows + more)[..|rows + more| - 1] == rows + more[..|more| - 1];
    }
  }

  lemma {:induction false} EntrySide(j: JournalEntry, a: Id, d: Direction)
    ensures RowSide(EntryPostings(j), a, d) == Side(j.postings, a, d)
    decreases |j.postings|
  {
    if j.postings != [] {
      var n := |j.postings| - 1;
      EntrySide(j.(postings := j.postings[..n]), a, d);
      assert EntryPostings(j)[..n] == EntryPostings(j.(postings := j.postings[..n]));
    }
  }

  /** Summing the posting table row by row gives what the log has booked. */
  lemma {:induction false} TableSums(log: seq<Transaction>, a: Id, d: Direction)
    ensures RowSide(PostingTable(log), a, d) == Booked(log, a, d)
  {
    if log != [] {
      var n := |log| - 1;
      TableSums(log[..n], a, d);
      EntrySide(log[n].entry, a, d);
      RowSideConcat(PostingTable(log[..n]), EntryPostings(log[n].entry), a, d);
    }
  }

  // ---------------------------------------------------------------- joins

  /** The postings of one entry, in table order. */
  function OfEntry(rows: seq<PostingRow>, entryId: Id): seq<PostingRow> {
    if rows == [] then []
    else
      OfEntry(rows[..|rows| - 1], entryId) + if rows[|rows| - 1].entryId == entryId then [rows[|rows| - 1]] else []
  }

  lemma {:induction false} OfEntryConcat(rows: seq<PostingRow>, more: seq<PostingRow>, entryId: Id)
    ensures OfEntry(rows + more, entryId) == OfEntry(rows, entryId) + OfEntry(more, entryId)
  {
    if more == [] {
      assert rows + more == rows;
    } else {
      OfEntryConcat(rows, more[..|more| - 1], entryId);
      assert (rows + more)[..|rows + more| - 1] == rows + more[..|more| - 1];
    }
  }

  lemma {:induction false} OfEntryOwn(rows: seq<PostingRow>, owner: Id, entryId: Id)
    requires forall i :: 0 <= i < |rows| ==> rows[i].entryId == owner
    ensures OfEntry(rows, entryId) == if owner == entryId then rows else []
  {
    if rows != [] {
      OfEntryOwn(rows[..|rows| - 1], owner, entryId);
      assert rows == rows[..|rows| - 1] + [rows[|rows| - 1]];
    }
  }

  /** Joining the posting table on an entry's id finds that entry's postings, all of them and in order. */
  lemma {:induction false} JoinFindsEntry(log: seq<Transaction>, k: nat)
    requires k < |log|
    requires forall i :: 0 <= i < |log| && i != k ==> log[i].entry.id != log[k].entry.id
    ensures OfEntry(PostingTable(log), log[k].entry.id) == EntryPostings(log[k].entry)
  {
    var n := |log| - 1;
    var id := log[k].entry.id;
    OfEntryConcat(PostingTable(log[..n]), EntryPostings(log[n].entry), id);
    OfEntryOwn(EntryPostings(log[n].entry), log[n].entry.id, id);
    if k == n {
      JoinFindsNothing(log[..n], id);
    } else {
      JoinFindsEntry(log[..n], k);
    }
  }

  lemma {:induction false} JoinFindsNothing(log: seq<Transaction>, id: Id)
    requires forall i :: 0 <= i < |log| ==> log[i].entry.id != id
    ensures OfEntry(PostingTable(log), id) == []
  {
    if log != [] {
      var n := |log| - 1;
      JoinFindsNothing(log[..n], id);
      OfEntryConcat(PostingTable(log[..n]), EntryPostings(log[n].entry), id);
      OfEntryOwn(EntryPostings(log[n].entry), log[n].entry.id, id);
    }
  }

  /** One row of the join of a transaction, its entry and one of its postings. */
  datatype DetailRow = DetailRow(transaction: TransactionRow, entry: EntryRow, posting: PostingRow)

  function Join(t: TransactionRow, e: EntryRow, rows: seq<PostingRow>): seq<DetailRow> {
    seq(|rows|, i requires 0 <= i < |rows| => DetailRow(t, e, rows[i]))
  }

  function Details(tx: Transaction): seq<DetailRow> {
    Join(TransactionRowOf(tx), EntryRowOf(tx), EntryPostings(tx.entry))
  }

  predicate OrderedByPosting(rows: seq<DetailRow>) {
    forall i, k :: 0 <= i < k < |rows| ==> rows[i].posting.id <= rows[k].posting.id
  }

  /** Where a row with this posting id belongs among ordered rows. */
  function Position(rows: seq<DetailRow>, id: Id): (k: nat)
    requires OrderedByPosting(rows)
    ensures k <= |rows|
    ensures forall i :: 0 <= i < k ==> rows[i].posting.id <= id
    ensures forall i :: k <= i < |rows| ==> id < rows[i].posting.id
  {
    if rows == [] || rows[|rows| - 1].posting.id <= id then |rows| else Position(rows[..|rows| - 1], id)
  }

  function InsertRow(rows: seq<DetailRow>, r: DetailRow): (res: seq<DetailRow>)
    requires OrderedByPosting(rows)
    ensures OrderedByPosting(res)
    ensures multiset(res) == multiset(rows) + multiset{r}
  {
    var k := Position(rows, r.posting.id);
    assert rows == rows[..k] + rows[k..];
    rows[..k] + [r] + rows[k..]
  }

  /** A stored posting read back in its entry's currency. */
  function Rebuilt(currency: string, r: DetailRow): Posting
    requires r.posting.amount >= 0
  {
    Posting(r.posting.id, r.posting.account, r.posting.direction, Money(currency, r.posting.amount))
  }

  predicate NonNegativeRows(rows: seq<DetailRow>) {
    forall i :: 0 <= i < |rows| ==> rows[i].posting.amount >= 0
  }

  function RebuiltAll(currency: string, rows: seq<DetailRow>): seq<Posting>
    requires NonNegativeRows(rows)
  {
    seq(|rows|, i requires 0 <= i < |rows| => Rebuilt(currency, rows[i]))
  }

  /** Reading the rows of a transaction back in table order gives its postings. */
  lemma RebuiltDetails(tx: Transaction)
    requires Constructed(tx)
    ensures NonNegativeRows(Details(tx)) && RebuiltAll(tx.entry.currency, Details(tx)) == tx.entry.postings
  {
    var rows := Details(tx);
    forall i | 0 <= i < |rows|
      ensures rows[i].posting.amount >= 0 && Rebuilt(tx.entry.currency, rows[i]) == tx.entry.postings[i] {
      assert tx.entry.postings[i].Valid();
    }
  }

  lemma RebuiltWithout(currency: string, rows: seq<DetailRow>, k: nat)
    requires NonNegativeRows(rows) && k < |rows|
    ensures NonNegativeRows(Without(rows, k))
    ensures multiset(Without(rows, k)) == multiset(rows) - multiset{rows[k]}
    ensures multiset(RebuiltAll(currency, rows)) ==
            multiset(RebuiltAll(currency, Without(rows, k))) + multiset{Rebuilt(currency, rows[k])}
  {
    var all, rest := RebuiltAll(currency, rows), RebuiltAll(currency, Without(rows, k));
    assert rows == rows[..k] + [rows[k]] + rows[k + 1..];
    assert all == all[..k] + [all[k]] + all[k + 1..];
    assert rest == all[..k] + all[k + 1..];
  }

  /** Reading rows back in another order rebuilds the same postings in another order. */
  lemma {:induction false} RebuiltPermuted(currency: string, rows: seq<DetailRow>, others: seq<DetailRow>)
    requires NonNegativeRows(rows) && NonNegativeRows(others) && multiset(rows) == multiset(others)
    ensures multiset(RebuiltAll(currency, rows)) == multiset(RebuiltAll(currency, others))
    decreases |rows|
  {
    if rows == [] {
      assert |multiset(others)| == |others|;
    } else {
      hide RebuiltAll, NonNegativeRows, Without;
      assert rows[0] in multiset(others);
      var k :| 0 <= k < |others| && others[k] == rows[0];
      RebuiltWithout(currency, rows, 0);
      RebuiltWithout(currency, others, k);
      RebuiltPermuted(currency, Without(rows, 0), Without(others, k));
    }
  }
}
