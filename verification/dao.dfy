/** `core/database/HoldingDao.kt` over the `holdings` table, modelled as a map
    from the primary key `symbol` to its row. */
module HoldingDao {
  import opened Common
  import opened Model

  type Store = map<string, HoldingEntity>

  /** Every row sits under its own primary key. */
  predicate WellKeyed(store: Store) {
    forall k :: k in store ==> store[k].symbol == k
  }

  /** `ORDER BY symbol ASC` under SQLite's BINARY collation: lexicographic
      order of code points, a proper prefix first. */
  predicate Below(a: string, b: string) {
    if |a| == 0 then |b| > 0
    else |b| > 0 && (a[0] < b[0] || (a[0] == b[0] && Below(a[1..], b[1..])))
  }

  lemma BelowIrreflexive(a: string)
    ensures !Below(a, a)
  {
  }

  lemma {:induction false} BelowAsymmetric(a: string, b: string)
    ensures !(Below(a, b) && Below(b, a))
  {
    if |a| > 0 && |b| > 0 && a[0] == b[0] {
      BelowAsymmetric(a[1..], b[1..]);
    }
  }

  lemma {:induction false} BelowTransitive(a: string, b: string, c: string)
    requires Below(a, b) && Below(b, c)
    ensures Below(a, c)
  {
    if |a| > 0 && a[0] == b[0] && b[0] == c[0] {
      BelowTransitive(a[1..], b[1..], c[1..]);
    }
  }

  lemma {:induction false} BelowTotal(a: string, b: string)
    ensures a == b || Below(a, b) || Below(b, a)
  {
    if |a| > 0 && |b| > 0 && a[0] == b[0] {
      BelowTotal(a[1..], b[1..]);
      if a[1..] == b[1..] {
        assert a == [a[0]] + a[1..] && b == [b[0]] + b[1..];
      }
    }
  }

  predicate SortedBySymbol(rows: seq<HoldingEntity>) {
    forall i, j :: 0 <= i < j < |rows| ==> Below(rows[i].symbol, rows[j].symbol)
  }

  predicate DistinctSymbols(rows: seq<HoldingEntity>) {
    forall i, j :: 0 <= i < j < |rows| ==> rows[i].symbol != rows[j].symbol
  }

  /** `rows` lists the table: one row per key, each exactly as stored. */
  predicate ListsStore(rows: seq<HoldingEntity>, store: Store) {
    && |rows| == |store|
    && DistinctSymbols(rows)
    && (forall i :: 0 <= i < |rows| ==> rows[i].symbol in store && store[rows[i].symbol] == rows[i])
    && (forall k :: k in store ==> store[k] in rows)
  }

  /** The last row of `batch` whose symbol is `k`, if any. */
  function LastWith(batch: seq<HoldingEntity>, k: string): (r: Option<HoldingEntity>)
    ensures r.None? <==> forall i :: 0 <= i < |batch| ==> batch[i].symbol != k
    ensures r.Some? ==> r.value.symbol == k && exists i :: (0 <= i < |batch| && batch[i] == r.value &&
      forall j :: i < j < |batch| ==> batch[j].symbol != k)
  {
    if |batch| == 0 then None
    else if batch[|batch| - 1].symbol == k then Some(batch[|batch| - 1])
    else LastWith(batch[..|batch| - 1], k)
  }

  /** The last row of a batch with a given symbol is the one `LastWith` finds. */
  lemma LastWithAtLastOccurrence(batch: seq<HoldingEntity>, i: nat)
    requires i < |batch|
    requires forall j :: i < j < |batch| ==> batch[j].symbol != batch[i].symbol
    ensures LastWith(batch, batch[i].symbol) == Some(batch[i])
  {
    var r := LastWith(batch, batch[i].symbol);
    var i' :| 0 <= i' < |batch| && batch[i'] == r.value &&
      forall j :: i' < j < |batch| ==> batch[j].symbol != batch[i].symbol;
    assert batch[i'].symbol == batch[i].symbol;
    assert i' == i;
  }

  /** `insertHoldings` with `OnConflictStrategy.REPLACE`: each row in turn
      replaces any row with its key. Keys absent from the batch keep their
      rows; within the batch the last row for a key wins. */
  function InsertHoldings(store: Store, batch: seq<HoldingEntity>): (r: Store)
    ensures forall k :: k in r <==> k in store || LastWith(batch, k).Some?
    ensures forall k :: LastWith(batch, k).Some? ==> k in r && r[k] == LastWith(batch, k).value
    ensures forall k :: k in store && LastWith(batch, k).None? ==> r[k] == store[k]
    ensures WellKeyed(store) ==> WellKeyed(r)
  {
    if |batch| == 0 then store
    else
      var e := batch[|batch| - 1];
      InsertHoldings(store, batch[..|batch| - 1])[e.symbol := e]
  }

  /** `deleteAllHoldings`. */
  function DeleteAllHoldings(store: Store): (r: Store)
    ensures |r| == 0
  {
    map[]
  }

  /** Inserting an empty batch changes nothing. */
  lemma InsertEmptyBatch(store: Store)
    ensures InsertHoldings(store, []) == store
  {
  }

  /** Writing the same batch twice is the same as writing it once. */
  lemma InsertIdempotent(store: Store, batch: seq<HoldingEntity>)
    ensures InsertHoldings(InsertHoldings(store, batch), batch) == InsertHoldings(store, batch)
  {
    var once := InsertHoldings(store, batch);
    var twice := InsertHoldings(once, batch);
    assert twice.Keys == once.Keys;
  }

  /** The insert is an upsert, not a replace-all: a row whose symbol the
      batch does not mention survives it. */
  lemma UpsertKeepsStaleRows()
    ensures var stale := HoldingEntity("OLD", 1, 100, 100, 100);
      var added := HoldingEntity("NEW", 2, 200, 200, 200);
      InsertHoldings(map["OLD" := stale], [added]) == map["OLD" := stale, "NEW" := added]
  {
    var added := HoldingEntity("NEW", 2, 200, 200, 200);
    assert LastWith([added], "OLD").None?;
  }

  /** Inserting a new row into a sorted listing keeps it sorted. */
  function InsertSorted(rows: seq<HoldingEntity>, e: HoldingEntity): (r: seq<HoldingEntity>)
    requires SortedBySymbol(rows)
    requires forall i :: 0 <= i < |rows| ==> rows[i].symbol != e.symbol
    ensures SortedBySymbol(r)
    ensures |r| == |rows| + 1
    ensures forall x :: x in r <==> x in rows || x == e
  {
    if |rows| == 0 then [e]
    else if Below(e.symbol, rows[0].symbol) then
      var r := [e] + rows;
      forall j | 0 < j < |r| ensures Below(e.symbol, r[j].symbol) {
        if j > 1 {
          BelowTransitive(e.symbol, rows[0].symbol, rows[j - 1].symbol);
        }
      }
      r
    else
      BelowTotal(e.symbol, rows[0].symbol);
      var tail := InsertSorted(rows[1..], e);
      var r := [rows[0]] + tail;
      assert forall j :: 0 < j < |r| ==> r[j] in rows[1..] || r[j] == e;
      assert forall j :: 0 < j < |r| ==> Below(rows[0].symbol, r[j].symbol);
      r
  }

  /** `getAllHoldings()` (`SELECT * FROM holdings ORDER BY symbol ASC`): the
      current contents, ascending by symbol. */
  method GetAllHoldings(store: Store) returns (rows: seq<HoldingEntity>)
    requires WellKeyed(store)
    ensures ListsStore(rows, store)
    ensures SortedBySymbol(rows)
  {
    var remaining := store.Keys;
    rows := [];
    while remaining != {}
      invariant remaining <= store.Keys
      invariant SortedBySymbol(rows)
      invariant |rows| + |remaining| == |store|
      invariant forall x :: x in rows ==> x.symbol in store && store[x.symbol] == x && x.symbol !in remaining
      invariant forall k :: k in store && k !in remaining ==> store[k] in rows
      decreases remaining
    {
      var k :| k in remaining;
      rows := InsertSorted(rows, store[k]);
      remaining := remaining - {k};
    }
    assert store.Keys - remaining == store.Keys;
    forall i, j | 0 <= i < j < |rows| ensures rows[i].symbol != rows[j].symbol {
      BelowIrreflexive(rows[i].symbol);
    }
  }

  /** `getAllHoldingsSync()` (`SELECT * FROM holdings`, no `ORDER BY`): the
      same rows in an order the model leaves open. */
  method GetAllHoldingsSync(store: Store) returns (rows: seq<HoldingEntity>)
    requires WellKeyed(store)
    ensures ListsStore(rows, store)
  {
    var remaining := store.Keys;
    rows := [];
    while remaining != {}
      invariant remaining <= store.Keys
      invariant DistinctSymbols(rows)
      invariant |rows| + |remaining| == |store|
      invariant forall i :: 0 <= i < |rows| ==>
        rows[i].symbol in store && store[rows[i].symbol] == rows[i] && rows[i].symbol !in remaining
      invariant forall k :: k in store && k !in remaining ==> store[k] in rows
      decreases remaining
    {
      var k :| k in remaining;
      rows := rows + [store[k]];
      remaining := remaining - {k};
    }
  }

  lemma SameElementsBothEmpty<T>(a: seq<T>, b: seq<T>)
    requires forall x :: x in a <==> x in b
    ensures |a| == 0 <==> |b| == 0
  {
    if |a| > 0 {
      assert a[0] in b;
    }
    if |b| > 0 {
      assert b[0] in a;
    }
  }

  /** Two sorted listings with the same rows are the same listing: the
      ordered query is deterministic. */
  lemma {:induction false} SortedListingUnique(a: seq<HoldingEntity>, b: seq<HoldingEntity>)
    requires SortedBySymbol(a) && SortedBySymbol(b)
    requires forall x :: x in a <==> x in b
    ensures a == b
    decreases |a|
  {
    SameElementsBothEmpty(a, b);
    if |a| > 0 {
      assert a[0] in b;
      assert b[0] in a;
      if a[0] != b[0] {
        var i :| 0 <= i < |a| && a[i] == b[0];
        var j :| 0 <= j < |b| && b[j] == a[0];
        assert i > 0 && j > 0;
        BelowAsymmetric(a[0].symbol, b[0].symbol);
        assert false;
      }
      forall x ensures x in a[1..] <==> x in b[1..] {
        BelowIrreflexive(a[0].symbol);
        if x in a[1..] {
          var i :| 0 <= i < |a| - 1 && a[1..][i] == x;
          assert a[i + 1] == x && Below(a[0].symbol, x.symbol);
          assert x in a;
          var j :| 0 <= j < |b| && b[j] == x;
          assert j > 0 && b[1..][j - 1] == x;
        }
        if x in b[1..] {
          var j :| 0 <= j < |b| - 1 && b[1..][j] == x;
          assert b[j + 1] == x && Below(b[0].symbol, x.symbol);
          assert x in b;
          var i :| 0 <= i < |a| && a[i] == x;
          assert i > 0 && a[1..][i - 1] == x;
        }
      }
      SortedListingUnique(a[1..], b[1..]);
      assert a == [a[0]] + a[1..] && b == [b[0]] + b[1..];
    }
  }

  /** The ordered and the unordered query return the same rows. */
  lemma ListingsHaveSameRows(sorted: seq<HoldingEntity>, unsorted: seq<HoldingEntity>, store: Store)
    requires WellKeyed(store)
    requires ListsStore(sorted, store) && ListsStore(unsorted, store)
    ensures forall x :: x in sorted <==> x in unsorted
  {
    forall x | x in sorted ensures x in unsorted {
      var i :| 0 <= i < |sorted| && sorted[i] == x;
    }
    forall x | x in unsorted ensures x in sorted {
      var i :| 0 <= i < |unsorted| && unsorted[i] == x;
    }
  }
}
