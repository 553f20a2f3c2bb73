/** `PortfolioLocalDataSource`: the holdings table seen as domain items. */
module PortfolioLocalDataSource {
  import opened Common
  import opened Model
  import opened HoldingMapper
  import opened HoldingDao

  /** The row `saveHoldings` writes for one item: the stored columns only,
      dropping the derived `pnl` and `pnlPercentage`. */
  function ItemToEntity(i: PortfolioItem): (e: HoldingEntity)
    ensures e.symbol == i.symbol && e.quantity == i.quantity
    ensures e.ltp == i.ltp && e.avgPrice == i.avgPrice && e.close == i.close
    ensures EntityToDomain(e).symbol == i.symbol
    ensures IsDerived(i) ==> EntityToDomain(e) == i
  {
    HoldingEntity(i.symbol, i.quantity, i.ltp, i.avgPrice, i.close)
  }

  function Entities(items: seq<PortfolioItem>): (r: seq<HoldingEntity>)
    ensures |r| == |items|
    ensures forall k :: 0 <= k < |items| ==> r[k] == ItemToEntity(items[k])
  {
    seq(|items|, k requires 0 <= k < |items| => ItemToEntity(items[k]))
  }

  /** `items` is the store read through `toDomain`: one item per row. */
  predicate ListsDomain(items: seq<PortfolioItem>, store: Store) {
    && |items| == |store|
    && (forall k :: 0 <= k < |items| ==>
          items[k].symbol in store && items[k] == EntityToDomain(store[items[k].symbol]))
    && (forall s :: s in store ==> EntityToDomain(store[s]) in items)
  }

  predicate ItemsSortedBySymbol(items: seq<PortfolioItem>) {
    forall i, j :: 0 <= i < j < |items| ==> Below(items[i].symbol, items[j].symbol)
  }

  function ToDomainAll(rows: seq<HoldingEntity>): (r: seq<PortfolioItem>)
    ensures |r| == |rows|
    ensures forall k :: 0 <= k < |rows| ==> r[k] == EntityToDomain(rows[k])
  {
    seq(|rows|, k requires 0 <= k < |rows| => EntityToDomain(rows[k]))
  }

  /** `getHoldings()`: the current rows, ascending by symbol, each with its
      profit and loss derived. */
  method GetHoldings(store: Store) returns (items: seq<PortfolioItem>)
    requires WellKeyed(store)
    ensures ListsDomain(items, store)
    ensures ItemsSortedBySymbol(items)
    ensures forall k :: 0 <= k < |items| ==> IsDerived(items[k])
  {
    var rows := GetAllHoldings(store);
    items := ToDomainAll(rows);
  }

  /** `getHoldingsSync()`: the same items in an order left open. */
  method GetHoldingsSync(store: Store) returns (items: seq<PortfolioItem>)
    requires WellKeyed(store)
    ensures ListsDomain(items, store)
    ensures forall k :: 0 <= k < |items| ==> IsDerived(items[k])
  {
    var rows := GetAllHoldingsSync(store);
    items := ToDomainAll(rows);
  }

  /** `items[k]` is the last item with its symbol. */
  predicate LastOfSymbol(items: seq<PortfolioItem>, k: nat)
    requires k < |items|
  {
    forall j :: k < j < |items| ==> items[j].symbol != items[k].symbol
  }

  /** `saveHoldings(holdings)`: upsert of the stored columns of each item;
      where several items share a symbol, the last one's row is kept. */
  function SaveHoldings(store: Store, items: seq<PortfolioItem>): (r: Store)
    ensures WellKeyed(store) ==> WellKeyed(r)
    ensures forall k :: 0 <= k < |items| ==> items[k].symbol in r
    ensures forall k :: 0 <= k < |items| && LastOfSymbol(items, k) ==>
      r[items[k].symbol] == ItemToEntity(items[k])
    ensures forall s :: s in store ==> s in r
    ensures forall s :: s in r ==> s in store || exists k :: 0 <= k < |items| && items[k].symbol == s
    ensures forall s :: s in store && (forall k :: 0 <= k < |items| ==> items[k].symbol != s) ==>
      r[s] == store[s]
  {
    var batch := Entities(items);
    var r := InsertHoldings(store, batch);
    assert forall k :: 0 <= k < |items| ==> batch[k].symbol == items[k].symbol;
    forall k | 0 <= k < |items| && LastOfSymbol(items, k)
      ensures r[items[k].symbol] == ItemToEntity(items[k])
    {
      LastWithAtLastOccurrence(batch, k);
    }
    r
  }

  /** `clearHoldings()`. */
  function ClearHoldings(store: Store): (r: Store)
    ensures |r| == 0
  {
    DeleteAllHoldings(store)
  }

  predicate DistinctItemSymbols(items: seq<PortfolioItem>) {
    forall i, j :: 0 <= i < j < |items| ==> items[i].symbol != items[j].symbol
  }

  /** The row saved for an item whose symbol no other item shares is that
      item's row. */
  lemma SavedRowOfItem(store: Store, items: seq<PortfolioItem>, k: nat)
    requires k < |items| && DistinctItemSymbols(items)
    ensures SaveHoldings(store, items)[items[k].symbol] == ItemToEntity(items[k])
  {
    var batch := Entities(items);
    var last := LastWith(batch, items[k].symbol);
    assert batch[k].symbol == items[k].symbol;
    var i :| 0 <= i < |batch| && batch[i] == last.value;
    assert items[i].symbol == items[k].symbol;
  }

  /** Saving derived items with distinct symbols into an empty table and
      reading them back yields exactly those items. */
  lemma SaveThenReadRoundTrip(items: seq<PortfolioItem>, read: seq<PortfolioItem>)
    requires forall k :: 0 <= k < |items| ==> IsDerived(items[k])
    requires DistinctItemSymbols(items)
    requires ListsDomain(read, SaveHoldings(map[], items))
    ensures forall x :: x in read <==> x in items
  {
    var store := SaveHoldings(map[], items);
    forall x | x in items ensures x in read {
      var k :| 0 <= k < |items| && items[k] == x;
      SavedRowOfItem(map[], items, k);
    }
    forall x | x in read ensures x in items {
      var j :| 0 <= j < |read| && read[j] == x;
      var k :| 0 <= k < |items| && items[k].symbol == x.symbol;
      SavedRowOfItem(map[], items, k);
    }
  }

  /** Clearing and then saving leaves exactly the saved symbols. */
  lemma ClearThenSaveKeepsOnlySaved(store: Store, items: seq<PortfolioItem>)
    ensures forall s :: s in SaveHoldings(ClearHoldings(store), items) <==>
      exists k :: 0 <= k < |items| && items[k].symbol == s
  {
  }

  /** Saving an empty list writes an empty batch and changes nothing. */
  lemma SaveNothingChangesNothing(store: Store)
    ensures SaveHoldings(store, []) == store
  {
    assert Entities([]) == [];
  }
}
