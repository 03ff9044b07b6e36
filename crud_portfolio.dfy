/**
 * Portfolio items (backend/app/crud.py and its router
 * backend/app/api/portfolio_router.py), listed, created and deleted per
 * owner. A row is `(id, owner_id)` plus the fields of `PortfolioCreate`,
 * `ticker: str` and `quantity: int` (backend/app/schemas/portfolio.py), which
 * `create_portfolio_item` spreads into the row with `item.dict()`.
 */
module CrudPortfolio {
  import opened Wrappers
  import opened Seqs

  /** One portfolio row. `created_at` is left out. */
  datatype PortfolioItem = PortfolioItem(id: int, ownerId: int, ticker: string, quantity: int)

  /** The body of a create request: `PortfolioCreate`, whose fields are those of `PortfolioBase`. */
  datatype PortfolioCreate = PortfolioCreate(ticker: string, quantity: int)

  const ItemNotFound := HttpError(404, "Item not found")

  /** `filter(owner_id == userId).all()`. */
  function ItemsOf(items: seq<PortfolioItem>, userId: int): (r: seq<PortfolioItem>)
    ensures forall i :: 0 <= i < |r| ==> r[i] in items && r[i].ownerId == userId
    ensures forall i :: 0 <= i < |items| && items[i].ownerId == userId ==> items[i] in r
  {
    Filter(items, (x: PortfolioItem) => x.ownerId == userId)
  }

  /** Every row except the one with primary key `id`. */
  function DropId(items: seq<PortfolioItem>, id: int): (r: seq<PortfolioItem>)
    ensures forall i :: 0 <= i < |r| ==> r[i] in items && r[i].id != id
    ensures forall i :: 0 <= i < |items| && items[i].id != id ==> items[i] in r
  {
    Filter(items, (x: PortfolioItem) => x.id != id)
  }

  /** `filter(id == itemId, owner_id == userId).first()`. */
  function FindOwned(items: seq<PortfolioItem>, itemId: int, userId: int): (r: Option<PortfolioItem>)
    ensures r.Some? ==> r.value in items && r.value.id == itemId && r.value.ownerId == userId
    ensures r.None? <==> forall x :: x in items ==> x.id != itemId || x.ownerId != userId
  {
    if items == [] then None
    else if items[0].id == itemId && items[0].ownerId == userId then Some(items[0])
    else FindOwned(items[1..], itemId, userId)
  }

  /** Primary keys below the next autoincrement value and pairwise distinct. */
  ghost predicate PortfolioInvariant(items: seq<PortfolioItem>, nextId: int) {
    && 1 <= nextId
    && (forall x :: x in items ==> 1 <= x.id < nextId)
    && Pairwise(items, (x: PortfolioItem, y: PortfolioItem) => x.id != y.id)
  }

  /** The row a delete returns and the rows it leaves behind. */
  datatype Deleted = Deleted(item: Option<PortfolioItem>, items: seq<PortfolioItem>)

  /** `delete_portfolio_item`: remove the owner's row with that id, if there is one, and return it. */
  function DeleteSpec(items: seq<PortfolioItem>, itemId: int, userId: int): (d: Deleted)
    ensures d.item.None? ==> d.items == items
  {
    match FindOwned(items, itemId, userId)
    case None => Deleted(None, items)
    case Some(x) => Deleted(Some(x), DropId(items, x.id))
  }

  /** The router's answer to a delete: the removed row, or 404 "Item not found". */
  function DeleteResponse(d: Deleted): (r: Result<PortfolioItem, HttpError>)
    ensures r.Ok? <==> d.item.Some?
    ensures r.Ok? ==> r.value == d.item.value
    ensures r.Err? ==> r.error == ItemNotFound
  {
    match d.item
    case Some(x) => Ok(x)
    case None => Err(ItemNotFound)
  }

  // ---------------------------------------------------------------------------
  // Properties

  /** The new row is the only one the owner gains; nobody else's listing changes. */
  lemma CreateScoped(items: seq<PortfolioItem>, x: PortfolioItem, other: int)
    requires other != x.ownerId
    ensures ItemsOf(items + [x], x.ownerId) == ItemsOf(items, x.ownerId) + [x]
    ensures ItemsOf(items + [x], other) == ItemsOf(items, other)
  {
    FilterSnoc(items, x, (y: PortfolioItem) => y.ownerId == x.ownerId);
    FilterSnoc(items, x, (y: PortfolioItem) => y.ownerId == other);
  }

  /** Appending a row under the next id keeps the keys fresh and distinct. */
  lemma CreateKeepsInvariant(items: seq<PortfolioItem>, nextId: int, x: PortfolioItem)
    requires PortfolioInvariant(items, nextId) && x.id == nextId
    ensures PortfolioInvariant(items + [x], nextId + 1)
  {
    SnocPairwise(items, x, (a: PortfolioItem, b: PortfolioItem) => a.id != b.id);
  }

  /**
   * A delete succeeds exactly when the caller owns a row with that id; it then
   * removes that row and only it, and the id is gone afterwards.
   */
  lemma DeleteSpecOutcome(items: seq<PortfolioItem>, nextId: int, itemId: int, userId: int)
    requires PortfolioInvariant(items, nextId)
    ensures var d := DeleteSpec(items, itemId, userId);
      && (d.item.Some? <==> exists x :: x in items && x.id == itemId && x.ownerId == userId)
      && (d.item.Some? ==> d.item.value in items && d.item.value.id == itemId && d.item.value.ownerId == userId)
      && (d.item.Some? ==> |d.items| == |items| - 1)
      && (d.item.Some? ==> forall x :: x in d.items <==> x in items && x.id != itemId)
      && PortfolioInvariant(d.items, nextId)
  {
    var d := DeleteSpec(items, itemId, userId);
    var p := (x: PortfolioItem) => x.id != itemId;
    var R := (a: PortfolioItem, b: PortfolioItem) => a.id != b.id;
    if d.item.Some? {
      var x := d.item.value;
      var k :| 0 <= k < |items| && items[k] == x;
      forall j | 0 <= j < |items| && j != k ensures p(items[j]) {
        if j < k { assert R(items[j], items[k]); } else { assert R(items[k], items[j]); }
      }
      OneDropped(items, k, p);
      FilterPairwise(items, p, R);
      forall y ensures y in d.items <==> y in items && y.id != itemId {
        if y in items && y.id != itemId {
          var j :| 0 <= j < |items| && items[j] == y;
          assert items[j] in d.items;
        }
        if y in d.items {
          var j :| 0 <= j < |d.items| && d.items[j] == y;
          assert d.items[j] in items;
        }
      }
    }
  }

  /** Removing by a predicate that fails only at index `k` shortens the sequence by one. */
  lemma {:induction false} OneDropped(s: seq<PortfolioItem>, k: nat, p: PortfolioItem -> bool)
    requires k < |s| && !p(s[k])
    requires forall j :: 0 <= j < |s| && j != k ==> p(s[j])
    ensures |Filter(s, p)| == |s| - 1
    decreases |s|
  {
    var s' := s[..|s| - 1];
    if k == |s| - 1 {
      FilterAll(s', p);
    } else {
      OneDropped(s', k, p);
    }
  }

  /** Deleting someone else's row, or an id that does not exist, answers 404 and changes nothing. */
  lemma DeleteOthersRefused(items: seq<PortfolioItem>, itemId: int, userId: int)
    requires forall x :: x in items && x.id == itemId ==> x.ownerId != userId
    ensures DeleteSpec(items, itemId, userId) == Deleted(None, items)
    ensures DeleteResponse(DeleteSpec(items, itemId, userId)) == Err(ItemNotFound)
  {
  }

  /** A delete leaves every other owner's listing as it was. */
  lemma DeleteKeepsOthers(items: seq<PortfolioItem>, nextId: int, itemId: int, userId: int, other: int)
    requires PortfolioInvariant(items, nextId) && other != userId
    ensures ItemsOf(DeleteSpec(items, itemId, userId).items, other) == ItemsOf(items, other)
  {
    var d := DeleteSpec(items, itemId, userId);
    if d.item.Some? {
      var p := (x: PortfolioItem) => x.id != itemId;
      var q := (x: PortfolioItem) => x.ownerId == other;
      var pq := (x: PortfolioItem) => p(x) && q(x);
      assert d.items == Filter(items, p);
      FilterFilter(items, p, q, pq);
      IdsUnique(items, nextId, d.item.value);
      FilterCongruent(items, q, pq);
    }
  }

  /** In a table with distinct keys a row is the only one with its id. */
  lemma IdsUnique(items: seq<PortfolioItem>, nextId: int, x: PortfolioItem)
    requires PortfolioInvariant(items, nextId) && x in items
    ensures forall y :: y in items && y.id == x.id ==> y == x
  {
    forall y | y in items && y.id == x.id ensures y == x {
      var i :| 0 <= i < |items| && items[i] == y;
      var j :| 0 <= j < |items| && items[j] == x;
      assert i == j;
    }
  }

  /** Creating an item and then deleting it by its new id restores the table. */
  lemma CreateThenDelete(items: seq<PortfolioItem>, nextId: int, body: PortfolioCreate, userId: int)
    requires PortfolioInvariant(items, nextId)
    ensures var x := PortfolioItem(nextId, userId, body.ticker, body.quantity);
      DeleteSpec(items + [x], nextId, userId) == Deleted(Some(x), items)
  {
    var x := PortfolioItem(nextId, userId, body.ticker, body.quantity);
    FindOwnedLast(items, x);
    var p := (y: PortfolioItem) => y.id != nextId;
    FilterSnoc(items, x, p);
    FilterAll(items, p);
  }

  lemma {:induction false} FindOwnedLast(items: seq<PortfolioItem>, x: PortfolioItem)
    requires forall y :: y in items ==> y.id != x.id
    ensures FindOwned(items + [x], x.id, x.ownerId) == Some(x)
    decreases |items|
  {
    if items != [] {
      assert (items + [x])[1..] == items[1..] + [x];
      FindOwnedLast(items[1..], x);
    } else {
      assert (items + [x])[0] == x;
    }
  }

  // ---------------------------------------------------------------------------
  // The table

  /** The portfolio table: its rows and the next autoincrement id. */
  class PortfolioTable {
    var items: seq<PortfolioItem>
    var nextId: int

    ghost predicate Valid()
      reads this
    {
      PortfolioInvariant(items, nextId)
    }

    constructor ()
      ensures Valid() && items == [] && nextId == 1
    {
      items := [];
      nextId := 1;
    }

    /** `get_portfolio_items`: the rows owned by `userId`. */
    function GetPortfolioItems(userId: int): (r: seq<PortfolioItem>)
      reads this
      ensures forall i :: 0 <= i < |r| ==> r[i] in items && r[i].ownerId == userId
      ensures forall i :: 0 <= i < |items| && items[i].ownerId == userId ==> items[i] in r
    {
      ItemsOf(items, userId)
    }

    /** `create_portfolio_item`: store the request's fields under the caller and the next id. */
    method CreatePortfolioItem(body: PortfolioCreate, userId: int) returns (x: PortfolioItem)
      requires Valid()
      modifies this
      ensures Valid()
      ensures x == PortfolioItem(old(nextId), userId, body.ticker, body.quantity)
      ensures items == old(items) + [x] && nextId == old(nextId) + 1
    {
      x := PortfolioItem(nextId, userId, body.ticker, body.quantity);
      CreateKeepsInvariant(items, nextId, x);
      items := items + [x];
      nextId := nextId + 1;
    }

    /** `delete_portfolio_item` followed by the router's 404 for a missing row. */
    method DeletePortfolioItem(itemId: int, userId: int) returns (r: Result<PortfolioItem, HttpError>)
      requires Valid()
      modifies this
      ensures Valid()
      ensures var d := DeleteSpec(old(items), itemId, userId);
        r == DeleteResponse(d) && items == d.items && nextId == old(nextId)
    {
      DeleteSpecOutcome(items, nextId, itemId, userId);
      var found := FindOwned(items, itemId, userId);
      if found.None? {
        return Err(ItemNotFound);
      }
      items := DropId(items, found.value.id);
      r := Ok(found.value);
    }
  }
}
