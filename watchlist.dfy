/** The watchlist routes (backend/app/api/watchlist_router.py) over a `SymbolTable`. */
module Watchlist {
  import opened Wrappers
  import opened Text
  import opened SymbolItems

  const ListName := "watchlist"

  /** `get_watchlist`: exactly the current user's rows. */
  function GetWatchlist(table: SymbolTable, userId: int): (r: seq<Item>)
    reads table
    ensures forall i :: 0 <= i < |r| ==> r[i] in table.items && r[i].userId == userId
    ensures forall i :: 0 <= i < |table.items| && table.items[i].userId == userId ==> table.items[i] in r
  {
    table.Get(userId)
  }

  /** `add_to_watchlist`. */
  method AddToWatchlist(table: SymbolTable, userId: int, symbol: string) returns (r: Result<Item, HttpError>)
    requires table.Valid()
    modifies table
    ensures table.Valid()
    ensures var o := AddSpec(old(table.items), old(table.nextId), userId, symbol, ListName);
      r == o.result && table.items == o.items
    ensures table.nextId == if r.Ok? then old(table.nextId) + 1 else old(table.nextId)
  {
    r := table.Add(userId, symbol, ListName);
  }

  /** `remove_from_watchlist`. */
  method RemoveFromWatchlist(table: SymbolTable, userId: int, symbol: string) returns (r: Result<string, HttpError>)
    requires table.Valid()
    modifies table
    ensures table.Valid()
    ensures var o := RemoveSpec(old(table.items), userId, symbol, ListName);
      r == o.result && table.items == o.items
    ensures table.nextId == old(table.nextId)
  {
    r := table.Remove(userId, symbol, ListName);
  }

  /** `clear_watchlist`: "Cleared {n} items from watchlist", n the number of rows deleted. */
  method ClearWatchlist(table: SymbolTable, userId: int) returns (message: string)
    requires table.Valid()
    modifies table
    ensures table.Valid()
    ensures table.items == ClearSpec(old(table.items), userId).items && table.nextId == old(table.nextId)
    ensures message == "Cleared " + IntToString(|ItemsOf(old(table.items), userId)|) + " items from " + ListName
  {
    var deleted := table.Clear(userId);
    message := "Cleared " + IntToString(deleted) + " items from " + ListName;
  }
}
