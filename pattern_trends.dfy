/** The pattern-trends routes (backend/app/api/pattern_trends_router.py) over a `SymbolTable`. */
module PatternTrends {
  import opened Wrappers
  import opened SymbolItems

  const ListName := "pattern trends"

  /** `get_pattern_trends`: exactly the current user's rows. */
  function GetPatternTrends(table: SymbolTable, userId: int): (r: seq<Item>)
    reads table
    ensures forall i :: 0 <= i < |r| ==> r[i] in table.items && r[i].userId == userId
    ensures forall i :: 0 <= i < |table.items| && table.items[i].userId == userId ==> table.items[i] in r
  {
    table.Get(userId)
  }

  /** `add_to_pattern_trends`. */
  method AddToPatternTrends(table: SymbolTable, userId: int, symbol: string) returns (r: Result<Item, HttpError>)
    requires table.Valid()
    modifies table
    ensures table.Valid()
    ensures var o := AddSpec(old(table.items), old(table.nextId), userId, symbol, ListName);
      r == o.result && table.items == o.items
    ensures table.nextId == if r.Ok? then old(table.nextId) + 1 else old(table.nextId)
  {
    r := table.Add(userId, symbol, ListName);
  }

  /** `remove_from_pattern_trends`. */
  method RemoveFromPatternTrends(table: SymbolTable, userId: int, symbol: string) returns (r: Result<string, HttpError>)
    requires table.Valid()
    modifies table
    ensures table.Valid()
    ensures var o := RemoveSpec(old(table.items), userId, symbol, ListName);
      r == o.result && table.items == o.items
    ensures table.nextId == old(table.nextId)
  {
    r := table.Remove(userId, symbol, ListName);
  }
}
