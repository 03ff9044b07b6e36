/**
 * The per-user symbol lists behind the watchlist and pattern-trends routes
 * (backend/app/api/watchlist_router.py, backend/app/api/pattern_trends_router.py):
 * rows `(id, user_id, symbol)`, symbols normalised with `strip().upper()`,
 * at most one row per user and symbol.
 */
module SymbolItems {
  import opened Wrappers
  import opened Text
  import opened Seqs

  /** One row of a symbol list. `created_at` is left out. */
  datatype Item = Item(id: int, userId: int, symbol: string)

  /** What a route reports and the rows it leaves behind. */
  datatype Outcome<R> = Outcome(result: Result<R, HttpError>, items: seq<Item>)

  const EmptySymbol := HttpError(400, "Symbol cannot be empty")

  /** `symbol.strip().upper()`. */
  function Normalize(raw: string): (sym: string)
    ensures |sym| <= |raw|
    ensures sym == [] || (!IsSpace(Python, sym[0]) && !IsSpace(Python, sym[|sym| - 1]))
    ensures forall i :: 0 <= i < |sym| ==> !('a' <= sym[i] <= 'z')
  {
    Upper(Trim(Python, raw))
  }

  /** Normalising a normalised symbol changes nothing. */
  lemma NormalizeIdempotent(raw: string)
    ensures Normalize(Normalize(raw)) == Normalize(raw)
  {
    var sym := Normalize(raw);
    TrimClean(Python, sym);
    UpperOfUpper(sym);
  }

  lemma UpperOfUpper(s: string)
    requires forall i :: 0 <= i < |s| ==> !('a' <= s[i] <= 'z')
    ensures Upper(s) == s
  {
    var u := Upper(s);
    forall i | 0 <= i < |s| ensures u[i] == s[i] {
    }
  }

  /** Surrounding whitespace does not matter. */
  lemma NormalizePadded(pre: string, raw: string, post: string)
    requires AllSpace(Python, pre) && AllSpace(Python, post)
    ensures Normalize(pre + raw + post) == Normalize(raw)
  {
    TrimPadded(Python, pre, raw, post);
  }

  /** Letter case does not matter. */
  lemma NormalizeIgnoresCase(raw: string)
    ensures Normalize(Lower(raw)) == Normalize(raw)
  {
    TrimLower(Python, raw);
    UpperOfLower(Trim(Python, raw));
  }

  /** A whitespace-only symbol normalises to the empty string. */
  lemma NormalizeBlank()
    ensures Normalize("   ") == ""
  {
    BlankIffAllSpace(Python, "   ");
  }

  /** `filter(user_id == userId).all()`. */
  function ItemsOf(items: seq<Item>, userId: int): (r: seq<Item>)
    ensures forall i :: 0 <= i < |r| ==> r[i] in items && r[i].userId == userId
    ensures forall i :: 0 <= i < |items| && items[i].userId == userId ==> items[i] in r
  {
    Filter(items, (x: Item) => x.userId == userId)
  }

  /** The rows of every other user. */
  function OthersOf(items: seq<Item>, userId: int): (r: seq<Item>)
    ensures forall i :: 0 <= i < |r| ==> r[i] in items && r[i].userId != userId
    ensures forall i :: 0 <= i < |items| && items[i].userId != userId ==> items[i] in r
  {
    Filter(items, (x: Item) => x.userId != userId)
  }

  /** Every row except the one with primary key `id`. */
  function DropId(items: seq<Item>, id: int): (r: seq<Item>)
    ensures forall i :: 0 <= i < |r| ==> r[i] in items && r[i].id != id
    ensures forall i :: 0 <= i < |items| && items[i].id != id ==> items[i] in r
    ensures |r| <= |items|
  {
    Filter(items, (x: Item) => x.id != id)
  }

  /** `filter(user_id == userId, symbol == sym).first()`. */
  function Find(items: seq<Item>, userId: int, sym: string): (r: Option<Item>)
    ensures r.Some? ==> r.value in items && r.value.userId == userId && r.value.symbol == sym
    ensures r.None? ==> forall x :: x in items ==> x.userId != userId || x.symbol != sym
  {
    if items == [] then None
    else if items[0].userId == userId && items[0].symbol == sym then Some(items[0])
    else Find(items[1..], userId, sym)
  }

  /**
   * A stored symbol: non-empty, no surrounding whitespace, no lower-case
   * ASCII letter; exactly the non-empty fixed points of `Normalize`.
   */
  predicate IsSymbol(s: string) {
    && s != []
    && !IsSpace(Python, s[0]) && !IsSpace(Python, s[|s| - 1])
    && forall i :: 0 <= i < |s| ==> !('a' <= s[i] <= 'z')
  }

  lemma IsSymbolIffFixed(s: string)
    ensures IsSymbol(s) <==> s != [] && Normalize(s) == s
  {
    if IsSymbol(s) {
      TrimClean(Python, s);
      UpperOfUpper(s);
    }
  }

  /** Two rows may not share an id, nor a (user, symbol) pair. */
  predicate Distinct(x: Item, y: Item) {
    x.id != y.id && (x.userId != y.userId || x.symbol != y.symbol)
  }

  /**
   * What the routes maintain: ids below the next autoincrement value, every
   * stored symbol non-empty and normalised, no two rows clashing.
   */
  ghost predicate TableInvariant(items: seq<Item>, nextId: int) {
    && 1 <= nextId
    && (forall x :: x in items ==> 1 <= x.id < nextId && IsSymbol(x.symbol))
    && Pairwise(items, Distinct)
  }

  // ---------------------------------------------------------------------------
  // The three write routes, as functions of the rows before

  /** `add_to_…`: normalise, refuse empty and duplicate symbols, otherwise insert. */
  function AddSpec(items: seq<Item>, nextId: int, userId: int, raw: string, listName: string): (o: Outcome<Item>)
    ensures o.result.Err? ==> o.items == items
    ensures o.result.Ok? ==> o.items == items + [o.result.value]
  {
    var sym := Normalize(raw);
    if sym == [] then Outcome(Err(EmptySymbol), items)
    else if Find(items, userId, sym).Some? then Outcome(Err(HttpError(400, "Symbol already in " + listName)), items)
    else Outcome(Ok(Item(nextId, userId, sym)), items + [Item(nextId, userId, sym)])
  }

  /** `remove_from_…`: normalise, 404 when the user has no such row, otherwise delete it. */
  function RemoveSpec(items: seq<Item>, userId: int, raw: string, listName: string): (o: Outcome<string>)
    ensures o.result.Err? ==> o.items == items
  {
    var sym := Normalize(raw);
    match Find(items, userId, sym)
    case None => Outcome(Err(HttpError(404, "Symbol not found in " + listName)), items)
    case Some(x) => Outcome(Ok("Removed " + sym + " from " + listName), DropId(items, x.id))
  }

  /** `clear_watchlist`: bulk-delete the user's rows, reporting how many went. */
  function ClearSpec(items: seq<Item>, userId: int): (o: Outcome<nat>)
    ensures o.result.Ok?
  {
    Outcome(Ok(|ItemsOf(items, userId)|), OthersOf(items, userId))
  }

  // ---------------------------------------------------------------------------
  // Properties of the routes

  /**
   * `add` succeeds exactly when the normalised symbol is non-empty and not yet
   * held by the user; it then stores the normalised symbol under the next id,
   * and otherwise answers 400.
   */
  lemma AddSpecOutcome(items: seq<Item>, nextId: int, userId: int, raw: string, listName: string)
    ensures var o := AddSpec(items, nextId, userId, raw, listName);
      var sym := Normalize(raw);
      && (o.result.Ok? <==> sym != [] && forall x :: x in items ==> x.userId != userId || x.symbol != sym)
      && (o.result.Ok? ==> o.result.value == Item(nextId, userId, sym))
      && (o.result.Err? ==> o.result.error.status == 400)
      && (sym == [] ==> o.result == Err(EmptySymbol))
  {
    var sym := Normalize(raw);
    if sym != [] && forall x :: x in items ==> x.userId != userId || x.symbol != sym {
      assert Find(items, userId, sym).None?;
    }
  }

  /** A successful `add` keeps the invariant: the new row is fresh and normalised. */
  lemma AddSpecKeepsInvariant(items: seq<Item>, nextId: int, userId: int, raw: string, listName: string)
    requires TableInvariant(items, nextId)
    ensures var o := AddSpec(items, nextId, userId, raw, listName);
      TableInvariant(o.items, if o.result.Ok? then nextId + 1 else nextId)
  {
    var sym := Normalize(raw);
    if sym != [] && Find(items, userId, sym).None? {
      AppendKeepsInvariant(items, nextId, Item(nextId, userId, sym));
    }
  }

  lemma AppendKeepsInvariant(items: seq<Item>, nextId: int, x: Item)
    requires TableInvariant(items, nextId)
    requires x.id == nextId && IsSymbol(x.symbol)
    requires forall y :: y in items ==> y.userId != x.userId || y.symbol != x.symbol
    ensures TableInvariant(items + [x], nextId + 1)
  {
    forall y | y in items ensures Distinct(y, x) {
    }
    SnocPairwise(items, x, Distinct);
  }

  lemma SubsetKeepsInvariant(items: seq<Item>, nextId: int, sub: seq<Item>)
    requires TableInvariant(items, nextId)
    requires Pairwise(sub, Distinct) && forall y :: y in sub ==> y in items
    ensures TableInvariant(sub, nextId)
  {
  }

  /** `add` and `remove` touch only the current user's rows. */
  lemma WritesKeepOthers(items: seq<Item>, nextId: int, userId: int, other: int, raw: string, listName: string)
    requires other != userId && Pairwise(items, Distinct)
    ensures ItemsOf(AddSpec(items, nextId, userId, raw, listName).items, other) == ItemsOf(items, other)
    ensures ItemsOf(RemoveSpec(items, userId, raw, listName).items, other) == ItemsOf(items, other)
    ensures ItemsOf(ClearSpec(items, userId).items, other) == ItemsOf(items, other)
  {
    var o := AddSpec(items, nextId, userId, raw, listName);
    if o.result.Ok? {
      FilterSnoc(items, o.result.value, (x: Item) => x.userId == other);
    }
    var f := Find(items, userId, Normalize(raw));
    if f.Some? {
      IdsUnique(items, f.value);
      DropOtherOwner(items, f.value.id, userId, other);
    }
    var pq := (x: Item) => x.userId != userId && x.userId == other;
    FilterFilter(items, (x: Item) => x.userId != userId, (x: Item) => x.userId == other, pq);
    FilterCongruent(items, (x: Item) => x.userId == other, pq);
  }

  /** In a table without clashes a row is the only one with its id. */
  lemma IdsUnique(items: seq<Item>, x: Item)
    requires Pairwise(items, Distinct) && x in items
    ensures forall y :: y in items && y.id == x.id ==> y == x
  {
    forall y | y in items && y.id == x.id ensures y == x {
      var i :| 0 <= i < |items| && items[i] == y;
      var j :| 0 <= j < |items| && items[j] == x;
      assert i == j;
    }
  }

  /** In a table without clashes a row is the only one of its user with its symbol. */
  lemma KeysUnique(items: seq<Item>, x: Item)
    requires Pairwise(items, Distinct) && x in items
    ensures forall y :: y in items && y.userId == x.userId && y.symbol == x.symbol ==> y == x
  {
    forall y | y in items && y.userId == x.userId && y.symbol == x.symbol ensures y == x {
      var i :| 0 <= i < |items| && items[i] == y;
      var j :| 0 <= j < |items| && items[j] == x;
      assert i == j;
    }
  }

  /** Dropping a row that belongs to `owner` leaves every other user's rows. */
  lemma DropOtherOwner(items: seq<Item>, id: int, owner: int, other: int)
    requires other != owner
    requires forall x :: x in items && x.id == id ==> x.userId == owner
    ensures ItemsOf(DropId(items, id), other) == ItemsOf(items, other)
  {
    var p := (x: Item) => x.id != id;
    var q := (x: Item) => x.userId == other;
    assert DropId(items, id) == Filter(items, p);
    assert ItemsOf(items, other) == Filter(items, q);
    assert ItemsOf(DropId(items, id), other) == Filter(Filter(items, p), q);
    var pq := (x: Item) => p(x) && q(x);
    FilterFilter(items, p, q, pq);
    FilterCongruent(items, q, pq);
  }

  /** After `clear` the user has no rows left, and the reported count is the number removed. */
  lemma ClearSpecEmpties(items: seq<Item>, userId: int)
    ensures var o := ClearSpec(items, userId);
      && ItemsOf(o.items, userId) == []
      && o.result.value == |items| - |o.items|
  {
    var o := ClearSpec(items, userId);
    FilterPartition(items, (x: Item) => x.userId == userId, (x: Item) => x.userId != userId);
    FilterNone(o.items, (x: Item) => x.userId == userId);
  }

  /** `clear` keeps the invariant. */
  lemma ClearSpecKeepsInvariant(items: seq<Item>, nextId: int, userId: int)
    requires TableInvariant(items, nextId)
    ensures TableInvariant(ClearSpec(items, userId).items, nextId)
  {
    FilterPairwise(items, (x: Item) => x.userId != userId, Distinct);
  }

  /** `remove` keeps the invariant, and afterwards the user no longer holds the symbol. */
  lemma RemoveSpecKeepsInvariant(items: seq<Item>, nextId: int, userId: int, raw: string, listName: string)
    requires TableInvariant(items, nextId)
    ensures var o := RemoveSpec(items, userId, raw, listName);
      && TableInvariant(o.items, nextId)
      && (o.result.Ok? <==> Find(items, userId, Normalize(raw)).Some?)
      && Find(o.items, userId, Normalize(raw)).None?
  {
    var sym := Normalize(raw);
    var f := Find(items, userId, sym);
    if f.Some? {
      var x := f.value;
      FilterPairwise(items, (y: Item) => y.id != x.id, Distinct);
      var rest := DropId(items, x.id);
      SubsetKeepsInvariant(items, nextId, rest);
      KeysUnique(items, x);
      forall y | y in rest ensures y.userId != userId || y.symbol != sym {
      }
      assert Find(rest, userId, sym).None?;
    }
  }

  /** Adding a symbol and then removing it restores the rows exactly. */
  lemma AddThenRemove(items: seq<Item>, nextId: int, userId: int, raw: string, listName: string)
    requires TableInvariant(items, nextId)
    requires AddSpec(items, nextId, userId, raw, listName).result.Ok?
    ensures var added := AddSpec(items, nextId, userId, raw, listName).items;
      RemoveSpec(added, userId, raw, listName).items == items
  {
    var o := AddSpec(items, nextId, userId, raw, listName);
    var x := o.result.value;
    AddSpecOutcome(items, nextId, userId, raw, listName);
    FindLast(items, x);
    var p := (y: Item) => y.id != nextId;
    FilterSnoc(items, x, p);
    FilterAll(items, p);
  }

  /** A row appended after everything with a different key is what `Find` returns for its key. */
  lemma {:induction false} FindLast(items: seq<Item>, x: Item)
    requires forall y :: y in items ==> y.userId != x.userId || y.symbol != x.symbol
    ensures Find(items + [x], x.userId, x.symbol) == Some(x)
    decreases |items|
  {
    if items != [] {
      assert (items + [x])[1..] == items[1..] + [x];
      FindLast(items[1..], x);
    } else {
      assert (items + [x])[0] == x;
    }
  }

  /** A second `add` of the same symbol, in any spelling, is refused. */
  lemma AddTwiceRefused(items: seq<Item>, nextId: int, userId: int, raw: string, raw2: string, listName: string)
    requires AddSpec(items, nextId, userId, raw, listName).result.Ok?
    requires Normalize(raw2) == Normalize(raw)
    ensures var o := AddSpec(items, nextId, userId, raw, listName);
      AddSpec(o.items, nextId + 1, userId, raw2, listName).result == Err(HttpError(400, "Symbol already in " + listName))
  {
    var o := AddSpec(items, nextId, userId, raw, listName);
    assert o.result.value in o.items;
  }

  // ---------------------------------------------------------------------------
  // The table

  /** One symbol-list table: its rows and the next autoincrement id. */
  class SymbolTable {
    var items: seq<Item>
    var nextId: int

    ghost predicate Valid()
      reads this
    {
      TableInvariant(items, nextId)
    }

    constructor ()
      ensures Valid() && items == [] && nextId == 1
    {
      items := [];
      nextId := 1;
    }

    /** `get_…`: the current user's rows. */
    function Get(userId: int): (r: seq<Item>)
      reads this
      ensures forall i :: 0 <= i < |r| ==> r[i] in items && r[i].userId == userId
      ensures forall i :: 0 <= i < |items| && items[i].userId == userId ==> items[i] in r
    {
      ItemsOf(items, userId)
    }

    method Add(userId: int, raw: string, listName: string) returns (r: Result<Item, HttpError>)
      requires Valid()
      modifies this
      ensures Valid()
      ensures var o := AddSpec(old(items), old(nextId), userId, raw, listName);
        r == o.result && items == o.items && nextId == if r.Ok? then old(nextId) + 1 else old(nextId)
    {
      AddSpecKeepsInvariant(items, nextId, userId, raw, listName);
      var sym := Normalize(raw);
      if sym == [] {
        return Err(EmptySymbol);
      }
      if Find(items, userId, sym).Some? {
        return Err(HttpError(400, "Symbol already in " + listName));
      }
      var x := Item(nextId, userId, sym);
      items := items + [x];
      nextId := nextId + 1;
      r := Ok(x);
    }

    method Remove(userId: int, raw: string, listName: string) returns (r: Result<string, HttpError>)
      requires Valid()
      modifies this
      ensures Valid()
      ensures var o := RemoveSpec(old(items), userId, raw, listName);
        r == o.result && items == o.items && nextId == old(nextId)
    {
      RemoveSpecKeepsInvariant(items, nextId, userId, raw, listName);
      var sym := Normalize(raw);
      var found := Find(items, userId, sym);
      if found.None? {
        return Err(HttpError(404, "Symbol not found in " + listName));
      }
      items := DropId(items, found.value.id);
      r := Ok("Removed " + sym + " from " + listName);
    }

    method Clear(userId: int) returns (deleted: nat)
      requires Valid()
      modifies this
      ensures Valid()
      ensures var o := ClearSpec(old(items), userId);
        Ok(deleted) == o.result && items == o.items && nextId == old(nextId)
    {
      ClearSpecKeepsInvariant(items, nextId, userId);
      deleted := |ItemsOf(items, userId)|;
      items := OthersOf(items, userId);
    }
  }
}
