/**
 * Per-user risk settings (backend/app/api/risk_management_router.py,
 * backend/app/schemas/risk_management.py): a get that creates the default
 * row on first use, and an upsert. The three values are only stored, so they
 * are `real`s nothing computes with.
 */
module RiskManagement {
  import opened Wrappers

  datatype RiskValues = RiskValues(maxPositionSize: real, stopLoss: real, takeProfit: real)

  /** The column defaults `get` writes, also the defaults of `RiskSettingsCreate`. */
  const Defaults := RiskValues(10.0, 5.0, 15.0)

  /** One settings row. `updated_at` is left out. */
  datatype RiskRow = RiskRow(id: int, userId: int, values: RiskValues)

  /** Index of the first row of `userId`, or `|rows|`: `filter(user_id == userId).first()`. */
  function IndexOfUser(rows: seq<RiskRow>, userId: int): (k: nat)
    ensures k <= |rows|
    ensures k < |rows| ==> rows[k].userId == userId
    ensures forall j :: 0 <= j < k ==> rows[j].userId != userId
    decreases |rows|
  {
    if rows == [] then 0
    else if rows[0].userId == userId then 0
    else 1 + IndexOfUser(rows[1..], userId)
  }

  /** The settings row of `userId`, if any. */
  function SettingsOf(rows: seq<RiskRow>, userId: int): (r: Option<RiskRow>)
    ensures r.Some? <==> exists i :: 0 <= i < |rows| && rows[i].userId == userId
    ensures r.Some? ==> r.value in rows && r.value.userId == userId
  {
    var k := IndexOfUser(rows, userId);
    if k < |rows| then Some(rows[k]) else None
  }

  /** Ids below the next autoincrement value, distinct, and at most one row per user. */
  ghost predicate RiskInvariant(rows: seq<RiskRow>, nextId: int) {
    && 1 <= nextId
    && (forall i :: 0 <= i < |rows| ==> 1 <= rows[i].id < nextId)
    && (forall i, j :: 0 <= i < j < |rows| ==> rows[i].id != rows[j].id && rows[i].userId != rows[j].userId)
  }

  /** The row a route returns and the rows it leaves behind. */
  datatype Outcome = Outcome(row: RiskRow, rows: seq<RiskRow>)

  /** `get_risk_settings`: the user's row, created with the defaults when missing. */
  function GetSpec(rows: seq<RiskRow>, nextId: int, userId: int): (o: Outcome)
    ensures o.row.userId == userId
  {
    var k := IndexOfUser(rows, userId);
    if k < |rows| then Outcome(rows[k], rows)
    else Outcome(RiskRow(nextId, userId, Defaults), rows + [RiskRow(nextId, userId, Defaults)])
  }

  /** `update_risk_settings`: overwrite the three values of the user's row, or insert one. */
  function UpdateSpec(rows: seq<RiskRow>, nextId: int, userId: int, values: RiskValues): (o: Outcome)
    ensures o.row.userId == userId && o.row.values == values
  {
    var k := IndexOfUser(rows, userId);
    if k < |rows| then Outcome(rows[k].(values := values), rows[k := rows[k].(values := values)])
    else Outcome(RiskRow(nextId, userId, values), rows + [RiskRow(nextId, userId, values)])
  }

  /** Whether a route inserted a row (and so used up an id). */
  function NextId(rows: seq<RiskRow>, nextId: int, o: Outcome): int {
    if |o.rows| > |rows| then nextId + 1 else nextId
  }

  // ---------------------------------------------------------------------------
  // Properties

  /**
   * `get` returns the user's existing row untouched, and otherwise inserts and
   * returns a row with the next id and the defaults.
   */
  lemma GetSpecOutcome(rows: seq<RiskRow>, nextId: int, userId: int)
    ensures var o := GetSpec(rows, nextId, userId);
      match SettingsOf(rows, userId)
      case Some(r) => o.row == r && o.rows == rows
      case None => o.row == RiskRow(nextId, userId, Defaults) && o.rows == rows + [o.row]
  {
  }

  /**
   * `update` overwrites the values of the user's existing row in place, keeping
   * its id and the number of rows, and otherwise inserts a row with the next id.
   */
  lemma UpdateSpecOutcome(rows: seq<RiskRow>, nextId: int, userId: int, values: RiskValues)
    ensures var o := UpdateSpec(rows, nextId, userId, values);
      match SettingsOf(rows, userId)
      case Some(r) => o.row == r.(values := values) && |o.rows| == |rows| && SettingsOf(o.rows, userId) == Some(o.row)
      case None => o.row == RiskRow(nextId, userId, values) && o.rows == rows + [o.row]
  {
    var k := IndexOfUser(rows, userId);
    if k < |rows| {
      SameOwners(rows, rows[k := rows[k].(values := values)], userId);
    }
  }

  /** A second `get` returns the same row and changes nothing. */
  lemma GetIdempotent(rows: seq<RiskRow>, nextId: int, userId: int)
    ensures var o := GetSpec(rows, nextId, userId);
      var o2 := GetSpec(o.rows, NextId(rows, nextId, o), userId);
      o2.row == o.row && o2.rows == o.rows
  {
    var o := GetSpec(rows, nextId, userId);
    if IndexOfUser(rows, userId) == |rows| {
      AppendedIndex(rows, o.row);
    }
  }

  /** After an `update`, `get` returns the supplied values and creates nothing. */
  lemma UpdateThenGet(rows: seq<RiskRow>, nextId: int, userId: int, values: RiskValues)
    ensures var o := UpdateSpec(rows, nextId, userId, values);
      var o2 := GetSpec(o.rows, NextId(rows, nextId, o), userId);
      o2.row == o.row && o2.row.values == values && o2.rows == o.rows
  {
    var o := UpdateSpec(rows, nextId, userId, values);
    var k := IndexOfUser(rows, userId);
    if k == |rows| {
      AppendedIndex(rows, o.row);
    } else {
      SameOwners(rows, o.rows, userId);
    }
  }

  /** The first row of a user missing from `rows` is the one appended. */
  lemma AppendedIndex(rows: seq<RiskRow>, row: RiskRow)
    requires IndexOfUser(rows, row.userId) == |rows|
    ensures IndexOfUser(rows + [row], row.userId) == |rows|
  {
    IndexCharacterized(rows + [row], row.userId, |rows|);
  }

  /** `IndexOfUser` is the one index with the user there and nowhere before. */
  lemma {:induction false} IndexCharacterized(rows: seq<RiskRow>, userId: int, k: nat)
    requires k <= |rows| && (k < |rows| ==> rows[k].userId == userId)
    requires forall j :: 0 <= j < k ==> rows[j].userId != userId
    ensures IndexOfUser(rows, userId) == k
    decreases |rows|
  {
    if rows != [] && k > 0 {
      IndexCharacterized(rows[1..], userId, k - 1);
    }
  }

  /** Two tables with the same owner at every position find a user at the same index. */
  lemma SameOwners(a: seq<RiskRow>, b: seq<RiskRow>, userId: int)
    requires |a| == |b| && forall i :: 0 <= i < |a| ==> a[i].userId == b[i].userId
    ensures IndexOfUser(a, userId) == IndexOfUser(b, userId)
  {
    IndexCharacterized(b, userId, IndexOfUser(a, userId));
  }

  /** Neither route reads or changes another user's settings. */
  lemma WritesKeepOthers(rows: seq<RiskRow>, nextId: int, userId: int, other: int, values: RiskValues)
    requires other != userId
    ensures SettingsOf(GetSpec(rows, nextId, userId).rows, other) == SettingsOf(rows, other)
    ensures SettingsOf(UpdateSpec(rows, nextId, userId, values).rows, other) == SettingsOf(rows, other)
  {
    var k := IndexOfUser(rows, userId);
    if k == |rows| {
      var row := RiskRow(nextId, userId, Defaults);
      var row' := RiskRow(nextId, userId, values);
      AppendOther(rows, row, other);
      AppendOther(rows, row', other);
    } else {
      SameOwners(rows, rows[k := rows[k].(values := values)], other);
    }
  }

  lemma AppendOther(rows: seq<RiskRow>, row: RiskRow, other: int)
    requires row.userId != other
    ensures SettingsOf(rows + [row], other) == SettingsOf(rows, other)
  {
    var k := IndexOfUser(rows, other);
    if k < |rows| {
      IndexCharacterized(rows + [row], other, k);
    } else {
      IndexCharacterized(rows + [row], other, |rows| + 1);
    }
  }

  /** Both routes keep one row per user and fresh ids. */
  lemma RoutesKeepInvariant(rows: seq<RiskRow>, nextId: int, userId: int, values: RiskValues)
    requires RiskInvariant(rows, nextId)
    ensures var o := GetSpec(rows, nextId, userId); RiskInvariant(o.rows, NextId(rows, nextId, o))
    ensures var o := UpdateSpec(rows, nextId, userId, values); RiskInvariant(o.rows, NextId(rows, nextId, o))
  {
    var k := IndexOfUser(rows, userId);
    if k < |rows| {
      var rows' := rows[k := rows[k].(values := values)];
      assert forall i :: 0 <= i < |rows| ==> rows'[i].id == rows[i].id && rows'[i].userId == rows[i].userId;
    }
  }

  // ---------------------------------------------------------------------------
  // The table

  class RiskTable {
    var rows: seq<RiskRow>
    var nextId: int

    ghost predicate Valid()
      reads this
    {
      RiskInvariant(rows, nextId)
    }

    constructor ()
      ensures Valid() && rows == [] && nextId == 1
    {
      rows := [];
      nextId := 1;
    }

    method GetRiskSettings(userId: int) returns (row: RiskRow)
      requires Valid()
      modifies this
      ensures Valid()
      ensures var o := GetSpec(old(rows), old(nextId), userId);
        row == o.row && rows == o.rows && nextId == NextId(old(rows), old(nextId), o)
    {
      RoutesKeepInvariant(rows, nextId, userId, Defaults);
      var k := IndexOfUser(rows, userId);
      if k < |rows| {
        return rows[k];
      }
      row := RiskRow(nextId, userId, Defaults);
      rows := rows + [row];
      nextId := nextId + 1;
    }

    method UpdateRiskSettings(userId: int, values: RiskValues) returns (row: RiskRow)
      requires Valid()
      modifies this
      ensures Valid()
      ensures var o := UpdateSpec(old(rows), old(nextId), userId, values);
        row == o.row && rows == o.rows && nextId == NextId(old(rows), old(nextId), o)
    {
      RoutesKeepInvariant(rows, nextId, userId, values);
      var k := IndexOfUser(rows, userId);
      if k < |rows| {
        row := rows[k].(values := values);
        rows := rows[k := row];
      } else {
        row := RiskRow(nextId, userId, values);
        rows := rows + [row];
        nextId := nextId + 1;
      }
    }
  }
}
