/** The position store of src/position.ts: a list of held positions keyed by
    code and market, where the same key may occur more than once. The JSON
    file the source loads and saves on every call is the `positions` field;
    the clock is the `now` parameter. */
module Positions {
  import opened Wrappers
  import opened Types
  import Lists

  /** `p => p.code === code && p.market === market`. */
  function KeyOf(code: string, market: Market): Position -> bool {
    (p: Position) => p.code == code && p.market == market
  }

  /** `Partial<Pick<Position, 'quantity' | 'costPrice'>>`: a field given as
      `Some` overwrites, a field left `None` keeps the stored value. */
  datatype PositionUpdate = PositionUpdate(quantity: Option<real>, costPrice: Option<real>)

  /** `{ ...p, ...updates, updatedAt: now }`. */
  function Patch(p: Position, updates: PositionUpdate, now: string): (r: Position)
    ensures r.code == p.code && r.name == p.name && r.currency == p.currency
    ensures r.market == p.market && r.createdAt == p.createdAt
    ensures r.updatedAt == now
    ensures updates.quantity.Some? ==> r.quantity == updates.quantity.value
    ensures updates.quantity.None? ==> r.quantity == p.quantity
    ensures updates.costPrice.Some? ==> r.costPrice == updates.costPrice.value
    ensures updates.costPrice.None? ==> r.costPrice == p.costPrice
  {
    p.(quantity := updates.quantity.GetOr(p.quantity),
       costPrice := updates.costPrice.GetOr(p.costPrice),
       updatedAt := now)
  }

  /** A position together with the live-quote fields the source leaves unset. */
  datatype PositionWithMarket = PositionWithMarket(
    position: Position,
    currentPrice: Option<real>, marketValue: Option<real>,
    profit: Option<real>, profitPercent: Option<real>)

  class PositionStore {
    /** The stored positions, in insertion order. */
    var positions: seq<Position>

    /** An empty store: the source's fallback when the file is missing. */
    constructor ()
      ensures positions == []
    {
      positions := [];
    }

    /** `addPosition`: append one record stamped with `now` twice. A key that
        is already stored is accepted. */
    method AddPosition(code: string, name: string, quantity: real, costPrice: real,
                       currency: string, market: Market, now: string) returns (p: Position)
      modifies this
      ensures p == Position(code, name, quantity, costPrice, currency, market, now, now)
      ensures positions == old(positions) + [p]
    {
      p := Position(code, name, quantity, costPrice, currency, market, now, now);
      positions := positions + [p];
    }

    /** `updatePosition`: patch the first record with the key, or report a
        miss and change nothing. */
    method UpdatePosition(code: string, market: Market, updates: PositionUpdate, now: string)
      returns (r: Option<Position>)
      modifies this
      ensures Lists.FindIndex(old(positions), KeyOf(code, market)).None? ==>
        r == None && positions == old(positions)
      ensures Lists.FindIndex(old(positions), KeyOf(code, market)).Some? ==>
        var i := Lists.FindIndex(old(positions), KeyOf(code, market)).value;
        r == Some(Patch(old(positions)[i], updates, now)) &&
        positions == old(positions)[i := r.value]
    {
      var index := Lists.FindIndex(positions, KeyOf(code, market));
      if index.None? {
        return None;
      }
      var i := index.value;
      positions := positions[i := Patch(positions[i], updates, now)];
      r := Some(positions[i]);
    }

    /** `removePosition`: drop the first record with the key and report
        whether there was one. */
    method RemovePosition(code: string, market: Market) returns (removed: bool)
      modifies this
      ensures removed <==> Lists.FindIndex(old(positions), KeyOf(code, market)).Some?
      ensures !removed ==> positions == old(positions)
      ensures removed ==>
        positions == Lists.RemoveAt(old(positions), Lists.FindIndex(old(positions), KeyOf(code, market)).value)
    {
      var index := Lists.FindIndex(positions, KeyOf(code, market));
      if index.None? {
        return false;
      }
      positions := Lists.RemoveAt(positions, index.value);
      removed := true;
    }

    /** `getAllPositions`: the stored list as it is. */
    function GetAllPositions(): (r: seq<Position>)
      reads this
      ensures r == positions
    {
      positions
    }

    /** `getPosition`: the first record with the key, or `None`. */
    function GetPosition(code: string, market: Market): (r: Option<Position>)
      reads this
      ensures r.None? <==>
        forall j :: 0 <= j < |positions| ==> !(positions[j].code == code && positions[j].market == market)
      ensures r.Some? ==> r.value.code == code && r.value.market == market
      ensures r.Some? ==> exists i :: 0 <= i < |positions| && positions[i] == r.value &&
                                      forall j :: 0 <= j < i ==> !(positions[j].code == code && positions[j].market == market)
    {
      Lists.Find(positions, KeyOf(code, market))
    }

    /** `getPositionsWithMarket`: every stored position in order, with no
        live-quote field filled in. */
    function GetPositionsWithMarket(): (r: seq<PositionWithMarket>)
      reads this
      ensures |r| == |positions|
      ensures forall i :: 0 <= i < |r| ==> r[i].position == positions[i]
      ensures forall i :: 0 <= i < |r| ==>
        r[i].currentPrice.None? && r[i].marketValue.None? && r[i].profit.None? && r[i].profitPercent.None?
    {
      seq(|positions|, i requires 0 <= i < |positions| reads this =>
        PositionWithMarket(positions[i], None, None, None, None))
    }
  }

  // ---------------------------------------------------------------------------
  // Lookups after each change

  /** After `addPosition`, looking the key up finds the older record when the
      key was already stored (a duplicate never shadows it), and the new
      record otherwise. */
  lemma AddThenGet(positions: seq<Position>, p: Position)
    ensures var key := KeyOf(p.code, p.market);
      Lists.Find(positions + [p], key) ==
        if Lists.Find(positions, key).Some? then Lists.Find(positions, key) else Some(p)
  {
    Lists.FindSnoc(positions, p, KeyOf(p.code, p.market));
  }

  /** After `updatePosition` hits, looking the key up finds the patched record. */
  lemma UpdateThenGet(positions: seq<Position>, code: string, market: Market, updates: PositionUpdate, now: string)
    requires Lists.FindIndex(positions, KeyOf(code, market)).Some?
    ensures var i := Lists.FindIndex(positions, KeyOf(code, market)).value;
      Lists.Find(positions[i := Patch(positions[i], updates, now)], KeyOf(code, market)) ==
        Some(Patch(positions[i], updates, now))
  {
    var i := Lists.FindIndex(positions, KeyOf(code, market)).value;
    Lists.FindAfterUpdate(positions, i, Patch(positions[i], updates, now), KeyOf(code, market));
  }

  /** After `removePosition` hits, looking the key up finds the next record
      with the same key, if one was stored after the removed one. */
  lemma RemoveThenGet(positions: seq<Position>, code: string, market: Market)
    requires Lists.FindIndex(positions, KeyOf(code, market)).Some?
    ensures var i := Lists.FindIndex(positions, KeyOf(code, market)).value;
      Lists.Find(Lists.RemoveAt(positions, i), KeyOf(code, market)) ==
        Lists.Find(positions[i + 1..], KeyOf(code, market))
  {
    var i := Lists.FindIndex(positions, KeyOf(code, market)).value;
    Lists.FindAfterRemove(positions, i, KeyOf(code, market));
  }
}
