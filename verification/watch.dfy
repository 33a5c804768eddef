/** The watch list of src/watch.ts: stocks under observation, keyed by code
    and market. Unlike the position store it refuses a second item with a
    key it already holds, so a list whose keys are distinct stays that way.
    The JSON file is the `items` field; the clock is the `now` parameter. */
module Watch {
  import opened Wrappers
  import opened Types
  import Lists

  /** The error `addWatch` throws for a key it already holds. */
  const DuplicateMessage: string := "Stock already in watch list"

  /** `item => item.code === code && item.market === market`. */
  function KeyOf(code: string, market: Market): WatchItem -> bool {
    (item: WatchItem) => item.code == code && item.market == market
  }

  /** No two items share both code and market. */
  predicate UniqueKeys(items: seq<WatchItem>) {
    forall i, j :: 0 <= i < j < |items| ==>
      !(items[i].code == items[j].code && items[i].market == items[j].market)
  }

  /** `Partial<Pick<WatchItem, 'name' | 'reason'>>`: a field given as `Some`
      overwrites, a field left `None` keeps the stored value. */
  datatype WatchUpdate = WatchUpdate(name: Option<string>, reason: Option<string>)

  /** `{ ...item, ...updates }`: no timestamp is touched. */
  function Patch(item: WatchItem, updates: WatchUpdate): (r: WatchItem)
    ensures r.code == item.code && r.market == item.market && r.createdAt == item.createdAt
    ensures updates.name.Some? ==> r.name == updates.name.value
    ensures updates.name.None? ==> r.name == item.name
    ensures updates.reason.Some? ==> r.reason == updates.reason.value
    ensures updates.reason.None? ==> r.reason == item.reason
  {
    item.(name := updates.name.GetOr(item.name), reason := updates.reason.GetOr(item.reason))
  }

  class WatchList {
    /** The watched items, in insertion order. */
    var items: seq<WatchItem>

    /** An empty list: the source's fallback when the file is missing. */
    constructor ()
      ensures items == [] && UniqueKeys(items)
    {
      items := [];
    }

    /** `addWatch`: refuse a key already held, otherwise append one item
        stamped with `now`. Either way distinct keys stay distinct. */
    method AddWatch(code: string, name: string, reason: string, market: Market, now: string)
      returns (r: Result<WatchItem, string>)
      modifies this
      ensures Lists.Any(old(items), KeyOf(code, market)) ==>
        r == Failure(DuplicateMessage) && items == old(items)
      ensures !Lists.Any(old(items), KeyOf(code, market)) ==>
        r == Success(WatchItem(code, name, reason, market, now)) && items == old(items) + [r.value]
      ensures UniqueKeys(old(items)) ==> UniqueKeys(items)
    {
      if Lists.Any(items, KeyOf(code, market)) {
        return Failure(DuplicateMessage);
      }
      var item := WatchItem(code, name, reason, market, now);
      AddKeepsUnique(items, item);
      items := items + [item];
      r := Success(item);
    }

    /** `updateWatch`: patch the first item with the key, or report a miss and
        change nothing. */
    method UpdateWatch(code: string, market: Market, updates: WatchUpdate) returns (r: Option<WatchItem>)
      modifies this
      ensures Lists.FindIndex(old(items), KeyOf(code, market)).None? ==>
        r == None && items == old(items)
      ensures Lists.FindIndex(old(items), KeyOf(code, market)).Some? ==>
        var i := Lists.FindIndex(old(items), KeyOf(code, market)).value;
        r == Some(Patch(old(items)[i], updates)) && items == old(items)[i := r.value]
      ensures UniqueKeys(old(items)) ==> UniqueKeys(items)
    {
      var index := Lists.FindIndex(items, KeyOf(code, market));
      if index.None? {
        return None;
      }
      var i := index.value;
      UpdateKeepsUnique(items, i, updates);
      items := items[i := Patch(items[i], updates)];
      r := Some(items[i]);
    }

    /** `removeWatch`: drop the first item with the key and report whether
        there was one. */
    method RemoveWatch(code: string, market: Market) returns (removed: bool)
      modifies this
      ensures removed <==> Lists.FindIndex(old(items), KeyOf(code, market)).Some?
      ensures !removed ==> items == old(items)
      ensures removed ==>
        items == Lists.RemoveAt(old(items), Lists.FindIndex(old(items), KeyOf(code, market)).value)
      ensures UniqueKeys(old(items)) ==> UniqueKeys(items)
    {
      var index := Lists.FindIndex(items, KeyOf(code, market));
      if index.None? {
        return false;
      }
      RemoveKeepsUnique(items, index.value);
      items := Lists.RemoveAt(items, index.value);
      removed := true;
    }

    /** `getAllWatch`: the stored list as it is. */
    function GetAllWatch(): (r: seq<WatchItem>)
      reads this
      ensures r == items
    {
      items
    }

    /** `getWatch`: the first item with the key, or `None`. */
    function GetWatch(code: string, market: Market): (r: Option<WatchItem>)
      reads this
      ensures r.None? <==>
        forall j :: 0 <= j < |items| ==> !(items[j].code == code && items[j].market == market)
      ensures r.Some? ==> r.value.code == code && r.value.market == market
      ensures r.Some? ==> exists i :: 0 <= i < |items| && items[i] == r.value &&
                                      forall j :: 0 <= j < i ==> !(items[j].code == code && items[j].market == market)
    {
      Lists.Find(items, KeyOf(code, market))
    }
  }

  // ---------------------------------------------------------------------------
  // Distinct keys

  /** Appending an item whose key is not held keeps the keys distinct. */
  lemma {:induction false} AddKeepsUnique(items: seq<WatchItem>, item: WatchItem)
    requires !Lists.Any(items, KeyOf(item.code, item.market))
    ensures UniqueKeys(items) ==> UniqueKeys(items + [item])
  {
    var all := items + [item];
    if UniqueKeys(items) {
      forall i, j | 0 <= i < j < |all|
        ensures !(all[i].code == all[j].code && all[i].market == all[j].market)
      {
        if j < |items| {
          assert all[i] == items[i] && all[j] == items[j];
        } else {
          assert all[i] == items[i] && all[j] == item;
          assert !KeyOf(item.code, item.market)(items[i]);
        }
      }
    }
  }

  /** Patching an item keeps its key, so the keys stay distinct. */
  lemma {:induction false} UpdateKeepsUnique(items: seq<WatchItem>, i: nat, updates: WatchUpdate)
    requires i < |items|
    ensures UniqueKeys(items) ==> UniqueKeys(items[i := Patch(items[i], updates)])
  {
    var all := items[i := Patch(items[i], updates)];
    if UniqueKeys(items) {
      forall a, b | 0 <= a < b < |all|
        ensures !(all[a].code == all[b].code && all[a].market == all[b].market)
      {
        assert all[a].code == items[a].code && all[a].market == items[a].market;
        assert all[b].code == items[b].code && all[b].market == items[b].market;
      }
    }
  }

  /** Removing an item keeps the other keys distinct. */
  lemma {:induction false} RemoveKeepsUnique(items: seq<WatchItem>, i: nat)
    requires i < |items|
    ensures UniqueKeys(items) ==> UniqueKeys(Lists.RemoveAt(items, i))
  {
    var rest := Lists.RemoveAt(items, i);
    if UniqueKeys(items) {
      forall a, b | 0 <= a < b < |rest|
        ensures !(rest[a].code == rest[b].code && rest[a].market == rest[b].market)
      {
        var a', b' := if a < i then a else a + 1, if b < i then b else b + 1;
        assert rest[a] == items[a'] && rest[b] == items[b'];
      }
    }
  }

  // ---------------------------------------------------------------------------
  // Lookups after each change

  /** After a successful `addWatch`, looking the key up finds the new item. */
  lemma AddThenGet(items: seq<WatchItem>, item: WatchItem)
    requires !Lists.Any(items, KeyOf(item.code, item.market))
    ensures Lists.Find(items + [item], KeyOf(item.code, item.market)) == Some(item)
  {
    Lists.AnyIffFound(items, KeyOf(item.code, item.market));
    Lists.FindSnoc(items, item, KeyOf(item.code, item.market));
  }

  /** After `updateWatch` hits, looking the key up finds the patched item. */
  lemma UpdateThenGet(items: seq<WatchItem>, code: string, market: Market, updates: WatchUpdate)
    requires Lists.FindIndex(items, KeyOf(code, market)).Some?
    ensures var i := Lists.FindIndex(items, KeyOf(code, market)).value;
      Lists.Find(items[i := Patch(items[i], updates)], KeyOf(code, market)) == Some(Patch(items[i], updates))
  {
    var i := Lists.FindIndex(items, KeyOf(code, market)).value;
    Lists.FindAfterUpdate(items, i, Patch(items[i], updates), KeyOf(code, market));
  }

  /** On a list with distinct keys, after `removeWatch` hits the key is gone. */
  lemma {:induction false} RemoveThenGet(items: seq<WatchItem>, code: string, market: Market)
    requires UniqueKeys(items)
    requires Lists.FindIndex(items, KeyOf(code, market)).Some?
    ensures var i := Lists.FindIndex(items, KeyOf(code, market)).value;
      Lists.Find(Lists.RemoveAt(items, i), KeyOf(code, market)).None?
  {
    var key := KeyOf(code, market);
    var i := Lists.FindIndex(items, key).value;
    Lists.FindAfterRemove(items, i, key);
    var tail := items[i + 1..];
    forall k | 0 <= k < |tail| ensures !key(tail[k]) {
      assert tail[k] == items[i + 1 + k];
    }
  }
}
