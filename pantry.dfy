/** The `pantry_items` table and `PantryService`: listing a user's items,
    adding one, replacing the whole pantry, and deleting an item. */
module Pantry {
  import opened Wrappers

  /** A pantry row. `createdAt` and `updatedAt` are filled by the entity's
      persist and update callbacks; timestamps are opaque instants. */
  datatype PantryItem = PantryItem(
    itemId: Option<int>,
    userId: Option<int>,
    ingredientName: string,
    quantity: Option<real>,
    unit: Option<string>,
    createdAt: Option<int>,
    updatedAt: Option<int>)

  /** The table as rows by id, with the identity counter that numbers new rows. */
  datatype Table = Table(rows: map<int, PantryItem>, nextId: int)

  /** Each row carries its own key, and keys are below the counter. */
  predicate WellKeyed(t: Table) {
    forall k :: k in t.rows ==> t.rows[k].itemId == Some(k) && k < t.nextId
  }

  /** The incoming ids a `save` may write to: none, or one below the counter. */
  predicate Saveable(t: Table, item: PantryItem) {
    item.itemId.Some? ==> item.itemId.value < t.nextId
  }

  /** `save(item)` with the entity callbacks: an item without an id is inserted
      under a fresh id with both stamps set (`@PrePersist`); an item with an id
      is written at that id, keeping the stored creation stamp (the column is
      not updatable) and refreshing the update stamp (`@PreUpdate`); an id with
      no stored row is inserted there with both stamps. */
  function SaveOne(t: Table, item: PantryItem, now: int): (r: (Table, PantryItem))
    requires Saveable(t, item)
    ensures r.1.itemId.Some? && r.0.rows == t.rows[r.1.itemId.value := r.1]
    ensures r.1 == item.(itemId := r.1.itemId, createdAt := r.1.createdAt, updatedAt := Some(now))
    ensures item.itemId.None? ==> r.1.itemId == Some(t.nextId) && r.1.createdAt == Some(now) && r.0.nextId == t.nextId + 1
    ensures item.itemId.Some? ==> r.1.itemId == item.itemId && r.0.nextId == t.nextId
    ensures item.itemId.Some? && item.itemId.value in t.rows ==> r.1.createdAt == t.rows[item.itemId.value].createdAt
    ensures item.itemId.Some? && item.itemId.value !in t.rows ==> r.1.createdAt == Some(now)
  {
    if item.itemId.None? then
      var saved := item.(itemId := Some(t.nextId), createdAt := Some(now), updatedAt := Some(now));
      (Table(t.rows[t.nextId := saved], t.nextId + 1), saved)
    else
      var id := item.itemId.value;
      var created := if id in t.rows then t.rows[id].createdAt else Some(now);
      var saved := item.(createdAt := created, updatedAt := Some(now));
      (Table(t.rows[id := saved], t.nextId), saved)
  }

  /** Every incoming item may be saved against a table whose counter is `nextId`. */
  predicate AllSaveable(nextId: int, items: seq<PantryItem>) {
    forall i :: 0 <= i < |items| ==> items[i].itemId.Some? ==> items[i].itemId.value < nextId
  }

  /** The incoming ids, those items that carry one. */
  function IncomingIds(items: seq<PantryItem>): (r: set<int>)
    ensures forall k :: k in r <==> exists i :: 0 <= i < |items| && items[i].itemId == Some(k)
  {
    set i | 0 <= i < |items| && items[i].itemId.Some? :: items[i].itemId.value
  }

  /** `saveAll(items)`: each item saved in list order; the saved items in the
      same order, each stored under an id and owned as the incoming item was. */
  function SaveAll(t: Table, items: seq<PantryItem>, now: int): (r: (Table, seq<PantryItem>))
    requires AllSaveable(t.nextId, items)
    ensures |r.1| == |items| && r.0.nextId >= t.nextId
    ensures forall i :: 0 <= i < |items| ==>
      r.1[i].itemId.Some? && r.1[i].userId == items[i].userId && r.1[i].updatedAt == Some(now)
    ensures forall i :: 0 <= i < |items| ==>
      r.1[i] == items[i].(itemId := r.1[i].itemId, createdAt := r.1[i].createdAt, updatedAt := Some(now))
    decreases |items|
  {
    if items == [] then (t, [])
    else
      var front := SaveAll(t, items[..|items| - 1], now);
      var last := SaveOne(front.0, items[|items| - 1], now);
      (last.0, front.1 + [last.1])
  }

  /** The ids the saved items were stored under. */
  function SavedIds(saved: seq<PantryItem>): (r: set<int>)
    ensures forall k :: k in r <==> exists i :: 0 <= i < |saved| && saved[i].itemId == Some(k)
  {
    set i | 0 <= i < |saved| && saved[i].itemId.Some? :: saved[i].itemId.value
  }

  /** The first |items| - 1 saves are the save of the list's front. */
  lemma SaveAllFront(t: Table, items: seq<PantryItem>, now: int)
    requires AllSaveable(t.nextId, items) && items != []
    ensures AllSaveable(t.nextId, items[..|items| - 1])
    ensures var front := SaveAll(t, items[..|items| - 1], now);
      Saveable(front.0, items[|items| - 1])
      && SaveAll(t, items, now) == (SaveOne(front.0, items[|items| - 1], now).0,
                                    front.1 + [SaveOne(front.0, items[|items| - 1], now).1])
  {
  }

  /** `saveAll` keeps the table well keyed. */
  lemma {:induction false} SaveAllWellKeyed(t: Table, items: seq<PantryItem>, now: int)
    requires WellKeyed(t) && AllSaveable(t.nextId, items)
    ensures WellKeyed(SaveAll(t, items, now).0)
    decreases |items|
  {
    if items != [] {
      SaveAllFront(t, items, now);
      SaveAllWellKeyed(t, items[..|items| - 1], now);
    }
  }

  /** Every saved id is either an incoming one or a fresh one. */
  lemma {:induction false} SavedIdsIncomingOrFresh(t: Table, items: seq<PantryItem>, now: int)
    requires AllSaveable(t.nextId, items)
    ensures forall k :: k in SavedIds(SaveAll(t, items, now).1) ==> k in IncomingIds(items) || t.nextId <= k
    decreases |items|
  {
    if items != [] {
      var n := |items| - 1;
      SaveAllFront(t, items, now);
      SavedIdsStep(t, items, now);
      SavedIdsIncomingOrFresh(t, items[..n], now);
      forall k | k in IncomingIds(items[..n])
        ensures k in IncomingIds(items)
      {
        var j :| 0 <= j < n && items[..n][j].itemId == Some(k);
        assert items[j].itemId == Some(k);
      }
    }
  }

  /** Appending an item with an id adds exactly that id. */
  lemma SavedIdsAppend(front: seq<PantryItem>, last: PantryItem)
    requires last.itemId.Some?
    ensures SavedIds(front + [last]) == SavedIds(front) + {last.itemId.value}
  {
    var saved := front + [last];
    forall k | k in SavedIds(front)
      ensures k in SavedIds(saved)
    {
      var i :| 0 <= i < |front| && front[i].itemId == Some(k);
      assert saved[i] == front[i];
    }
    forall k | k in SavedIds(saved)
      ensures k in SavedIds(front) || last.itemId == Some(k)
    {
      var i :| 0 <= i < |saved| && saved[i].itemId == Some(k);
      if i < |front| {
        assert saved[i] == front[i];
      }
    }
    assert saved[|front|] == last;
  }

  /** The saved ids of a list are those of its front plus the last item's. */
  lemma SavedIdsStep(t: Table, items: seq<PantryItem>, now: int)
    requires AllSaveable(t.nextId, items) && items != []
    ensures var n := |items| - 1;
      var front := SaveAll(t, items[..n], now).1;
      var saved := SaveAll(t, items, now).1;
      saved == front + [saved[n]]
      && SavedIds(saved) == SavedIds(front) + {saved[n].itemId.value}
  {
    var n := |items| - 1;
    SaveAllFront(t, items, now);
    var front := SaveAll(t, items[..n], now).1;
    var saved := SaveAll(t, items, now).1;
    assert saved == front + [saved[n]];
    SavedIdsAppend(front, saved[n]);
  }

  /** After `saveAll` the table holds exactly the old rows and the saved ids. */
  lemma {:induction false} SaveAllKeys(t: Table, items: seq<PantryItem>, now: int)
    requires AllSaveable(t.nextId, items)
    ensures var (t', saved) := SaveAll(t, items, now);
      forall k :: k in t'.rows <==> k in t.rows || k in SavedIds(saved)
    decreases |items|
  {
    if items != [] {
      SavedIdsStep(t, items, now);
      SaveAllKeys(t, items[..|items| - 1], now);
    }
  }

  /** An old row whose id was not saved to is unchanged by `saveAll`. */
  lemma {:induction false} SaveAllKeepsUnsaved(t: Table, items: seq<PantryItem>, now: int)
    requires AllSaveable(t.nextId, items)
    ensures var (t', saved) := SaveAll(t, items, now);
      forall k :: k in t.rows && k !in SavedIds(saved) ==> k in t'.rows && t'.rows[k] == t.rows[k]
    decreases |items|
  {
    if items != [] {
      SavedIdsStep(t, items, now);
      SaveAllKeepsUnsaved(t, items[..|items| - 1], now);
    }
  }

  /** After `saveAll` every saved id holds one of the saved items. */
  lemma {:induction false} SaveAllSavedRows(t: Table, items: seq<PantryItem>, now: int)
    requires AllSaveable(t.nextId, items)
    ensures var (t', saved) := SaveAll(t, items, now);
      forall k :: k in SavedIds(saved) ==> k in t'.rows && t'.rows[k] in saved
    decreases |items|
  {
    if items != [] {
      var n := |items| - 1;
      SavedIdsStep(t, items, now);
      SaveAllSavedRows(t, items[..n], now);
      var front := SaveAll(t, items[..n], now);
      var (t', saved) := SaveAll(t, items, now);
      forall k | k in SavedIds(saved)
        ensures k in t'.rows && t'.rows[k] in saved
      {
        if saved[n].itemId != Some(k) {
          assert front.0.rows[k] in front.1;
        }
      }
    }
  }

  /** After `saveAll` the table holds the old rows and the saved ids; an old
      row whose id was not saved to is unchanged; a saved id holds one of the
      saved items. */
  lemma SaveAllRows(t: Table, items: seq<PantryItem>, now: int)
    requires AllSaveable(t.nextId, items)
    ensures var (t', saved) := SaveAll(t, items, now);
      (forall k :: k in t'.rows <==> k in t.rows || k in SavedIds(saved))
      && (forall k :: k in t.rows && k !in SavedIds(saved) ==> t'.rows[k] == t.rows[k])
      && (forall k :: k in SavedIds(saved) ==> t'.rows[k] in saved)
  {
    SaveAllKeys(t, items, now);
    SaveAllKeepsUnsaved(t, items, now);
    SaveAllSavedRows(t, items, now);
  }

  /** The user's rows, `findByUserId`. */
  function ItemsOf(rows: map<int, PantryItem>, userId: int): (r: map<int, PantryItem>)
    ensures forall k :: k in r <==> k in rows && rows[k].userId == Some(userId)
    ensures forall k :: k in r ==> r[k] == rows[k]
  {
    map k | k in rows.Keys && rows[k].userId == Some(userId) :: rows[k]
  }

  /** The rows left after `deleteAll(findByUserId(userId))`. */
  function WithoutUser(rows: map<int, PantryItem>, userId: int): (r: map<int, PantryItem>)
    ensures forall k :: k in r <==> k in rows && rows[k].userId != Some(userId)
    ensures forall k :: k in r ==> r[k] == rows[k]
  {
    map k | k in rows.Keys && rows[k].userId != Some(userId) :: rows[k]
  }

  /** Binding every incoming item to the user, `items.forEach(i -> i.setUserId(userId))`. */
  predicate BoundTo(items: seq<PantryItem>, userId: int) {
    forall i :: 0 <= i < |items| ==> items[i].userId == Some(userId)
  }

  /** The replace-all of `updatePantryItems`: the user's rows afterwards are
      exactly the saved ones, and every other user's row whose id no incoming
      item carries is unchanged. */
  lemma {:induction false} ReplaceAllFacts(t: Table, userId: int, items: seq<PantryItem>, now: int)
    requires WellKeyed(t) && AllSaveable(t.nextId, items) && BoundTo(items, userId)
    ensures var (t', saved) := SaveAll(Table(WithoutUser(t.rows, userId), t.nextId), items, now);
      (forall k :: k in ItemsOf(t'.rows, userId) <==> k in SavedIds(saved))
      && (forall k :: k in ItemsOf(t'.rows, userId) ==> t'.rows[k] in saved)
  {
    var d := Table(WithoutUser(t.rows, userId), t.nextId);
    SaveAllRows(d, items, now);
    var (t', saved) := SaveAll(d, items, now);
    assert BoundTo(saved, userId);
  }

  /** `updatePantryItems` leaves every other user's row alone unless an
      incoming item carries its id. */
  lemma {:induction false} ReplaceAllKeepsOthers(t: Table, userId: int, items: seq<PantryItem>, now: int)
    requires WellKeyed(t) && AllSaveable(t.nextId, items)
    ensures var t' := SaveAll(Table(WithoutUser(t.rows, userId), t.nextId), items, now).0;
      forall k :: k in t.rows && t.rows[k].userId != Some(userId) && k !in IncomingIds(items) ==>
        k in t'.rows && t'.rows[k] == t.rows[k]
  {
    var d := Table(WithoutUser(t.rows, userId), t.nextId);
    SaveAllRows(d, items, now);
    SavedIdsIncomingOrFresh(d, items, now);
  }

  /** The whole of `updatePantryItems` after binding: the table stays well
      keyed, the user's rows are exactly the saved items, and other users'
      rows that no incoming id names are unchanged. */
  lemma ReplaceAll(t: Table, userId: int, items: seq<PantryItem>, now: int)
    requires WellKeyed(t) && AllSaveable(t.nextId, items) && BoundTo(items, userId)
    ensures var (t', saved) := SaveAll(Table(WithoutUser(t.rows, userId), t.nextId), items, now);
      WellKeyed(t')
      && BoundTo(saved, userId)
      && |saved| == |items|
      && (forall i :: 0 <= i < |items| ==>
            saved[i] == items[i].(itemId := saved[i].itemId, createdAt := saved[i].createdAt, updatedAt := Some(now)))
      && (forall k :: k in ItemsOf(t'.rows, userId) <==> k in SavedIds(saved))
      && (forall k :: k in ItemsOf(t'.rows, userId) ==> t'.rows[k] in saved)
      && (forall k :: k in t.rows && t.rows[k].userId != Some(userId) && k !in IncomingIds(items) ==>
            k in t'.rows && t'.rows[k] == t.rows[k])
  {
    SaveAllWellKeyed(Table(WithoutUser(t.rows, userId), t.nextId), items, now);
    ReplaceAllFacts(t, userId, items, now);
    ReplaceAllKeepsOthers(t, userId, items, now);
  }

  /** `items.forEach(i -> i.setUserId(userId))`: each element rebound in place. */
  method BindToUser(userId: int, items: array<PantryItem>)
    modifies items
    ensures forall i :: 0 <= i < items.Length ==> items[i] == old(items[i]).(userId := Some(userId))
  {
    for i := 0 to items.Length
      invariant forall j :: 0 <= j < i ==> items[j] == old(items[j]).(userId := Some(userId))
      invariant forall j :: i <= j < items.Length ==> items[j] == old(items[j])
    {
      items[i] := items[i].(userId := Some(userId));
    }
  }

  /** The loop of `saveAll`: the items saved one by one, in order. */
  method SaveItems(t0: Table, items: array<PantryItem>, now: int) returns (t: Table, saved: seq<PantryItem>)
    requires AllSaveable(t0.nextId, items[..])
    ensures (t, saved) == SaveAll(t0, items[..], now)
  {
    t, saved := t0, [];
    for i := 0 to items.Length
      invariant (t, saved) == SaveAll(t0, items[..i], now)
    {
      assert items[..i + 1][..i] == items[..i];
      var r := SaveOne(t, items[i], now);
      t, saved := r.0, saved + [r.1];
    }
    assert items[..items.Length] == items[..];
  }

  /** The pantry table. */
  class PantryStore {
    var rows: map<int, PantryItem>
    var nextId: int

    ghost predicate Valid()
      reads this
    {
      WellKeyed(Table(rows, nextId))
    }

    constructor ()
      ensures Valid() && rows == map[] && nextId == 1
    {
      rows := map[];
      nextId := 1;
    }

    /** `getPantryItems`: exactly the rows whose owner is the user. */
    function GetPantryItems(userId: int): (r: map<int, PantryItem>)
      reads this
      ensures forall k :: k in r <==> k in rows && rows[k].userId == Some(userId)
      ensures forall k :: k in r ==> r[k] == rows[k]
    {
      ItemsOf(rows, userId)
    }

    /** `addPantryItem`: the creation stamp is set, then the item is saved. */
    method AddPantryItem(item: PantryItem, now: int) returns (saved: PantryItem)
      requires Valid() && Saveable(Table(rows, nextId), item)
      modifies this
      ensures Valid()
      ensures saved.updatedAt == Some(now)
      ensures item.itemId.None? ==> saved.createdAt == Some(now) && saved.itemId == Some(old(nextId))
      ensures (Table(rows, nextId), saved) == SaveOne(old(Table(rows, nextId)), item.(createdAt := Some(now)), now)
    {
      var stamped := item.(createdAt := Some(now));
      var r := SaveOne(Table(rows, nextId), stamped, now);
      rows, nextId, saved := r.0.rows, r.0.nextId, r.1;
    }

    /** `updatePantryItems`: binds each incoming item to the user in place,
        deletes the user's rows, then saves the items in order. */
    method UpdatePantryItems(userId: int, items: array<PantryItem>, now: int) returns (saved: seq<PantryItem>)
      requires Valid() && AllSaveable(nextId, items[..])
      modifies this, items
      ensures Valid()
      ensures forall i :: 0 <= i < items.Length ==> items[i] == old(items[i]).(userId := Some(userId))
      ensures (Table(rows, nextId), saved)
           == SaveAll(Table(WithoutUser(old(rows), userId), old(nextId)), items[..], now)
      ensures BoundTo(saved, userId)
      ensures |saved| == items.Length
      ensures forall i :: 0 <= i < items.Length ==>
                saved[i] == old(items[i]).(itemId := saved[i].itemId, userId := Some(userId),
                                           createdAt := saved[i].createdAt, updatedAt := Some(now))
      ensures forall k :: k in GetPantryItems(userId) <==> k in SavedIds(saved)
      ensures forall k :: k in GetPantryItems(userId) ==> rows[k] in saved
      ensures forall k :: k in old(rows) && old(rows)[k].userId != Some(userId) && k !in IncomingIds(items[..]) ==>
                k in rows && rows[k] == old(rows)[k]
    {
      ghost var before := Table(rows, nextId);
      BindToUser(userId, items);
      ghost var bound := items[..];
      assert AllSaveable(before.nextId, bound) by {
        assert forall j :: 0 <= j < |bound| ==> bound[j].itemId == old(items[..])[j].itemId;
      }
      rows := WithoutUser(rows, userId);
      var t;
      t, saved := SaveItems(Table(rows, nextId), items, now);
      rows, nextId := t.rows, t.nextId;
      ReplaceAll(before, userId, bound, now);
    }

    /** `deletePantryItem`: true iff the item existed, and only then is it removed. */
    method DeletePantryItem(itemId: int) returns (deleted: bool)
      requires Valid()
      modifies this
      ensures Valid() && nextId == old(nextId)
      ensures deleted <==> itemId in old(rows)
      ensures rows == old(rows) - {itemId}
    {
      deleted := itemId in rows;
      if deleted {
        rows := rows - {itemId};
      }
    }
  }
}
