/**
 * The stock tracker of app.js: the in-memory `appState` (items and
 * categories) and the handlers that change it — drag-and-drop reordering,
 * the quantity buttons, the item form and the category settings.
 * Every write to the cloud document store (`cloudSaveItem`,
 * `cloudSaveHistory`, `cloudSaveCategories`) is an append to `log`, in the
 * order the handler issues it.
 */
module Inventory {
  import opened JsBuiltins

  /** A link of an item; `caption` is the link object's `label`. */
  datatype Link = Link(caption: string, url: string)

  /** An item document. `order` is the custom-sort position; None stands for a
      document that has no `order` field at all. */
  datatype Item = Item(
    id: string,
    name: string,
    category: string,
    count: int,
    image: string,
    links: seq<Link>,
    order: Option<int>,
    lastUpdated: string)

  /** The history actions: 新規登録, 情報更新, 追加 and 削減. */
  datatype Action = Created | InfoUpdated | Added | Reduced

  datatype HistoryEntry = HistoryEntry(date: string, itemName: string, action: Action, from: int, to: int)

  /** One write to the remote store. */
  datatype Write =
    | SaveItem(item: Item)
    | SaveHistory(entry: HistoryEntry)
    | SaveCategories(categories: seq<string>)

  const DefaultCategories: seq<string> := ["文房具", "日用品", "食品"]

  /** `items.findIndex(i => i.id === id)`: the first position holding `id`, or -1. */
  function FindIndex(items: seq<Item>, id: string): (r: int)
    ensures -1 <= r < |items|
    ensures r == -1 <==> forall k :: 0 <= k < |items| ==> items[k].id != id
    ensures r >= 0 ==> items[r].id == id && forall k :: 0 <= k < r ==> items[k].id != id
  {
    if items == [] then -1
    else if items[0].id == id then 0
    else
      var r := FindIndex(items[1..], id);
      if r == -1 then -1 else r + 1
  }

  function Ids(items: seq<Item>): (r: seq<string>)
    ensures |r| == |items|
  {
    seq(|items|, k requires 0 <= k < |items| => items[k].id)
  }

  /** The two `splice` calls of the drop handler: the element at `from` is taken out and
      put back in at index `to` of what remains. It lands at `to`, the others keep
      their relative order, and nothing is lost or added. */
  function Move<T>(s: seq<T>, from: nat, to: nat): (r: seq<T>)
    requires from < |s| && to < |s|
    ensures |r| == |s|
    ensures r[to] == s[from]
    ensures RemoveAt(r, to) == RemoveAt(s, from)
    ensures multiset(r) == multiset(s)
  {
    var rest := RemoveAt(s, from);
    var r := rest[..to] + [s[from]] + rest[to..];
    assert r[..to] == rest[..to] && r[to + 1..] == rest[to..];
    assert rest[..to] + rest[to..] == rest;
    assert s == s[..from] + [s[from]] + s[from + 1..];
    assert multiset(s) == multiset(s[..from]) + multiset{s[from]} + multiset(s[from + 1..]);
    assert multiset(rest) == multiset(s[..from]) + multiset(s[from + 1..]);
    assert multiset(rest) == multiset(rest[..to]) + multiset(rest[to..]);
    assert multiset(r) == multiset(rest[..to]) + multiset{s[from]} + multiset(rest[to..]);
    assert multiset(r) == multiset(rest) + multiset{s[from]};
    assert multiset(s) == multiset(rest) + multiset{s[from]};
    r
  }

  lemma IdsOfMove(s: seq<Item>, from: nat, to: nat)
    requires from < |s| && to < |s|
    ensures Ids(Move(s, from, to)) == Move(Ids(s), from, to)
  {
    var a, b := Ids(Move(s, from, to)), Move(Ids(s), from, to);
    forall k | 0 <= k < |s|
      ensures a[k] == b[k]
    {
      var r := Move(s, from, to);
      if k < to {
        assert r[k] == RemoveAt(r, to)[k] == RemoveAt(s, from)[k];
        assert b[k] == RemoveAt(b, to)[k] == RemoveAt(Ids(s), from)[k];
      } else if k > to {
        assert r[k] == RemoveAt(r, to)[k - 1] == RemoveAt(s, from)[k - 1];
        assert b[k] == RemoveAt(b, to)[k - 1] == RemoveAt(Ids(s), from)[k - 1];
      }
    }
  }

  /** The loop `appState.items.map((it, idx) => { it.order = idx; ... })`. */
  function Renumbered(items: seq<Item>): seq<Item> {
    seq(|items|, k requires 0 <= k < |items| => items[k].(order := Some(k)))
  }

  /** The drop handler acts only when the dragged card is not the target and both ids are found. */
  predicate Moves(items: seq<Item>, draggedId: string, targetId: string) {
    draggedId != targetId && FindIndex(items, draggedId) != -1 && FindIndex(items, targetId) != -1
  }

  /** The list the drop handler leaves behind. */
  function Reordered(items: seq<Item>, draggedId: string, targetId: string): seq<Item> {
    if Moves(items, draggedId, targetId)
    then Renumbered(Move(items, FindIndex(items, draggedId), FindIndex(items, targetId)))
    else items
  }

  /** One `cloudSaveItem` per item, in list order. */
  function SaveAll(items: seq<Item>): (r: seq<Write>)
    ensures |r| == |items|
  {
    seq(|items|, k requires 0 <= k < |items| => SaveItem(items[k]))
  }

  /** Dropping a card on itself, or when either id is missing, changes nothing. */
  lemma DropWithoutMoveIsNoOp(items: seq<Item>, draggedId: string, targetId: string)
    requires draggedId == targetId || FindIndex(items, draggedId) == -1 || FindIndex(items, targetId) == -1
    ensures Reordered(items, draggedId, targetId) == items
  {
  }

  /** After a drop the dragged item sits at the target's former index, the other items
      keep their relative order, no id is lost or duplicated, and every item's order is
      its index, so the orders are exactly 0 .. n-1. */
  lemma DropMovesDraggedToTarget(items: seq<Item>, draggedId: string, targetId: string)
    requires Moves(items, draggedId, targetId)
    ensures var r := Reordered(items, draggedId, targetId);
            var from, to := FindIndex(items, draggedId), FindIndex(items, targetId);
            && |r| == |items|
            && r[to].id == draggedId
            && RemoveAt(Ids(r), to) == RemoveAt(Ids(items), from)
            && multiset(Ids(r)) == multiset(Ids(items))
            && forall k :: 0 <= k < |r| ==> r[k].order == Some(k)
  {
    var from, to := FindIndex(items, draggedId), FindIndex(items, targetId);
    var m := Move(items, from, to);
    assert Ids(Renumbered(m)) == Ids(m);
    IdsOfMove(items, from, to);
  }

  /** `Math.max(0, count + delta)` with delta +1 for the ＋ button and -1 for the − button. */
  function NewCount(count: int, increment: bool): (r: int)
    ensures r >= 0
    ensures r != count <==> increment || count != 0
    ensures count >= 0 ==> r == (if increment then count + 1 else if count == 0 then 0 else count - 1)
    ensures count < 0 ==> r == 0
  {
    var delta := if increment then 1 else -1;
    if count + delta > 0 then count + delta else 0
  }

  predicate CountsNonNegative(items: seq<Item>) {
    forall k :: 0 <= k < |items| ==> items[k].count >= 0
  }

  /** `items.some(i => i.category === cat)`: the 使用中 flag of the category settings. */
  function InUse(items: seq<Item>, cat: string): (r: bool)
    ensures r <==> exists k :: 0 <= k < |items| && items[k].category == cat
  {
    if items == [] then false
    else if items[0].category == cat then true
    else
      var r := InUse(items[1..], cat);
      assert forall k :: 1 <= k < |items| ==> items[k] == items[1..][k - 1];
      r
  }

  /** Deleting a category is not checked against the items (only the disabled button
      guards it): deleting one in use leaves items whose category is no longer listed. */
  lemma DeletingCategoryInUseOrphansItems(items: seq<Item>, categories: seq<string>, cat: string)
    requires InUse(items, cat)
    ensures exists k :: 0 <= k < |items| && items[k].category !in Without(categories, cat)
  {
    var k :| 0 <= k < |items| && items[k].category == cat;
    assert items[k].category !in Without(categories, cat);
  }

  /** The link pushed for a group whose URL is filled in: an empty caption becomes 'リンク'. */
  function LinkOf(g: Link): Link {
    Link(if g.caption == "" then "リンク" else g.caption, g.url)
  }

  /** The links the item form collects: a group with an empty URL is skipped, and every
      other group gives its link, with an empty caption replaced by 'リンク'. */
  function FormLinks(groups: seq<Link>): (r: seq<Link>)
    ensures |r| <= |groups|
    ensures forall k :: 0 <= k < |r| ==> r[k].url != "" && r[k].caption != ""
  {
    if groups == [] then []
    else
      var g := groups[0];
      var head := if g.url == "" then [] else [LinkOf(g)];
      head + FormLinks(groups[1..])
  }

  /** The links collected are exactly those of the groups with a URL: every such group gives
      its link, and every link comes from such a group. */
  lemma {:induction false} FormLinksOfFilledGroups(groups: seq<Link>)
    ensures forall g :: g in groups && g.url != "" ==> LinkOf(g) in FormLinks(groups)
    ensures forall l :: l in FormLinks(groups) ==> exists g :: g in groups && g.url != "" && l == LinkOf(g)
  {
    if groups != [] {
      var g, rest := groups[0], groups[1..];
      FormLinksOfFilledGroups(rest);
      assert FormLinks(groups) == (if g.url == "" then [] else [LinkOf(g)]) + FormLinks(rest);
      assert forall x :: x in groups ==> x == g || x in rest;
      assert forall x :: x in rest ==> x in groups;
    }
  }

  /** `parseInt(countField) || 0`: NaN becomes 0; a negative number is kept. */
  function FormCount(countField: string): int {
    match ParseInt(countField)
    case Some(n) => n
    case None => 0
  }

  /** The item document the form submit saves, as written. An empty hidden id field means a
      new item: it takes `freshId` (from the clock) and `order = items.length`. An edit saves a
      document with no `order` field, and setDoc without merge replaces the stored one. */
  function SubmittedItem(items: seq<Item>, idField: string, freshId: string, name: string, category: string,
                         countField: string, image: string, groups: seq<Link>, today: string): Item
  {
    Item(if idField != "" then idField else freshId, name, category, FormCount(countField), image,
         FormLinks(groups), if idField == "" then Some(|items|) else None, today)
  }

  /** The corrected submit: an edit keeps the order the item already has. */
  function SubmittedItemKeepingOrder(items: seq<Item>, idField: string, freshId: string, name: string, category: string,
                                     countField: string, image: string, groups: seq<Link>, today: string): Item
  {
    var i := FindIndex(items, idField);
    var order := if idField == "" || i == -1 then Some(|items|) else items[i].order;
    SubmittedItem(items, idField, freshId, name, category, countField, image, groups, today).(order := order)
  }

  /** The history record of a submit: 新規登録 from 0 for a new item, 情報更新 from the old count
      (0 when the item is no longer in the list) for an edit. */
  function SubmitHistory(items: seq<Item>, idField: string, name: string, count: int, now: string): HistoryEntry {
    if idField == "" then HistoryEntry(now, name, Created, 0, count)
    else
      var i := FindIndex(items, idField);
      HistoryEntry(now, name, InfoUpdated, if i == -1 then 0 else items[i].count, count)
  }

  /** The custom-sort key `a.order || 0`. */
  function SortKey(item: Item): int {
    match item.order
    case Some(n) => n
    case None => 0
  }

  /** A new item takes the next order number; once the orders are the indices (as after a
      drop) no item already holds it. */
  lemma NewItemTakesFreshOrder(items: seq<Item>, freshId: string, name: string, category: string,
                               countField: string, image: string, groups: seq<Link>, today: string)
    requires forall k :: 0 <= k < |items| ==> items[k].order == Some(k)
    ensures var it := SubmittedItem(items, "", freshId, name, category, countField, image, groups, today);
            it.order == Some(|items|) && forall k :: 0 <= k < |items| ==> items[k].order != it.order
  {
  }

  /** As written, editing an item whose sort key is not 0 saves it with no order, hence sort
      key 0, so in the custom sort it jumps among the items at order 0. */
  lemma EditDropsOrder(items: seq<Item>, i: nat, name: string, category: string,
                       countField: string, image: string, groups: seq<Link>, today: string)
    requires i < |items| && items[i].id != "" && SortKey(items[i]) != 0
    ensures var it := SubmittedItem(items, items[i].id, "", name, category, countField, image, groups, today);
            it.id == items[i].id && it.order == None && SortKey(it) == 0 != SortKey(items[i])
  {
  }

  /** Corrected: an edit keeps the item's order; a new item still takes the next one. */
  lemma EditKeepsOrder(items: seq<Item>, idField: string, freshId: string, name: string, category: string,
                       countField: string, image: string, groups: seq<Link>, today: string)
    ensures var it := SubmittedItemKeepingOrder(items, idField, freshId, name, category, countField, image, groups, today);
            var i := FindIndex(items, idField);
            && (idField != "" && i != -1 ==> it.id == items[i].id && it.order == items[i].order)
            && (idField == "" ==> it.order == Some(|items|))
  {
  }

  /** The stock tracker's in-memory state and its write log. */
  class Store {
    var items: seq<Item>
    var categories: seq<string>
    var log: seq<Write>

    constructor ()
      ensures items == [] && categories == DefaultCategories && log == []
    {
      items, categories, log := [], DefaultCategories, [];
    }

    /** The drop handler of an item card: splice the dragged item out and in at the
        target's index, then rewrite every order to its index and save every item. */
    method Drop(draggedId: string, targetId: string)
      modifies this
      ensures items == Reordered(old(items), draggedId, targetId)
      ensures log == old(log) + (if Moves(old(items), draggedId, targetId) then SaveAll(items) else [])
      ensures categories == old(categories)
    {
      if draggedId == targetId {
        return;
      }
      var fromIdx := FindIndex(items, draggedId);
      var toIdx := FindIndex(items, targetId);
      if fromIdx != -1 && toIdx != -1 {
        var moved := items[fromIdx];
        items := items[..fromIdx] + items[fromIdx + 1..];
        items := items[..toIdx] + [moved] + items[toIdx..];
        assert items == Move(old(items), fromIdx, toIdx);
        RenumberAndSave();
      }
    }

    /** The bulk update after a drop: every item's order becomes its index, and each
        item is saved once, in list order. */
    method RenumberAndSave()
      modifies this
      ensures items == Renumbered(old(items))
      ensures log == old(log) + SaveAll(items)
      ensures categories == old(categories)
    {
      var idx := 0;
      while idx < |items|
        invariant 0 <= idx <= |items| == |old(items)|
        invariant forall k :: 0 <= k < idx ==> items[k] == old(items)[k].(order := Some(k))
        invariant forall k :: idx <= k < |items| ==> items[k] == old(items)[k]
        invariant |log| == |old(log)| + idx
        invariant forall k :: 0 <= k < |old(log)| ==> log[k] == old(log)[k]
        invariant forall k :: 0 <= k < idx ==> log[|old(log)| + k] == SaveItem(items[k])
        invariant categories == old(categories)
      {
        items := items[idx := items[idx].(order := Some(idx))];
        log := log + [SaveItem(items[idx])];
        idx := idx + 1;
      }
      assert items == Renumbered(old(items));
      assert log == old(log) + SaveAll(items);
    }

    /** The ＋/− buttons: the count moves by one but never below 0; only a real change
        stamps the date, records a history entry (previous → new) and saves the item. */
    method AdjustCount(id: string, increment: bool, today: string, now: string) returns (changed: bool)
      modifies this
      ensures var i := FindIndex(old(items), id);
              if i == -1 then !changed && items == old(items) && log == old(log)
              else
                var prev := old(items)[i].count;
                var c := NewCount(prev, increment);
                && changed == (c != prev)
                && items == (if changed then old(items)[i := old(items)[i].(count := c, lastUpdated := today)] else old(items))
                && log == old(log) + (if changed then [SaveHistory(HistoryEntry(now, old(items)[i].name, if increment then Added else Reduced, prev, c)), SaveItem(items[i])] else [])
      ensures CountsNonNegative(old(items)) ==> CountsNonNegative(items)
      ensures categories == old(categories)
    {
      changed := false;
      var i := FindIndex(items, id);
      if i == -1 {
        return;
      }
      var prev := items[i].count;
      var delta := if increment then 1 else -1;
      var count := if prev + delta > 0 then prev + delta else 0;
      if prev != count {
        changed := true;
        items := items[i := items[i].(count := count, lastUpdated := today)];
        log := log + [SaveHistory(HistoryEntry(now, items[i].name, if delta > 0 then Added else Reduced, prev, count))];
        log := log + [SaveItem(items[i])];
      }
    }

    /** The item form submit, as written: one history record, then one save of the
        submitted document. The local list waits for the store's snapshot. */
    method SubmitItem(idField: string, freshId: string, name: string, category: string,
                      countField: string, image: string, groups: seq<Link>, today: string, now: string)
      modifies this
      ensures var it := SubmittedItem(old(items), idField, freshId, name, category, countField, image, groups, today);
              log == old(log) + [SaveHistory(SubmitHistory(old(items), idField, name, it.count, now)), SaveItem(it)]
      ensures items == old(items) && categories == old(categories)
    {
      var item := SubmittedItem(items, idField, freshId, name, category, countField, image, groups, today);
      log := log + [SaveHistory(SubmitHistory(items, idField, name, item.count, now)), SaveItem(item)];
    }

    /** The item form submit with the order of an edited item preserved. */
    method SubmitItemKeepingOrder(idField: string, freshId: string, name: string, category: string,
                                  countField: string, image: string, groups: seq<Link>, today: string, now: string)
      modifies this
      ensures var it := SubmittedItemKeepingOrder(old(items), idField, freshId, name, category, countField, image, groups, today);
              && log == old(log) + [SaveHistory(SubmitHistory(old(items), idField, name, it.count, now)), SaveItem(it)]
              && (idField != "" && FindIndex(old(items), idField) != -1 ==> it.order == old(items)[FindIndex(old(items), idField)].order)
      ensures items == old(items) && categories == old(categories)
    {
      var item := SubmittedItemKeepingOrder(items, idField, freshId, name, category, countField, image, groups, today);
      log := log + [SaveHistory(SubmitHistory(items, idField, name, item.count, now)), SaveItem(item)];
    }

    /** The add-category button: a name the prompt returned empty (or cancelled) or one
        already listed is ignored; otherwise it is appended and the list saved. */
    method AddCategory(name: string) returns (added: bool)
      modifies this
      ensures added <==> name != "" && name !in old(categories)
      ensures categories == if added then old(categories) + [name] else old(categories)
      ensures log == if added then old(log) + [SaveCategories(categories)] else old(log)
      ensures NoDup(old(categories)) ==> NoDup(categories)
      ensures items == old(items)
    {
      added := name != "" && name !in categories;
      if added {
        categories := categories + [name];
        log := log + [SaveCategories(categories)];
      }
    }

    /** The delete button of a category row: the name is filtered out and the list saved. */
    method DeleteCategory(cat: string)
      modifies this
      ensures categories == Without(old(categories), cat)
      ensures forall c :: c in categories <==> c in old(categories) && c != cat
      ensures NoDup(old(categories)) ==> NoDup(categories)
      ensures log == old(log) + [SaveCategories(categories)]
      ensures items == old(items)
    {
      if NoDup(categories) {
        WithoutKeepsNoDup(categories, cat);
      }
      categories := Without(categories, cat);
      log := log + [SaveCategories(categories)];
    }
  }
}
