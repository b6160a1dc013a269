/** The favourite store of js/main.js: a `Set` of listing identifiers kept
    in memory and written through to one `localStorage` slot. */
module Favorites {
  import opened JsValues
  import opened Seqs

  /** `FAV_KEY`, the `localStorage` key of the slot. The model has one slot,
      so the key only names it. */
  const StorageKey: string := "airbnb_fav_ids_v1"

  /** What reading the slot and handing it to `JSON.parse` yields: nothing
      stored, the empty string, text `JSON.parse` rejects, or a parsed value. */
  datatype Slot = Missing | Blank | Unparseable | Holds(value: Value)

  /** `String` applied to each element, as `arr.map(String)` does. */
  function StringifyAll(items: seq<Value>): (r: seq<string>)
    ensures |r| == |items|
    ensures forall i :: 0 <= i < |items| ==> r[i] == ToString(items[i])
  {
    seq(|items|, i requires 0 <= i < |items| => ToString(items[i]))
  }

  /** `loadFavorites()`, as the iteration order of the `Set` it builds: empty
      unless the slot holds an array, else the stringified elements with
      repetitions dropped. */
  function LoadFavorites(slot: Slot): (r: seq<string>)
    ensures Distinct(r)
    ensures !(slot.Holds? && slot.value.Arr?) ==> r == []
    ensures slot.Holds? && slot.value.Arr? ==>
      Elements(r) == set i | 0 <= i < |slot.value.items| :: ToString(slot.value.items[i])
  {
    if slot.Holds? && slot.value.Arr? then
      var items := slot.value.items;
      var r := AddAll([], StringifyAll(items));
      assert Elements(StringifyAll(items)) == set i | 0 <= i < |items| :: ToString(items[i]) by {
        var strs := StringifyAll(items);
        forall x | x in strs ensures x in set i | 0 <= i < |items| :: ToString(items[i]) {
          var i :| 0 <= i < |strs| && strs[i] == x;
        }
      }
      r
    else []
  }

  /** The loaded identifiers come in the order of their first occurrences
      in the stored array. */
  lemma LoadFavoritesOrder(items: seq<Value>)
    ensures var r := LoadFavorites(Holds(Arr(items)));
            var strs := StringifyAll(items);
            && (forall i :: 0 <= i < |r| ==> r[i] in strs)
            && (forall i, j :: 0 <= i < j < |r| ==> FirstIndex(strs, r[i]) < FirstIndex(strs, r[j]))
  {
    assert LoadFavorites(Holds(Arr(items))) == AddAll([], StringifyAll(items));
    AddAllOrder([], StringifyAll(items));
  }

  /** `saveFavorites()`: the slot then holds the array of the identifiers, in
      the set's order (`JSON.stringify` followed by `JSON.parse` gives that
      array back). */
  function SavedSlot(order: seq<string>): (slot: Slot)
    ensures slot.Holds? && slot.value.Arr? && |slot.value.items| == |order|
    ensures forall i :: 0 <= i < |order| ==> slot.value.items[i] == Str(order[i])
    ensures StringifyAll(slot.value.items) == order
  {
    Holds(Arr(seq(|order|, i requires 0 <= i < |order| => Str(order[i]))))
  }

  /** Loading what was saved gives back the same identifiers in the same order. */
  lemma LoadSaved(order: seq<string>)
    requires Distinct(order)
    ensures LoadFavorites(SavedSlot(order)) == order
  {
    var items := SavedSlot(order).value.items;
    assert StringifyAll(items) == order;
    AddAllFresh([], order);
    assert [] + order == order;
  }

  /** The membership test of identifiers other than `id`. */
  function Other(id: string): string -> bool {
    x => x != id
  }

  /** The set after `toggleFavoriteById(id)`: `id` flips, nothing else changes. */
  function Toggled(favs: set<string>, id: string): (r: set<string>)
    ensures id in r <==> id !in favs
    ensures forall x :: x != id ==> (x in r <==> x in favs)
  {
    if id in favs then favs - {id} else favs + {id}
  }

  /** Toggling the same identifier twice restores the set. */
  lemma ToggleTwice(favs: set<string>, id: string)
    ensures Toggled(Toggled(favs, id), id) == favs
  {
  }

  /** The set's iteration order after the toggle: `delete` removes `id` in
      place, `add` appends it. */
  function ToggledOrder(order: seq<string>, id: string): (r: seq<string>)
    ensures Distinct(order) ==> Distinct(r) && Elements(r) == Toggled(Elements(order), id)
  {
    if id in order then
      FilterDistinctWhen(Other(id), order);
      Filter(Other(id), order)
    else
      AppendFreshDistinct(order, id);
      order + [id]
  }

  lemma FilterDistinctWhen(p: string -> bool, s: seq<string>)
    ensures Distinct(s) ==> Distinct(Filter(p, s))
  {
    if Distinct(s) {
      FilterDistinct(p, s);
    }
  }

  lemma AppendFreshDistinct(s: seq<string>, x: string)
    requires x !in s
    ensures Distinct(s) ==> Distinct(s + [x])
  {
    if Distinct(s) {
      forall y ensures multiset(s + [x])[y] <= 1 {
        assert multiset(s + [x]) == multiset(s) + multiset{x};
      }
    }
  }

  /** Adding and then deleting a new identifier restores the order. */
  lemma ToggleTwiceFresh(order: seq<string>, id: string)
    requires id !in order
    ensures ToggledOrder(ToggledOrder(order, id), id) == order
  {
    FilterConcat(Other(id), order, [id]);
    FilterAll(Other(id), order);
    assert Filter(Other(id), [id]) == [];
  }

  /** Deleting and then re-adding a favourite moves it to the end of the
      stored array: the set is restored, the saved order is not. */
  lemma ToggleTwiceMovesToEnd(order: seq<string>, id: string)
    requires id in order
    ensures ToggledOrder(ToggledOrder(order, id), id) == Filter(Other(id), order) + [id]
  {
  }

  /** For instance, with favourites [a, b], removing and re-adding a gives [b, a]. */
  lemma ToggleTwiceReorders(a: string, b: string)
    requires a != b
    ensures ToggledOrder(ToggledOrder([a, b], a), a) == [b, a]
  {
    var order := [a, b];
    assert a in order;
    ToggleTwiceMovesToEnd(order, a);
    assert Filter(Other(a), order) == [b] by {
      assert order == [a] + [b];
      FilterConcat(Other(a), [a], [b]);
      assert Filter(Other(a), [a]) == [];
      FilterAll(Other(a), [b]);
    }
  }

  /** The store: the module-level `favorites` set, the order it iterates in,
      and the `localStorage` slot under `StorageKey`. */
  class FavoriteStore {
    var favorites: set<string>
    var order: seq<string>
    var persisted: Slot

    /** `order` lists each favourite once. */
    ghost predicate Valid()
      reads this
    {
      Distinct(order) && Elements(order) == favorites
    }

    /** The store at page start: `new Set()` over whatever the slot holds. */
    constructor(slot: Slot)
      ensures Valid()
      ensures favorites == {} && order == [] && persisted == slot
    {
      favorites := {};
      order := [];
      persisted := slot;
    }

    /** `favorites.has(id)`. */
    predicate Has(id: string)
      reads this
    {
      id in favorites
    }

    /** `favorites = loadFavorites()`. */
    method Load()
      modifies this
      ensures Valid()
      ensures order == LoadFavorites(persisted) && favorites == Elements(order)
      ensures persisted == old(persisted)
    {
      order := LoadFavorites(persisted);
      favorites := Elements(order);
    }

    /** `saveFavorites()`: the slot then loads back to the current favourites. */
    method Save()
      requires Valid()
      modifies `persisted
      ensures persisted == SavedSlot(order)
      ensures LoadFavorites(persisted) == order
    {
      persisted := SavedSlot(order);
      LoadSaved(order);
    }

    /** `toggleFavoriteById(id)`: flips `id`, then writes the set through. */
    method Toggle(id: string)
      requires Valid()
      modifies this
      ensures Valid()
      ensures favorites == Toggled(old(favorites), id)
      ensures order == ToggledOrder(old(order), id)
      ensures persisted == SavedSlot(order)
      ensures Elements(LoadFavorites(persisted)) == favorites
    {
      if Has(id) {
        favorites := favorites - {id};
        FilterDistinct(Other(id), order);
        order := Filter(Other(id), order);
      } else {
        favorites := favorites + {id};
        AppendFreshDistinct(order, id);
        order := order + [id];
      }
      assert Valid() && order == ToggledOrder(old(order), id);
      Save();
    }
  }
}
