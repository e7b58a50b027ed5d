/** The favourite-drug list of src/hooks/useDrugFavorites.tsx, kept in step
    with the browser storage item "favoriteDrugs". The item's content is
    modelled by what parsing it yields; the JSON text is not modelled. */
module Favorites {
  import opened Lists

  const StorageKey: string := "favoriteDrugs"

  /** The storage item as the hook sees it: `Absent` when it is missing
      or the empty string (both falsy), `Unparsable` when JSON parsing
      throws, otherwise the parsed id list. */
  datatype Stored = Absent | Unparsable | Ids(ids: seq<string>)

  /** The toast shown by an action. */
  datatype Notice = AddedNotice(drugName: string) | RemovedNotice(drugName: string) | ClearedNotice

  /** The mount effect: a missing item keeps the current list, an
      unparsable one empties it, a parsed one replaces it. */
  function Loaded(current: seq<string>, item: Stored): (r: seq<string>)
    ensures item.Ids? ==> r == item.ids
    ensures item.Unparsable? ==> r == []
    ensures item.Absent? ==> r == current
  {
    match item
    case Absent => current
    case Unparsable => []
    case Ids(ids) => ids
  }

  /** The storage listener for an event on `key` carrying the item's new
      value: only a parsed value of this hook's own key is taken over. */
  function Synced(current: seq<string>, key: string, newValue: Stored): (r: seq<string>)
    ensures key == StorageKey && newValue.Ids? ==> r == newValue.ids
    ensures !(key == StorageKey && newValue.Ids?) ==> r == current
  {
    if key == StorageKey && newValue.Ids? then newValue.ids else current
  }

  /** The list shown agrees with the storage item. */
  predicate InStep(favorites: seq<string>, item: Stored) {
    item == Ids(favorites) || (item == Absent && favorites == [])
  }

  /** After mounting on a readable item the list agrees with it. */
  lemma LoadedInStep(current: seq<string>, item: Stored)
    requires item != Unparsable
    requires item.Absent? ==> current == []
    ensures InStep(Loaded(current, item), item)
  {
  }

  /** Another tab clearing all favourites removes the item; the removal
      event carries no value and this tab keeps its stale list, which it
      writes back on its next toggle. */
  lemma ClearInOtherTabLeavesStale()
    ensures var kept := Synced(["ketamine"], StorageKey, Absent);
      kept == ["ketamine"] && !InStep(kept, Absent)
    ensures Toggled(Synced(["ketamine"], StorageKey, Absent), "propofol") == ["ketamine", "propofol"]
  {
  }

  /** The listener with removal handled: a removed item empties the list,
      as clearing does in the tab that cleared. */
  function SyncedFixed(current: seq<string>, key: string, newValue: Stored): (r: seq<string>)
    ensures key == StorageKey && newValue.Ids? ==> r == newValue.ids
    ensures key == StorageKey && newValue.Absent? ==> r == []
    ensures key != StorageKey || newValue.Unparsable? ==> r == current
  {
    if key != StorageKey then current
    else match newValue
      case Absent => []
      case Unparsable => current
      case Ids(ids) => ids
  }

  /** With the fix every readable event of the item leaves the tab in step
      with it. */
  lemma SyncedFixedInStep(current: seq<string>, newValue: Stored)
    requires newValue != Unparsable
    ensures InStep(SyncedFixed(current, StorageKey, newValue), newValue)
  {
  }

  /** The hook's state in one tab: the list, and the storage item it shares
      with the other tabs. */
  class FavoritesStore {
    var favorites: seq<string>
    var item: Stored

    /** The first render: an empty list over whatever storage holds. */
    constructor (item: Stored)
      ensures favorites == [] && this.item == item
    {
      favorites := [];
      this.item := item;
    }

    /** The mount effect reading the item. */
    method Load()
      modifies this`favorites
      ensures favorites == Loaded(old(favorites), item)
    {
      match item
      case Absent =>
      case Unparsable => favorites := [];
      case Ids(ids) => favorites := ids;
    }

    /** A `storage` event from another tab: the shared item has changed to
        `newValue` when `key` is this item's key. */
    method OnStorageEvent(key: string, newValue: Stored)
      modifies this
      ensures favorites == Synced(old(favorites), key, newValue)
      ensures item == if key == StorageKey then newValue else old(item)
    {
      if key == StorageKey {
        item := newValue;
        if newValue.Ids? {
          favorites := newValue.ids;
        }
      }
    }

    /** `toggleFavorite`: the id leaves the list if present, otherwise it is
        appended; the new list is written to storage. */
    method ToggleFavorite(drugId: string, drugName: string) returns (notice: Notice)
      modifies this
      ensures favorites == Toggled(old(favorites), drugId)
      ensures item == Ids(favorites)
      ensures InStep(favorites, item)
      ensures IsFavorite(drugId) <==> !old(IsFavorite(drugId))
      ensures notice == if drugId in old(favorites) then RemovedNotice(drugName) else AddedNotice(drugName)
    {
      if drugId in favorites {
        favorites := RemoveAll(favorites, drugId);
        notice := RemovedNotice(drugName);
      } else {
        favorites := favorites + [drugId];
        notice := AddedNotice(drugName);
      }
      item := Ids(favorites);
    }

    /** `clearAllFavorites`: the list is emptied and the item removed. */
    method ClearAllFavorites() returns (notice: Notice)
      modifies this
      ensures favorites == [] && item == Absent
      ensures InStep(favorites, item)
      ensures notice == ClearedNotice
    {
      favorites := [];
      item := Absent;
      notice := ClearedNotice;
    }

    /** `isFavorite` */
    predicate IsFavorite(drugId: string)
      reads this
      ensures favorites == [] ==> !IsFavorite(drugId)
      ensures IsFavorite(drugId) <==> exists i :: 0 <= i < |favorites| && favorites[i] == drugId
    {
      drugId in favorites
    }

    /** `getFavoriteCount` */
    method GetFavoriteCount() returns (n: nat)
      ensures n == |favorites|
    {
      n := |favorites|;
    }

    /** `getFavoriteDrugIds`: a copy of the list. */
    method GetFavoriteDrugIds() returns (ids: seq<string>)
      ensures ids == favorites
    {
      ids := favorites;
    }
  }

  /** A drug starred and then unstarred is no longer a favourite and the
      two toasts say so; the storage item then holds the list without it. */
  method StarTwice(item: Stored, drugId: string, drugName: string)
    returns (notices: seq<Notice>, favorites: seq<string>, stored: Stored)
    requires item.Ids? ==> drugId !in item.ids
    ensures notices == [AddedNotice(drugName), RemovedNotice(drugName)]
    ensures drugId !in favorites
    ensures stored == Ids(favorites)
    ensures item.Ids? ==> favorites == item.ids
  {
    var store := new FavoritesStore(item);
    store.Load();
    var before := store.favorites;
    ToggleTwiceRestores(before, drugId);
    var first := store.ToggleFavorite(drugId, drugName);
    var second := store.ToggleFavorite(drugId, drugName);
    notices, favorites, stored := [first, second], store.favorites, store.item;
  }
}
