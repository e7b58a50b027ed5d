/** The preferences of src/hooks/useUserSettings.tsx: defaults, a partial
    update merged over the current settings (`{...prev, ...partial}`), and
    the storage item "userSettings", read once on mount and written after
    every change once the read has happened. */
module UserSettings {
  import opened Wrappers

  datatype Theme = LightTheme | DarkTheme | SystemTheme
  datatype FontSize = Small | Medium | Large
  datatype ViewMode = ListView | TableView | CardsView

  /** `lastVisited` is an optional key: `None` is the key being absent. */
  datatype Settings = Settings(
    theme: Theme, fontSize: FontSize, showFavorites: bool,
    defaultView: ViewMode, lastVisited: Option<string>)

  /** A `Partial<UserSettings>`: `None` is a key the object does not have. */
  datatype Partial = Partial(
    theme: Option<Theme>, fontSize: Option<FontSize>, showFavorites: Option<bool>,
    defaultView: Option<ViewMode>, lastVisited: Option<string>)

  const DefaultSettings: Settings := Settings(SystemTheme, Medium, false, ListView, None)

  const NoKeys: Partial := Partial(None, None, None, None, None)

  /** `{...s, ...p}`: each key `p` has wins, every other key keeps its
      value in `s`. */
  function Merge(s: Settings, p: Partial): (r: Settings)
    ensures p == NoKeys ==> r == s
    ensures AsPartial(r) == Combine(AsPartial(s), p)
  {
    Settings(
      p.theme.GetOr(s.theme), p.fontSize.GetOr(s.fontSize), p.showFavorites.GetOr(s.showFavorites),
      p.defaultView.GetOr(s.defaultView), if p.lastVisited.Some? then p.lastVisited else s.lastVisited)
  }

  /** The object a merge writes: every key of the settings, `lastVisited`
      only when it is set (`JSON.stringify` drops an undefined key). */
  function AsPartial(s: Settings): (p: Partial)
  {
    Partial(Some(s.theme), Some(s.fontSize), Some(s.showFavorites), Some(s.defaultView), s.lastVisited)
  }

  /** `{...p, ...q}` on two partial objects. */
  function Combine(p: Partial, q: Partial): (r: Partial)
  {
    Partial(
      if q.theme.Some? then q.theme else p.theme,
      if q.fontSize.Some? then q.fontSize else p.fontSize,
      if q.showFavorites.Some? then q.showFavorites else p.showFavorites,
      if q.defaultView.Some? then q.defaultView else p.defaultView,
      if q.lastVisited.Some? then q.lastVisited else p.lastVisited)
  }

  /** An update with no keys changes nothing. */
  lemma MergeNoKeys(s: Settings)
    ensures Merge(s, NoKeys) == s
  {
  }

  /** Applying the same update twice is applying it once. */
  lemma MergeIdempotent(s: Settings, p: Partial)
    ensures Merge(Merge(s, p), p) == Merge(s, p)
  {
  }

  /** Two updates in a row are one update with the later keys winning. */
  lemma MergeTwice(s: Settings, p: Partial, q: Partial)
    ensures Merge(Merge(s, p), q) == Merge(s, Combine(p, q))
  {
  }

  /** The keys an update sets take its values; the others are kept. */
  lemma MergeKeys(s: Settings, p: Partial)
    ensures p.theme.Some? ==> Merge(s, p).theme == p.theme.value
    ensures p.theme.None? ==> Merge(s, p).theme == s.theme
    ensures p.fontSize.Some? ==> Merge(s, p).fontSize == p.fontSize.value
    ensures p.fontSize.None? ==> Merge(s, p).fontSize == s.fontSize
    ensures p.showFavorites.Some? ==> Merge(s, p).showFavorites == p.showFavorites.value
    ensures p.showFavorites.None? ==> Merge(s, p).showFavorites == s.showFavorites
    ensures p.defaultView.Some? ==> Merge(s, p).defaultView == p.defaultView.value
    ensures p.defaultView.None? ==> Merge(s, p).defaultView == s.defaultView
    ensures Merge(s, p).lastVisited == if p.lastVisited.Some? then p.lastVisited else s.lastVisited
  {
  }

  /** Settings written to storage and read back by a fresh mount (which
      starts from the defaults) are the same settings. */
  lemma SaveThenLoadRoundTrip(s: Settings)
    ensures Merge(DefaultSettings, AsPartial(s)) == s
  {
  }

  /** A stored record whose every key is set decides the settings whatever
      they were before, except a `lastVisited` it lacks. */
  lemma FullRecordOverridesAll(s: Settings, t: Settings)
    ensures Merge(s, AsPartial(t)) == t.(lastVisited := if t.lastVisited.Some? then t.lastVisited else s.lastVisited)
  {
  }

  /** `updateLastVisited(path)` is the update that sets only that key. */
  lemma LastVisitedIsAnUpdate(s: Settings, path: string)
    ensures Merge(s, NoKeys.(lastVisited := Some(path))) == s.(lastVisited := Some(path))
  {
  }

  /** The storage item as the hook sees it. */
  datatype Stored = Absent | Unparsable | Saved(record: Partial)

  /** The mount effect's update of the settings. */
  function Loaded(current: Settings, item: Stored): (r: Settings)
    ensures item.Saved? ==> r == Merge(current, item.record)
    ensures !item.Saved? ==> r == current
  {
    if item.Saved? then Merge(current, item.record) else current
  }

  class SettingsStore {
    var settings: Settings
    var isLoaded: bool
    var item: Stored

    /** The first render: the defaults, not loaded; the save effect
        writes nothing yet. */
    constructor (item: Stored)
      ensures settings == DefaultSettings && !isLoaded && this.item == item
    {
      settings := DefaultSettings;
      isLoaded := false;
      this.item := item;
    }

    /** The save effect: runs after every change of the settings or of
        `isLoaded`, and writes only once loaded. */
    method Persist()
      modifies this`item
      ensures item == if isLoaded then Saved(AsPartial(settings)) else old(item)
    {
      if isLoaded {
        item := Saved(AsPartial(settings));
      }
    }

    /** The mount effect, followed by the save effect it triggers. Loading
        is marked done even when the item cannot be parsed. */
    method Load()
      modifies this
      ensures settings == Loaded(old(settings), old(item))
      ensures isLoaded
      ensures item == Saved(AsPartial(settings))
    {
      if item.Saved? {
        settings := Merge(settings, item.record);
      }
      isLoaded := true;
      Persist();
    }

    /** `updateSettings` */
    method UpdateSettings(p: Partial)
      modifies this`settings, this`item
      ensures settings == Merge(old(settings), p)
      ensures item == if isLoaded then Saved(AsPartial(settings)) else old(item)
    {
      settings := Merge(settings, p);
      Persist();
    }

    /** `resetSettings`: the defaults, which drop `lastVisited`. */
    method ResetSettings()
      modifies this`settings, this`item
      ensures settings == DefaultSettings
      ensures item == if isLoaded then Saved(AsPartial(settings)) else old(item)
    {
      settings := DefaultSettings;
      Persist();
    }

    /** `updateLastVisited` */
    method UpdateLastVisited(path: string)
      modifies this`settings, this`item
      ensures settings == old(settings).(lastVisited := Some(path))
      ensures item == if isLoaded then Saved(AsPartial(settings)) else old(item)
    {
      settings := settings.(lastVisited := Some(path));
      Persist();
    }
  }

  /** A corrupt stored value gives the defaults and is overwritten by
      them; nothing is written before the read. */
  method MountOnCorruptItem() returns (settings: Settings, loaded: bool, item: Stored)
    ensures settings == DefaultSettings && loaded
    ensures item == Saved(AsPartial(DefaultSettings))
  {
    var store := new SettingsStore(Unparsable);
    store.Persist();
    assert store.item == Unparsable;
    store.Load();
    settings, loaded, item := store.settings, store.isLoaded, store.item;
  }

  /** Settings saved by one visit come back unchanged on the next. */
  method ReloadRestores(s: Settings) returns (restored: Settings)
    ensures restored == s
  {
    var store := new SettingsStore(Saved(AsPartial(s)));
    store.Load();
    SaveThenLoadRoundTrip(s);
    restored := store.settings;
  }
}
