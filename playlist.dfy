// The app's play queue (src/app/src/playlist.cpp): entries held in a model
// adapter, the index of the current entry, and the table of requested icons
// keyed by URL. Signals are returned as flags saying whether they fire.
module Playlist {

  import opened Wrappers
  import Decimal
  import ModelAdapter

  datatype Source = Bandcamp | Youtube | Library

  /** Playlist::Entry: what was queued, and whether the user selected it. */
  class Entry {
    const source: Source
    const title: string
    const artist: string
    const url: string
    const iconUrl: string
    const duration: int
    var selected: bool

    constructor (source: Source, title: string, artist: string, url: string, iconUrl: string, duration: int)
      ensures this.source == source && this.title == title && this.artist == artist
      ensures this.url == url && this.iconUrl == iconUrl && this.duration == duration
      ensures !selected
    {
      this.source := source;
      this.title := title;
      this.artist := artist;
      this.url := url;
      this.iconUrl := iconUrl;
      this.duration := duration;
      selected := false;
    }

    /** durationString: "%d:%02d" of the whole minutes and the remaining seconds. */
    function DurationString(): (s: string)
      ensures s == Decimal.MinutesSeconds(Decimal.CDiv(duration, 60), Decimal.CMod(duration, 60))
    {
      Decimal.MinutesSeconds(Decimal.CDiv(duration, 60), Decimal.CMod(duration, 60))
    }

    /** setSelected: selectedChanged fires only when the flag changes. */
    method SetSelected(s: bool) returns (changed: bool)
      modifies this
      ensures selected == s
      ensures changed <==> old(selected) != s
    {
      if selected == s {
        return false;
      }
      selected := s;
      return true;
    }
  }

  /** The index after advance(delta) on a non-empty list: past the end goes to 0, before 0 to the last entry. */
  function Advanced(current: int, delta: int, size: nat): (r: int)
    requires size > 0
    ensures 0 <= r < size
    ensures 0 <= current + delta < size ==> r == current + delta
    ensures current + delta >= size ==> r == 0
    ensures current + delta < 0 ==> r == size - 1
  {
    var c := current + delta;
    if c >= size then 0 else if c < 0 then size - 1 else c
  }

  /** requestIcon: an unknown URL is registered with an empty icon; a known one is left alone. */
  function IconRequested(icons: map<string, string>, url: string): (r: map<string, string>)
    ensures r.Keys == icons.Keys + {url}
    ensures forall u :: u in icons ==> r[u] == icons[u]
    ensures url !in icons ==> r[url] == ""
  {
    if url in icons then icons else icons[url := ""]
  }

  /** Requesting an icon twice is the same as requesting it once. */
  lemma IconRequestIdempotent(icons: map<string, string>, url: string)
    ensures IconRequested(IconRequested(icons, url), url) == IconRequested(icons, url)
  {
  }

  /** Some entry shows the icon at url. */
  predicate IconUsed(entries: seq<Entry>, url: string)
  {
    exists i | 0 <= i < |entries| :: entries[i].iconUrl == url
  }

  /**
   * purgeUnusedIcons as written: an icon is kept when some entry's icon URL
   * equals the icon's stored data, not its URL.
   */
  function PurgedAsWritten(icons: map<string, string>, entries: seq<Entry>): (r: map<string, string>)
    ensures r.Keys == set u | u in icons && IconUsed(entries, icons[u])
    ensures forall u :: u in r ==> r[u] == icons[u]
  {
    map u | u in icons && IconUsed(entries, icons[u]) :: icons[u]
  }

  /** purgeUnusedIcons as intended: exactly the icons some entry shows are kept. */
  function Purged(icons: map<string, string>, entries: seq<Entry>): (r: map<string, string>)
    ensures r.Keys == set u | u in icons && IconUsed(entries, u)
    ensures forall u :: u in r ==> r[u] == icons[u]
  {
    map u | u in icons && IconUsed(entries, u) :: icons[u]
  }

  /**
   * A requested icon still holds its empty placeholder, so the written purge
   * drops it although an entry shows it.
   */
  lemma PurgeDropsUsedIcon(icons: map<string, string>, entries: seq<Entry>, k: nat)
    requires k < |entries| && entries[k].iconUrl in icons && icons[entries[k].iconUrl] == ""
    requires forall i :: 0 <= i < |entries| ==> entries[i].iconUrl != ""
    ensures entries[k].iconUrl !in PurgedAsWritten(icons, entries)
    ensures entries[k].iconUrl in Purged(icons, entries)
  {
  }

  class Playlist {
    const entries: ModelAdapter.Adapter<Entry, Entry>
    var icons: map<string, string>
    var current: int
    var hasSelected: bool

    predicate Valid()
      reads this, entries
    {
      entries.Valid()
    }

    /** A new playlist is empty, shows entry 0, and registers the "entry" role. */
    constructor ()
      ensures Valid() && fresh(entries)
      ensures entries.data == [] && entries.roleNames == ["entry"]
      ensures icons == map[] && current == 0 && !hasSelected
    {
      entries := new ModelAdapter.Adapter<Entry, Entry>();
      icons := map[];
      current := 0;
      hasSelected := false;
      new;
      var _ := entries.AddValueAccessor("entry", (e: Entry) => e);
    }

    /** currentSong: the current entry, or null when the index is out of range. */
    function CurrentSong(): (r: Option<Entry>)
      reads this, entries
      ensures r.Some? <==> 0 <= current < |entries.data|
      ensures r.Some? ==> r.value == entries.data[current]
    {
      if 0 <= current < |entries.data| then Some(entries.data[current]) else None
    }

    /**
     * advance: nothing on an empty list or a zero step; otherwise the index
     * moves by delta and wraps to the other end, and currentSongChanged fires.
     */
    method Advance(delta: int) returns (changed: bool)
      modifies this
      ensures entries.data == old(entries.data) && icons == old(icons) && hasSelected == old(hasSelected)
      ensures changed <==> |entries.data| > 0 && delta != 0
      ensures !changed ==> current == old(current)
      ensures changed ==> current == Advanced(old(current), delta, |entries.data|) && CurrentSong().Some?
    {
      if entries.Size() == 0 || delta == 0 {
        return false;
      }
      current := current + delta;
      if current >= entries.Size() {
        current := 0;
      } else if current < 0 {
        current := entries.Size() - 1;
      }
      return true;
    }

    method Next() returns (changed: bool)
      modifies this
      ensures entries.data == old(entries.data) && icons == old(icons) && hasSelected == old(hasSelected)
      ensures changed <==> |entries.data| > 0
      ensures changed ==> current == Advanced(old(current), 1, |entries.data|)
      ensures !changed ==> current == old(current)
    {
      changed := Advance(1);
    }

    method Previous() returns (changed: bool)
      modifies this
      ensures entries.data == old(entries.data) && icons == old(icons) && hasSelected == old(hasSelected)
      ensures changed <==> |entries.data| > 0
      ensures changed ==> current == Advanced(old(current), -1, |entries.data|)
      ensures !changed ==> current == old(current)
    {
      changed := Advance(-1);
    }

    /** requestIcon: the URL is registered once. */
    method RequestIcon(url: string)
      modifies this
      ensures icons == IconRequested(old(icons), url)
      ensures current == old(current) && hasSelected == old(hasSelected)
    {
      if url in icons {
        return;
      }
      icons := icons[url := ""];
    }

    /** onSelectedChanged: hasSelectedSongs is whether any entry is selected; the signal fires when it flips. */
    method OnSelectedChanged() returns (changed: bool)
      modifies this
      ensures hasSelected <==> exists i | 0 <= i < |entries.data| :: entries.data[i].selected
      ensures changed <==> hasSelected != old(hasSelected)
      ensures icons == old(icons) && current == old(current)
    {
      var any := exists i | 0 <= i < |entries.data| :: entries.data[i].selected;
      changed := hasSelected != any;
      hasSelected := any;
    }

    /**
     * remove as written: an entry that is not current stays in the list
     * (while it is deleted); one before the current index moves that index
     * back by one.
     */
    method RemoveAsWritten(entry: Entry) returns (currentChanged: bool)
      modifies this, entries
      ensures var i := ModelAdapter.IndexOf(old(entries.data), entry);
        && (i == old(current) ==> entries.data == ModelAdapter.RemovedFirst(old(entries.data), entry))
        && (i != old(current) ==> entries.data == old(entries.data))
        && current == (if 0 <= i < old(current) then old(current) - 1 else old(current))
        && currentChanged == (i >= 0 && i == old(current))
        && icons == (if i >= 0 then PurgedAsWritten(old(icons), entries.data) else old(icons))
      ensures entries.roleNames == old(entries.roleNames) && entries.accessors == old(entries.accessors)
      ensures hasSelected == old(hasSelected)
    {
      var i := ModelAdapter.IndexOf(entries.data, entry);
      currentChanged := false;
      if i >= 0 {
        if i == current {
          entries.Remove(entry);
          currentChanged := true;
        } else if i < current {
          current := current - 1;
        }
        icons := PurgedAsWritten(icons, entries.data);
      }
    }

    /**
     * remove as intended: the entry leaves the list wherever it is, the
     * current index follows the entries after it, and icons nobody shows are
     * dropped.
     */
    method Remove(entry: Entry) returns (currentChanged: bool)
      modifies this, entries
      ensures var i := ModelAdapter.IndexOf(old(entries.data), entry);
        && entries.data == ModelAdapter.RemovedFirst(old(entries.data), entry)
        && current == (if 0 <= i < old(current) then old(current) - 1 else old(current))
        && currentChanged == (i >= 0 && i == old(current))
        && icons == (if i >= 0 then Purged(old(icons), entries.data) else old(icons))
      ensures entry !in old(entries.data) ==> entries.data == old(entries.data)
      ensures entries.roleNames == old(entries.roleNames) && entries.accessors == old(entries.accessors)
      ensures hasSelected == old(hasSelected)
    {
      ghost var before := entries.data;
      var i := ModelAdapter.IndexOf(entries.data, entry);
      assert ModelAdapter.RemovedFirst(before, entry) == if i < 0 then before else before[..i] + before[i + 1..];
      currentChanged := false;
      if i >= 0 {
        entries.RemoveAt(i);
        if i == current {
          currentChanged := true;
        } else if i < current {
          current := current - 1;
        }
        icons := Purged(icons, entries.data);
      }
    }

    /** append: a new entry at the end, its icon requested; the current index is not adjusted. */
    method Append(source: Source, title: string, artist: string, url: string, duration: int, iconUrl: string)
      returns (e: Entry)
      modifies this, entries
      ensures fresh(e) && e.source == source && e.title == title && e.artist == artist
      ensures e.url == url && e.iconUrl == iconUrl && e.duration == duration && !e.selected
      ensures entries.data == old(entries.data) + [e]
      ensures icons == IconRequested(old(icons), iconUrl) && current == old(current) && hasSelected == old(hasSelected)
      ensures entries.roleNames == old(entries.roleNames) && entries.accessors == old(entries.accessors)
    {
      e := CreateEntry(source, title, artist, url, duration, iconUrl);
      entries.Add(e);
    }

    /** prepend: a new entry at the front, its icon requested; the current index is not adjusted. */
    method Prepend(source: Source, title: string, artist: string, url: string, duration: int, iconUrl: string)
      returns (e: Entry)
      modifies this, entries
      ensures fresh(e) && e.source == source && e.title == title && e.artist == artist
      ensures e.url == url && e.iconUrl == iconUrl && e.duration == duration && !e.selected
      ensures entries.data == [e] + old(entries.data)
      ensures icons == IconRequested(old(icons), iconUrl) && current == old(current) && hasSelected == old(hasSelected)
      ensures entries.roleNames == old(entries.roleNames) && entries.accessors == old(entries.accessors)
    {
      e := CreateEntry(source, title, artist, url, duration, iconUrl);
      entries.Insert(0, e);
      assert ModelAdapter.Inserted(old(entries.data), 0, e) == [e] + old(entries.data);
    }

    /**
     * prepend as written: the adapter's insert at index 0 first adds the
     * entry when the playlist is empty, so an empty playlist ends up
     * listing the new entry twice.
     */
    method PrependAsWritten(source: Source, title: string, artist: string, url: string, duration: int, iconUrl: string)
      returns (e: Entry)
      modifies this, entries
      ensures fresh(e) && e.source == source && e.title == title && e.artist == artist
      ensures e.url == url && e.iconUrl == iconUrl && e.duration == duration && !e.selected
      ensures old(entries.data) == [] ==> entries.data == [e, e]
      ensures old(entries.data) != [] ==> entries.data == [e] + old(entries.data)
      ensures icons == IconRequested(old(icons), iconUrl) && current == old(current) && hasSelected == old(hasSelected)
      ensures entries.roleNames == old(entries.roleNames) && entries.accessors == old(entries.accessors)
    {
      e := CreateEntry(source, title, artist, url, duration, iconUrl);
      ghost var before := entries.data;
      entries.InsertAsWritten(0, e);
      if before == [] {
        ModelAdapter.InsertAtEndTwice(before, e);
      } else {
        ModelAdapter.InsertAgreesBeforeEnd(before, 0, e);
        assert ModelAdapter.Inserted(before, 0, e) == [e] + before;
      }
    }

    method CreateEntry(source: Source, title: string, artist: string, url: string, duration: int, iconUrl: string)
      returns (e: Entry)
      modifies this
      ensures fresh(e) && e.source == source && e.title == title && e.artist == artist
      ensures e.url == url && e.iconUrl == iconUrl && e.duration == duration && !e.selected
      ensures icons == IconRequested(old(icons), iconUrl) && current == old(current) && hasSelected == old(hasSelected)
    {
      e := new Entry(source, title, artist, url, iconUrl, duration);
      RequestIcon(iconUrl);
    }
  }

  /** From the last entry, next wraps to the first; from the first, previous wraps to the last. */
  lemma AdvanceWraps(size: nat)
    requires size > 0
    ensures Advanced(size - 1, 1, size) == 0
    ensures Advanced(0, -1, size) == size - 1
  {
  }

  /** Inside the list, a step forward and a step back return to the same entry. */
  lemma NextThenPrevious(current: int, size: nat)
    requires 0 <= current < size
    ensures Advanced(Advanced(current, 1, size), -1, size) == (if current == size - 1 then size - 1 else current)
  {
  }
}
