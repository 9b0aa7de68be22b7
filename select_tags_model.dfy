// The tag picker of the app (src/app/src/selecttagsmodel.cpp): root tags are
// collected, and when the list is rebuilt every root is listed with its
// descendants below it, depth first, siblings sorted by lower-cased name and
// each entry indented by its depth. Selection flags survive a clear and a
// rebuild. The tag database is given as a map from tag id to name, parent and
// children; a tag is identified by its id. The single-shot timer that runs
// updateEntries is left to the caller, who calls UpdateEntries.
module SelectTagsModel {

  import Text
  import Sorting

  /** What the picker reads of a tag: its name, its parent (0 for none) and its children. */
  datatype Tag = Tag(name: string, parent: nat, children: seq<nat>)

  /**
   * The tags form a forest: every tag has a height below top, children
   * are known tags lower than their parent, and a parent is a known tag
   * higher than its child. Recursion down the children and the climb to a
   * root both end.
   */
  ghost predicate Ranked(db: map<nat, Tag>, height: map<nat, nat>, top: nat)
  {
    && (forall t :: t in db ==> t in height && height[t] < top)
    && (forall t, i :: t in db && 0 <= i < |db[t].children| ==>
          db[t].children[i] in db && height[db[t].children[i]] < height[t])
    && (forall t :: t in db && db[t].parent != 0 ==>
          db[t].parent in db && height[db[t].parent] > height[t])
  }

  /** The root above a tag. */
  function RootOf(db: map<nat, Tag>, height: map<nat, nat>, top: nat, t: nat): (r: nat)
    requires Ranked(db, height, top) && t in db
    ensures r in db && db[r].parent == 0
    ensures db[t].parent == 0 ==> r == t
    decreases top - height[t]
  {
    if db[t].parent != 0 then RootOf(db, height, top, db[t].parent) else t
  }

  /** A tag and its parent climb to the same root. */
  lemma RootOfParent(db: map<nat, Tag>, height: map<nat, nat>, top: nat, t: nat)
    requires Ranked(db, height, top) && t in db && db[t].parent != 0
    ensures RootOf(db, height, top, t) == RootOf(db, height, top, db[t].parent)
  {
  }

  /** The sort key of a tag: its name lower-cased. */
  function NameKey(db: map<nat, Tag>, t: nat): string
  {
    if t in db then Text.Lower(db[t].name) else ""
  }

  /** The comparison of sortTags as written: lower-cased names compared with less-or-equal. */
  function TagLessAsWritten(db: map<nat, Tag>, a: nat, b: nat): bool
  {
    Text.Compare(NameKey(db, a), NameKey(db, b)) <= 0
  }

  /** Under the comparison as written every tag sorts before itself, which the sort forbids. */
  lemma TagComparisonNotStrict(db: map<nat, Tag>, t: nat)
    ensures TagLessAsWritten(db, t, t)
  {
  }

  /** The comparison as intended: strictly earlier lower-cased names first. */
  function TagLess(db: map<nat, Tag>, a: nat, b: nat): bool
  {
    Text.Compare(NameKey(db, a), NameKey(db, b)) < 0
  }

  /** The comparison as written is the intended one with equal names added. */
  lemma AsWrittenIsLessOrSameName(db: map<nat, Tag>, a: nat, b: nat)
    ensures TagLessAsWritten(db, a, b) <==> TagLess(db, a, b) || NameKey(db, a) == NameKey(db, b)
  {
  }

  /** sortTags: the tags ordered by lower-cased name. */
  function SortTags(db: map<nat, Tag>, tags: seq<nat>): seq<nat>
  {
    Sorting.Sort((a, b) => TagLess(db, a, b), tags)
  }

  /** Sorting keeps the same tags, each with a name no earlier than the one before it. */
  lemma SortTagsSorted(db: map<nat, Tag>, tags: seq<nat>)
    ensures multiset(SortTags(db, tags)) == multiset(tags)
    ensures forall i :: 0 < i < |SortTags(db, tags)| ==>
      Text.Compare(NameKey(db, SortTags(db, tags)[i - 1]), NameKey(db, SortTags(db, tags)[i])) <= 0
  {
    var less := (a, b) => TagLess(db, a, b);
    forall a: nat, b: nat | less(a, b)
      ensures !less(b, a)
    {
      Text.CompareAntisymmetric(NameKey(db, a), NameKey(db, b));
    }
    Sorting.SortSorted(less, tags);
    var s := SortTags(db, tags);
    forall i | 0 < i < |s|
      ensures Text.Compare(NameKey(db, s[i - 1]), NameKey(db, s[i])) <= 0
    {
      Text.CompareAntisymmetric(NameKey(db, s[i - 1]), NameKey(db, s[i]));
    }
  }

  /** An entry of the list: the tag, whether it is selected, and its indentation. */
  datatype TagEntry = TagEntry(tag: nat, selected: bool, offset: int)

  /** The flag remembered for a tag, false when none is. */
  function Remembered(flags: map<nat, bool>, t: nat): bool
  {
    if t in flags then flags[t] else false
  }

  /** Every listed tag is known and lower than bound. */
  ghost predicate Below(db: map<nat, Tag>, height: map<nat, nat>, tags: seq<nat>, bound: nat)
  {
    forall i :: 0 <= i < |tags| ==> tags[i] in db && tags[i] in height && height[tags[i]] < bound
  }

  /** The children of a tag, sorted, are below it. */
  lemma SortedChildrenBelow(db: map<nat, Tag>, height: map<nat, nat>, top: nat, t: nat)
    requires Ranked(db, height, top) && t in db
    ensures Below(db, height, SortTags(db, db[t].children), height[t])
  {
    var cs := db[t].children;
    SortTagsSorted(db, cs);
    var s := SortTags(db, cs);
    forall i | 0 <= i < |s|
      ensures s[i] in db && height[s[i]] < height[t]
    {
      assert s[i] in multiset(cs);
      var j :| 0 <= j < |cs| && cs[j] == s[i];
    }
  }

  /** Sorting keeps tags below a bound below it. */
  lemma SortedBelow(db: map<nat, Tag>, height: map<nat, nat>, tags: seq<nat>, bound: nat)
    requires Below(db, height, tags, bound)
    ensures Below(db, height, SortTags(db, tags), bound)
  {
    SortTagsSorted(db, tags);
    var s := SortTags(db, tags);
    forall i | 0 <= i < |s|
      ensures s[i] in db && s[i] in height && height[s[i]] < bound
    {
      assert s[i] in multiset(tags);
      var j :| 0 <= j < |tags| && tags[j] == s[i];
    }
  }

  /** addTagEntry as a value: the tag at the given indentation, then its children's listings one level deeper. */
  function Listing(db: map<nat, Tag>, height: map<nat, nat>, top: nat, flags: map<nat, bool>, t: nat, offset: int): seq<TagEntry>
    requires Ranked(db, height, top) && t in db
    decreases height[t], 1, 0
  {
    SortedChildrenBelow(db, height, top, t);
    [TagEntry(t, Remembered(flags, t), offset)]
      + ListingAll(db, height, top, flags, SortTags(db, db[t].children), offset, height[t])
  }

  /** The listings of some tags one after the other, each one level below offset. */
  function ListingAll(db: map<nat, Tag>, height: map<nat, nat>, top: nat, flags: map<nat, bool>, tags: seq<nat>, offset: int, bound: nat): seq<TagEntry>
    requires Ranked(db, height, top) && Below(db, height, tags, bound)
    decreases bound, 0, |tags|
  {
    if tags == [] then []
    else
      ListingAll(db, height, top, flags, tags[..|tags| - 1], offset, bound)
        + Listing(db, height, top, flags, tags[|tags| - 1], offset + 1)
  }

  /** A tag's listing: its own entry, then its sorted children's listings. */
  lemma ListingUnfold(db: map<nat, Tag>, height: map<nat, nat>, top: nat, flags: map<nat, bool>, t: nat, offset: int)
    requires Ranked(db, height, top) && t in db
    ensures Below(db, height, SortTags(db, db[t].children), height[t])
    ensures Listing(db, height, top, flags, t, offset) ==
      [TagEntry(t, Remembered(flags, t), offset)]
        + ListingAll(db, height, top, flags, SortTags(db, db[t].children), offset, height[t])
  {
    SortedChildrenBelow(db, height, top, t);
  }

  /** Concatenation is associative. */
  lemma Associated<T>(a: seq<T>, b: seq<T>, c: seq<T>)
    ensures (a + b) + c == a + (b + c)
  {
  }

  /** One more tag adds its listing at the end. */
  lemma ListingAllSnoc(db: map<nat, Tag>, height: map<nat, nat>, top: nat, flags: map<nat, bool>, tags: seq<nat>, i: nat, offset: int, bound: nat)
    requires Ranked(db, height, top) && Below(db, height, tags, bound) && i < |tags|
    ensures Below(db, height, tags[..i], bound) && Below(db, height, tags[..i + 1], bound)
    ensures ListingAll(db, height, top, flags, tags[..i + 1], offset, bound)
      == ListingAll(db, height, top, flags, tags[..i], offset, bound) + Listing(db, height, top, flags, tags[i], offset + 1)
  {
    assert tags[..i + 1][..i] == tags[..i];
  }

  /** What every listed entry satisfies: its flag is the remembered one and it is indented at least to min. */
  ghost predicate ListedWell(flags: map<nat, bool>, es: seq<TagEntry>, min: int)
  {
    forall i :: 0 <= i < |es| ==> es[i].selected == Remembered(flags, es[i].tag) && es[i].offset >= min
  }

  /**
   * A listing starts with its tag at the given indentation; everything
   * after it is indented deeper, and every flag is the one remembered for
   * its tag.
   */
  lemma {:induction false} ListingShape(db: map<nat, Tag>, height: map<nat, nat>, top: nat, flags: map<nat, bool>, t: nat, offset: int)
    requires Ranked(db, height, top) && t in db
    ensures Listing(db, height, top, flags, t, offset)[0] == TagEntry(t, Remembered(flags, t), offset)
    ensures ListedWell(flags, Listing(db, height, top, flags, t, offset), offset)
    ensures ListedWell(flags, Listing(db, height, top, flags, t, offset)[1..], offset + 1)
    decreases height[t], 1, 0
  {
    SortedChildrenBelow(db, height, top, t);
    var cs := SortTags(db, db[t].children);
    ListingAllShape(db, height, top, flags, cs, offset, height[t]);
    var l := Listing(db, height, top, flags, t, offset);
    assert l[1..] == ListingAll(db, height, top, flags, cs, offset, height[t]);
  }

  lemma {:induction false} ListingAllShape(db: map<nat, Tag>, height: map<nat, nat>, top: nat, flags: map<nat, bool>, tags: seq<nat>, offset: int, bound: nat)
    requires Ranked(db, height, top) && Below(db, height, tags, bound)
    ensures ListedWell(flags, ListingAll(db, height, top, flags, tags, offset, bound), offset + 1)
    decreases bound, 0, |tags|
  {
    if tags != [] {
      var init := tags[..|tags| - 1];
      ListingAllShape(db, height, top, flags, init, offset, bound);
      ListingShape(db, height, top, flags, tags[|tags| - 1], offset + 1);
    }
  }

  /** clear as a value: each listed tag's flag, a later entry for the same tag overriding an earlier one. */
  function FlagsOf(es: seq<TagEntry>): map<nat, bool>
  {
    if es == [] then map[]
    else FlagsOf(es[..|es| - 1])[es[|es| - 1].tag := es[|es| - 1].selected]
  }

  /** The flags recorded are those of the tags listed, and an entry whose tag is not listed again keeps its flag. */
  lemma {:induction false} FlagsOfEntry(es: seq<TagEntry>, i: nat)
    requires i < |es| && forall j :: i < j < |es| ==> es[j].tag != es[i].tag
    ensures es[i].tag in FlagsOf(es) && FlagsOf(es)[es[i].tag] == es[i].selected
  {
    if i < |es| - 1 {
      FlagsOfEntry(es[..|es| - 1], i);
    }
  }

  /** A tag that was listed once before a clear comes back with its flag when it is listed again. */
  lemma RestoredAfterClear(es: seq<TagEntry>, i: nat, relisted: seq<TagEntry>, k: nat)
    requires i < |es| && forall j :: i < j < |es| ==> es[j].tag != es[i].tag
    requires k < |relisted| && ListedWell(FlagsOf(es), relisted, 0) && relisted[k].tag == es[i].tag
    ensures relisted[k].selected == es[i].selected
  {
    FlagsOfEntry(es, i);
  }

  /** The entries written by setSelected: those of the tag, and under single selection every other selected one. */
  predicate Written(e: TagEntry, tag: nat, multiSelect: bool)
  {
    e.tag == tag || (e.selected && !multiSelect)
  }

  /** The ids of the selected entries, in list order. */
  function SelectedIds(es: seq<TagEntry>): seq<nat>
  {
    if es == [] then []
    else
      var init := SelectedIds(es[..|es| - 1]);
      if es[|es| - 1].selected then init + [es[|es| - 1].tag] else init
  }

  /** A tag is listed among the selected ones exactly when some selected entry has it. */
  lemma {:induction false} SelectedIdsMembers(es: seq<TagEntry>, t: nat)
    ensures t in SelectedIds(es) <==> exists i :: 0 <= i < |es| && es[i].selected && es[i].tag == t
  {
    if es != [] {
      var init := es[..|es| - 1];
      SelectedIdsMembers(init, t);
      if exists i :: 0 <= i < |init| && init[i].selected && init[i].tag == t {
        var i :| 0 <= i < |init| && init[i].selected && init[i].tag == t;
        assert es[i] == init[i];
      }
      if exists i :: 0 <= i < |es| && es[i].selected && es[i].tag == t {
        var i :| 0 <= i < |es| && es[i].selected && es[i].tag == t;
        if i < |init| {
          assert init[i] == es[i];
        }
      }
    }
  }

  /** setSelectedTagIds as a value: each entry selected exactly when its tag is one of tags. */
  function WithSelection(es: seq<TagEntry>, tags: seq<nat>): (r: seq<TagEntry>)
    ensures |r| == |es|
    ensures forall i :: 0 <= i < |es| ==> r[i] == es[i].(selected := es[i].tag in tags)
  {
    seq(|es|, i requires 0 <= i < |es| => es[i].(selected := es[i].tag in tags))
  }

  /** No tag is listed twice. */
  predicate DistinctTags(es: seq<TagEntry>)
  {
    forall i, j :: 0 <= i < j < |es| ==> es[i].tag != es[j].tag
  }

  /** Selecting the ids the list reports as selected changes nothing, when no tag is listed twice. */
  lemma SelectionRoundTrip(es: seq<TagEntry>)
    requires DistinctTags(es)
    ensures WithSelection(es, SelectedIds(es)) == es
  {
    var r := WithSelection(es, SelectedIds(es));
    forall i | 0 <= i < |es|
      ensures r[i] == es[i]
    {
      SelectedIdsMembers(es, es[i].tag);
    }
  }

  /** After selecting some ids, the ids reported are those of listed tags among them. */
  lemma SelectedAfterSelection(es: seq<TagEntry>, tags: seq<nat>, t: nat)
    ensures t in SelectedIds(WithSelection(es, tags)) <==> t in tags && exists i :: 0 <= i < |es| && es[i].tag == t
  {
    var r := WithSelection(es, tags);
    SelectedIdsMembers(r, t);
    if t in tags && exists i :: 0 <= i < |es| && es[i].tag == t {
      var i :| 0 <= i < |es| && es[i].tag == t;
      assert r[i].selected && r[i].tag == t;
    }
  }

  /** No id twice in a list of tags. */
  predicate Distinct(tags: seq<nat>)
  {
    forall i, j :: 0 <= i < j < |tags| ==> tags[i] != tags[j]
  }

  class SelectTagsModel {
    var dirty: bool
    var rootTags: seq<nat>
    var tagEntries: seq<TagEntry>
    var lastSelectedFlag: map<nat, bool>
    var multiSelect: bool
    var roleNames: seq<string>

    /** An empty picker whose entries show their tag, selection and offset. */
    constructor ()
      ensures !dirty && rootTags == [] && tagEntries == [] && lastSelectedFlag == map[]
      ensures roleNames == ["tag", "selected", "offset"]
    {
      dirty := false;
      rootTags := [];
      tagEntries := [];
      lastSelectedFlag := map[];
      multiSelect := false;
      roleNames := ["tag", "selected", "offset"];
    }

    /** clear: the flags of the listed tags are remembered, and the list and the roots are emptied. */
    method Clear()
      modifies this
      ensures lastSelectedFlag == FlagsOf(old(tagEntries))
      ensures tagEntries == [] && rootTags == []
      ensures dirty == old(dirty) && multiSelect == old(multiSelect) && roleNames == old(roleNames)
    {
      var es := tagEntries;
      var flags := map[];
      var i := 0;
      while i < |es|
        invariant 0 <= i <= |es|
        invariant flags == FlagsOf(es[..i])
        invariant unchanged(this)
      {
        assert es[..i + 1][..i] == es[..i];
        flags := flags[es[i].tag := es[i].selected];
        i := i + 1;
      }
      assert es[..i] == es;
      lastSelectedFlag := flags;
      tagEntries := [];
      rootTags := [];
    }

    /**
     * addTag: the tag's root is added to the roots unless it is there
     * already; adding one marks the list for a rebuild, and the rebuild is
     * scheduled only when it was not marked yet.
     */
    method AddTag(db: map<nat, Tag>, ghost height: map<nat, nat>, ghost top: nat, tag: nat) returns (scheduled: bool)
      requires Ranked(db, height, top) && tag in db
      modifies this
      ensures var r := RootOf(db, height, top, tag);
        rootTags == if r in old(rootTags) then old(rootTags) else old(rootTags) + [r]
      ensures Distinct(old(rootTags)) ==> Distinct(rootTags)
      ensures dirty == (old(dirty) || RootOf(db, height, top, tag) !in old(rootTags))
      ensures scheduled <==> !old(dirty) && RootOf(db, height, top, tag) !in old(rootTags)
      ensures tagEntries == old(tagEntries) && lastSelectedFlag == old(lastSelectedFlag)
      ensures multiSelect == old(multiSelect) && roleNames == old(roleNames)
      decreases top - height[tag]
    {
      if db[tag].parent != 0 {
        scheduled := AddTag(db, height, top, db[tag].parent);
        return;
      }
      scheduled := false;
      if tag !in rootTags {
        rootTags := rootTags + [tag];
        if !dirty {
          dirty := true;
          scheduled := true;
        }
      }
    }

    /** addTagEntry: the tag's listing is appended, its children recursively, sorted by name. */
    method AddTagEntry(db: map<nat, Tag>, ghost height: map<nat, nat>, ghost top: nat, tag: nat, offset: int)
      requires Ranked(db, height, top) && tag in db
      modifies this
      ensures tagEntries == old(tagEntries) + Listing(db, height, top, lastSelectedFlag, tag, offset)
      ensures dirty == old(dirty) && rootTags == old(rootTags) && lastSelectedFlag == old(lastSelectedFlag)
      ensures multiSelect == old(multiSelect) && roleNames == old(roleNames)
      decreases height[tag], 1
    {
      var wasSelected := Remembered(lastSelectedFlag, tag);
      ghost var before := tagEntries;
      tagEntries := tagEntries + [TagEntry(tag, wasSelected, offset)];
      var children := SortTags(db, db[tag].children);
      SortedChildrenBelow(db, height, top, tag);
      AddChildEntries(db, height, top, children, offset, height[tag]);
      ListingUnfold(db, height, top, lastSelectedFlag, tag, offset);
      Associated(before, [TagEntry(tag, wasSelected, offset)],
        ListingAll(db, height, top, lastSelectedFlag, children, offset, height[tag]));
    }

    /** The loop of addTagEntry over the sorted children, and of updateEntries over the sorted roots: each listed one level deeper. */
    method AddChildEntries(db: map<nat, Tag>, ghost height: map<nat, nat>, ghost top: nat, children: seq<nat>, offset: int, ghost bound: nat)
      requires Ranked(db, height, top) && Below(db, height, children, bound)
      modifies this
      ensures tagEntries == old(tagEntries) + ListingAll(db, height, top, lastSelectedFlag, children, offset, bound)
      ensures dirty == old(dirty) && rootTags == old(rootTags) && lastSelectedFlag == old(lastSelectedFlag)
      ensures multiSelect == old(multiSelect) && roleNames == old(roleNames)
      decreases bound, 0
    {
      var i := 0;
      while i < |children|
        invariant 0 <= i <= |children|
        invariant Below(db, height, children[..i], bound)
        invariant tagEntries == old(tagEntries) + ListingAll(db, height, top, lastSelectedFlag, children[..i], offset, bound)
        invariant unchanged(this`dirty, this`rootTags, this`lastSelectedFlag, this`multiSelect, this`roleNames)
      {
        ListingAllSnoc(db, height, top, lastSelectedFlag, children, i, offset, bound);
        Associated(old(tagEntries), ListingAll(db, height, top, lastSelectedFlag, children[..i], offset, bound),
          Listing(db, height, top, lastSelectedFlag, children[i], offset + 1));
        AddTagEntry(db, height, top, children[i], offset + 1);
        i := i + 1;
      }
      assert children[..i] == children;
    }

    /**
     * updateEntries: nothing unless marked; otherwise the roots are sorted
     * by name and the list is rebuilt from them, each root at indentation 0.
     */
    method UpdateEntries(db: map<nat, Tag>, ghost height: map<nat, nat>, ghost top: nat)
      requires Ranked(db, height, top) && Below(db, height, rootTags, top)
      modifies this
      ensures !old(dirty) ==> unchanged(this)
      ensures old(dirty) ==>
        && !dirty
        && rootTags == SortTags(db, old(rootTags))
        && Below(db, height, rootTags, top)
        && tagEntries == ListingAll(db, height, top, lastSelectedFlag, rootTags, -1, top)
      ensures lastSelectedFlag == old(lastSelectedFlag) && multiSelect == old(multiSelect) && roleNames == old(roleNames)
    {
      if !dirty {
        return;
      }
      dirty := false;
      tagEntries := [];
      var roots := SortTags(db, rootTags);
      SortedBelow(db, height, rootTags, top);
      rootTags := roots;
      AddChildEntries(db, height, top, roots, -1, top);
    }

    /**
     * setSelected: the tag's entries take the flag and, under single
     * selection, every other selected entry is cleared; a change is
     * signalled when any entry was written, even with its old flag.
     */
    method SetSelected(tag: nat, selected: bool) returns (changed: bool)
      modifies this
      ensures |tagEntries| == |old(tagEntries)|
      ensures forall i :: 0 <= i < |tagEntries| ==>
        && tagEntries[i].tag == old(tagEntries)[i].tag
        && tagEntries[i].offset == old(tagEntries)[i].offset
        && tagEntries[i].selected == (if tagEntries[i].tag == tag then selected else old(tagEntries)[i].selected && multiSelect)
      ensures changed <==> exists i :: 0 <= i < |old(tagEntries)| && Written(old(tagEntries)[i], tag, multiSelect)
      ensures dirty == old(dirty) && rootTags == old(rootTags) && lastSelectedFlag == old(lastSelectedFlag)
      ensures multiSelect == old(multiSelect) && roleNames == old(roleNames)
    {
      var es := tagEntries;
      changed := false;
      var i := 0;
      while i < |es|
        invariant 0 <= i <= |es| && |es| == |tagEntries|
        invariant forall k :: i <= k < |es| ==> es[k] == tagEntries[k]
        invariant forall k :: 0 <= k < i ==>
          es[k] == tagEntries[k].(selected := if tagEntries[k].tag == tag then selected else tagEntries[k].selected && multiSelect)
        invariant changed <==> exists k :: 0 <= k < i && Written(tagEntries[k], tag, multiSelect)
        invariant unchanged(this)
      {
        var entry := es[i];
        if entry.tag == tag {
          es := es[i := entry.(selected := selected)];
          changed := true;
        } else if entry.selected && !multiSelect {
          es := es[i := entry.(selected := false)];
          changed := true;
        }
        i := i + 1;
      }
      tagEntries := es;
    }

    /** selectedTagsIds: the ids of the selected entries, in list order. */
    method SelectedTagsIds() returns (ids: seq<nat>)
      ensures ids == SelectedIds(tagEntries)
    {
      var es := tagEntries;
      ids := [];
      var i := 0;
      while i < |es|
        invariant 0 <= i <= |es|
        invariant ids == SelectedIds(es[..i])
      {
        assert es[..i + 1][..i] == es[..i];
        if es[i].selected {
          ids := ids + [es[i].tag];
        }
        i := i + 1;
      }
      assert es[..i] == es;
    }

    /**
     * setSelectedTagIds: every entry is selected exactly when its tag is
     * one of tags, and the selection mode is set; more than one tag needs
     * multiple selection.
     */
    method SetSelectedTagIds(tags: seq<nat>, multiSelect: bool)
      requires |tags| <= 1 || multiSelect
      modifies this
      ensures tagEntries == WithSelection(old(tagEntries), tags)
      ensures this.multiSelect == multiSelect
      ensures dirty == old(dirty) && rootTags == old(rootTags) && lastSelectedFlag == old(lastSelectedFlag) && roleNames == old(roleNames)
    {
      var es := tagEntries;
      var i := 0;
      while i < |es|
        invariant 0 <= i <= |es| && |es| == |tagEntries|
        invariant forall k :: i <= k < |es| ==> es[k] == tagEntries[k]
        invariant forall k :: 0 <= k < i ==> es[k] == tagEntries[k].(selected := tagEntries[k].tag in tags)
        invariant unchanged(this)
      {
        var entry := es[i];
        if entry.selected && entry.tag !in tags {
          es := es[i := entry.(selected := false)];
        } else if !entry.selected && entry.tag in tags {
          es := es[i := entry.(selected := true)];
        }
        i := i + 1;
      }
      tagEntries := es;
      this.multiSelect := multiSelect;
    }
  }
}
