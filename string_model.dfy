// The searchable choice list of the app (src/app/src/stringmodel.cpp): entries
// are collected, sorted by their keywords once editing ends, and filtered by
// the keywords typed so far; the entry whose text was typed exactly becomes
// the selection. The single-shot timer that runs endEditing after add and
// clear is left to the caller, who calls EndEditing.
module StringModel {

  import opened Wrappers
  import Text
  import Sorting

  /** An entry: its id, its text and the keywords of its text. */
  datatype Entry = Entry(id: int, str: string, keywords: seq<string>)

  /** The non-empty pieces, lower-cased, in order. */
  function NonEmptyLower(pieces: seq<string>): seq<string>
  {
    if pieces == [] then []
    else
      var init := NonEmptyLower(pieces[..|pieces| - 1]);
      var last := pieces[|pieces| - 1];
      if last == "" then init else init + [Text.Lower(last)]
  }

  /** splitIntoKeywords as a value: the space-separated words of s, lower-cased. */
  function Keywords(s: string): seq<string>
  {
    NonEmptyLower(Text.Split(s, ' '))
  }

  /** A keyword is a non-empty lower-case word. */
  predicate IsKeyword(k: string)
  {
    k != "" && ' ' !in k && Text.Lower(k) == k
  }

  lemma LowerIsKeyword(w: string)
    requires w != "" && ' ' !in w
    ensures IsKeyword(Text.Lower(w))
  {
    var l := Text.Lower(w);
    assert forall i :: 0 <= i < |l| ==> l[i] != ' ' by {
      forall i | 0 <= i < |l|
        ensures l[i] != ' '
      {
        assert w[i] != ' ';
      }
    }
    assert Text.Lower(l) == l;
  }

  lemma {:induction false} NonEmptyLowerAreKeywords(pieces: seq<string>)
    requires forall i :: 0 <= i < |pieces| ==> ' ' !in pieces[i]
    ensures forall i :: 0 <= i < |NonEmptyLower(pieces)| ==> IsKeyword(NonEmptyLower(pieces)[i])
  {
    if pieces != [] {
      var last := pieces[|pieces| - 1];
      NonEmptyLowerAreKeywords(pieces[..|pieces| - 1]);
      if last != "" {
        LowerIsKeyword(last);
      }
    }
  }

  /** Every keyword of a string is a non-empty lower-case word without spaces. */
  lemma KeywordsAreKeywords(s: string)
    ensures forall i :: 0 <= i < |Keywords(s)| ==> IsKeyword(Keywords(s)[i])
  {
    NonEmptyLowerAreKeywords(Text.Split(s, ' '));
  }

  lemma {:induction false} NonEmptyLowerAppend(a: seq<string>, b: seq<string>)
    ensures NonEmptyLower(a + b) == NonEmptyLower(a) + NonEmptyLower(b)
    decreases |b|
  {
    if b != [] {
      var c := a + b;
      assert c[..|c| - 1] == a + b[..|b| - 1];
      NonEmptyLowerAppend(a, b[..|b| - 1]);
    } else {
      assert a + b == a;
    }
  }

  /** A word on its own is its one keyword, lower-cased; nothing at all has none. */
  lemma KeywordsOfWord(w: string)
    requires ' ' !in w
    ensures Keywords(w) == if w == "" then [] else [Text.Lower(w)]
  {
    Text.SplitWithoutSep(w, ' ');
    assert [w][..0] == [];
  }

  /** The keywords of "w rest" are those of w followed by those of rest: repeated spaces add nothing. */
  lemma KeywordsOfSentence(w: string, rest: string)
    requires ' ' !in w
    ensures Keywords(w + " " + rest) == Keywords(w) + Keywords(rest)
  {
    Text.SplitAtSep(w, rest, ' ');
    NonEmptyLowerAppend([w], Text.Split(rest, ' '));
    KeywordsOfWord(w);
    Text.SplitWithoutSep(w, ' ');
  }

  /** splitIntoKeywords: the pieces between spaces, empty ones dropped, each lower-cased. */
  method SplitIntoKeywords(s: string) returns (keywords: seq<string>)
    ensures keywords == Keywords(s)
  {
    var pieces := Text.Split(s, ' ');
    keywords := [];
    var i := 0;
    while i < |pieces|
      invariant 0 <= i <= |pieces|
      invariant keywords == NonEmptyLower(pieces[..i])
    {
      assert pieces[..i + 1][..i] == pieces[..i];
      if pieces[i] != "" {
        keywords := keywords + [Text.Lower(pieces[i])];
      }
      i := i + 1;
    }
    assert pieces[..i] == pieces;
  }

  /** Some keyword of the entry contains kw. */
  predicate HasKeyword(mine: seq<string>, kw: string)
  {
    exists m :: 0 <= m < |mine| && Text.Contains(mine[m], kw)
  }

  /** Every query keyword is part of some keyword of the entry. */
  predicate Matches(mine: seq<string>, query: seq<string>)
  {
    forall j :: 0 <= j < |query| ==> HasKeyword(mine, query[j])
  }

  /** Entry::matchesKeywords: a query keyword found in none of the entry's keywords fails the match. */
  method MatchesKeywords(e: Entry, query: seq<string>) returns (r: bool)
    ensures r <==> Matches(e.keywords, query)
  {
    var j := 0;
    while j < |query|
      invariant 0 <= j <= |query|
      invariant forall k :: 0 <= k < j ==> HasKeyword(e.keywords, query[k])
    {
      var hasKw := false;
      var m := 0;
      while m < |e.keywords|
        invariant 0 <= m <= |e.keywords|
        invariant !hasKw ==> forall n :: 0 <= n < m ==> !Text.Contains(e.keywords[n], query[j])
        invariant hasKw ==> HasKeyword(e.keywords, query[j])
      {
        if Text.Contains(e.keywords[m], query[j]) {
          hasKw := true;
          break;
        }
        m := m + 1;
      }
      if !hasKw {
        assert !HasKeyword(e.keywords, query[j]);
        return false;
      }
      j := j + 1;
    }
    return true;
  }

  /** The empty query matches every entry. */
  lemma MatchesEmptyQuery(mine: seq<string>)
    ensures Matches(mine, [])
  {
  }

  /** A longer query is a conjunction: it matches exactly when both parts do. */
  lemma MatchesConcat(mine: seq<string>, a: seq<string>, b: seq<string>)
    ensures Matches(mine, a + b) <==> Matches(mine, a) && Matches(mine, b)
  {
    if Matches(mine, a) && Matches(mine, b) {
      forall j | 0 <= j < |a + b|
        ensures HasKeyword(mine, (a + b)[j])
      {
        if j >= |a| {
          assert (a + b)[j] == b[j - |a|];
        }
      }
    }
    if Matches(mine, a + b) {
      forall j | 0 <= j < |a|
        ensures HasKeyword(mine, a[j])
      {
        assert (a + b)[j] == a[j];
      }
      forall j | 0 <= j < |b|
        ensures HasKeyword(mine, b[j])
      {
        assert (a + b)[|a| + j] == b[j];
      }
    }
  }

  /** An entry is found by any of its own keywords. */
  lemma MatchesOwnKeyword(mine: seq<string>, m: nat)
    requires m < |mine|
    ensures Matches(mine, [mine[m]])
  {
    Text.ContainsSelf(mine[m]);
  }

  /** The entries that match the query, in their order. */
  function Filtered(entries: seq<Entry>, query: seq<string>): seq<Entry>
  {
    if entries == [] then []
    else
      var init := Filtered(entries[..|entries| - 1], query);
      var last := entries[|entries| - 1];
      if Matches(last.keywords, query) then init + [last] else init
  }

  /** An entry is kept exactly when it is one of the entries and matches. */
  lemma {:induction false} FilteredMembers(entries: seq<Entry>, query: seq<string>, e: Entry)
    ensures e in Filtered(entries, query) <==> e in entries && Matches(e.keywords, query)
    ensures |Filtered(entries, query)| <= |entries|
  {
    if entries != [] {
      var init := entries[..|entries| - 1];
      FilteredMembers(init, query, e);
      assert entries == init + [entries[|entries| - 1]];
    }
  }

  /** With no keywords the filter keeps everything, so the shortcut for an empty query agrees with the loop. */
  lemma {:induction false} FilteredEmptyQuery(entries: seq<Entry>)
    ensures Filtered(entries, []) == entries
  {
    if entries != [] {
      var init := entries[..|entries| - 1];
      FilteredEmptyQuery(init);
      assert entries == init + [entries[|entries| - 1]];
    }
  }

  /**
   * The sort comparison as written: the first keyword that differs decides,
   * and when one list runs out first the shorter one sorts first, equal
   * lists included.
   */
  function KeywordsLessAsWritten(l: seq<string>, r: seq<string>): bool
  {
    if l == [] || r == [] then |l| <= |r|
    else
      var c := Text.Compare(l[0], r[0]);
      if c < 0 then true
      else if c > 0 then false
      else KeywordsLessAsWritten(l[1..], r[1..])
  }

  /** Equal keyword lists sort before each other under the comparison as written, which the sort forbids. */
  lemma EntryComparisonNotStrict(l: seq<string>)
    ensures KeywordsLessAsWritten(l, l)
  {
  }

  /** The comparison as intended: lexicographic order on keyword lists, a proper prefix first. */
  function KeywordsLess(l: seq<string>, r: seq<string>): bool
  {
    if l == [] || r == [] then |l| < |r|
    else
      var c := Text.Compare(l[0], r[0]);
      if c < 0 then true
      else if c > 0 then false
      else KeywordsLess(l[1..], r[1..])
  }

  /** The comparison as written is the intended one with equality added. */
  lemma {:induction false} AsWrittenIsLessOrEqual(l: seq<string>, r: seq<string>)
    ensures KeywordsLessAsWritten(l, r) <==> KeywordsLess(l, r) || l == r
  {
    if l != [] && r != [] && Text.Compare(l[0], r[0]) == 0 {
      AsWrittenIsLessOrEqual(l[1..], r[1..]);
      assert l == [l[0]] + l[1..] && r == [r[0]] + r[1..];
    }
  }

  /** The intended comparison is a strict order: never both ways, and never from a list to itself. */
  lemma {:induction false} KeywordsLessAsymmetric(l: seq<string>, r: seq<string>)
    ensures KeywordsLess(l, r) ==> !KeywordsLess(r, l)
    ensures !KeywordsLess(l, l)
  {
    if l != [] && r != [] {
      Text.CompareAntisymmetric(l[0], r[0]);
      if Text.Compare(l[0], r[0]) == 0 {
        KeywordsLessAsymmetric(l[1..], r[1..]);
      }
    }
    if l != [] {
      KeywordsLessAsymmetric(l[1..], l[1..]);
    }
  }

  /** Two different keyword lists are always ordered one way or the other. */
  lemma {:induction false} KeywordsLessTotal(l: seq<string>, r: seq<string>)
    requires l != r
    ensures KeywordsLess(l, r) || KeywordsLess(r, l)
  {
    if l != [] && r != [] {
      Text.CompareAntisymmetric(l[0], r[0]);
      if Text.Compare(l[0], r[0]) == 0 {
        assert l == [l[0]] + l[1..] && r == [r[0]] + r[1..];
        KeywordsLessTotal(l[1..], r[1..]);
      }
    }
  }

  /** The intended comparison is transitive. */
  lemma {:induction false} KeywordsLessTransitive(a: seq<string>, b: seq<string>, c: seq<string>)
    requires KeywordsLess(a, b) && KeywordsLess(b, c)
    ensures KeywordsLess(a, c)
  {
    if a != [] && b != [] && c != [] {
      var ab := Text.Compare(a[0], b[0]);
      var bc := Text.Compare(b[0], c[0]);
      if ab == 0 && bc == 0 {
        KeywordsLessTransitive(a[1..], b[1..], c[1..]);
      } else if ab < 0 && bc < 0 {
        Text.CompareTransitive(a[0], b[0], c[0]);
      }
    }
  }

  /** Entries compared by their keywords, as intended. */
  function EntryLess(a: Entry, b: Entry): bool
  {
    KeywordsLess(a.keywords, b.keywords)
  }

  /** The entries in keyword order. */
  function SortEntries(entries: seq<Entry>): seq<Entry>
  {
    Sorting.Sort(EntryLess, entries)
  }

  /** The sorted entries are the same entries, each no earlier in keyword order than the one before it. */
  lemma SortEntriesSorted(entries: seq<Entry>)
    ensures multiset(SortEntries(entries)) == multiset(entries)
    ensures forall i :: 0 < i < |SortEntries(entries)| ==>
      !KeywordsLess(SortEntries(entries)[i].keywords, SortEntries(entries)[i - 1].keywords)
  {
    forall a: Entry, b: Entry | EntryLess(a, b)
      ensures !EntryLess(b, a)
    {
      KeywordsLessAsymmetric(a.keywords, b.keywords);
    }
    Sorting.SortSorted(EntryLess, entries);
  }

  /** The highest index whose text is exactly s, or -1. */
  function LastWithText(entries: seq<Entry>, s: string): (r: int)
    ensures -1 <= r < |entries|
    ensures r >= 0 ==> entries[r].str == s
    ensures forall j :: r < j < |entries| ==> entries[j].str != s
  {
    if entries == [] then -1
    else if entries[|entries| - 1].str == s then |entries| - 1
    else LastWithText(entries[..|entries| - 1], s)
  }

  /** The search loop of entered: the last row whose text is exactly s. */
  method FindText(rows: seq<Entry>, s: string) returns (found: int)
    ensures found == LastWithText(rows, s)
  {
    found := -1;
    var i := 0;
    while i < |rows|
      invariant 0 <= i <= |rows|
      invariant found == LastWithText(rows[..i], s)
    {
      assert rows[..i + 1][..i] == rows[..i];
      if rows[i].str == s {
        found := i;
      }
      i := i + 1;
    }
    assert rows[..i] == rows;
  }

  /** qBound(lo, v, hi): v moved into [lo, hi], the lower bound winning when hi < lo. */
  function Bound(lo: int, v: int, hi: int): (r: int)
    ensures r >= lo
    ensures lo <= hi ==> r <= hi
    ensures lo <= v <= hi ==> r == v
  {
    var m := if v < hi then v else hi;
    if lo < m then m else lo
  }

  /** The roles of data: Qt::UserRole + 1 onwards. */
  const TextRole: int := 0x0100 + 1
  const IdRole: int := 0x0100 + 2
  const SelectedRole: int := 0x0100 + 3

  /** What data returns under a role. */
  datatype Value = TextValue(text: string) | IdValue(id: int) | SelectedValue(selected: bool)

  class StringModel {
    var dirty: bool
    var newEntries: seq<Entry>
    var entries: seq<Entry>
    var filtered: seq<Entry>
    var selection: int
    var manualString: string

    /** A new model: clean, empty, nothing typed, and the selection at 0. */
    constructor ()
      ensures !dirty && newEntries == [] && entries == [] && filtered == []
      ensures selection == 0 && manualString == ""
    {
      dirty := false;
      newEntries := [];
      entries := [];
      filtered := [];
      selection := 0;
      manualString := "";
    }

    /** rowCount: the filtered entries are the rows. */
    function RowCount(): (n: nat)
      reads this
      ensures n == |filtered|
    {
      |filtered|
    }

    /** data: a filtered row's text, id or whether it is the selection; nothing out of range or under another role. */
    function Data(row: int, role: int): (r: Option<Value>)
      reads this
      ensures r.Some? <==> 0 <= row < |filtered| && role in {TextRole, IdRole, SelectedRole}
      ensures r.Some? && role == TextRole ==> r.value == TextValue(filtered[row].str)
      ensures r.Some? && role == IdRole ==> r.value == IdValue(filtered[row].id)
      ensures r.Some? && role == SelectedRole ==> r.value == SelectedValue(selection == row)
    {
      if row < 0 || row >= RowCount() then None
      else if role == TextRole then Some(TextValue(filtered[row].str))
      else if role == IdRole then Some(IdValue(filtered[row].id))
      else if role == SelectedRole then Some(SelectedValue(selection == row))
      else None
    }

    /** roleNames: the base names with text, id and selected added. */
    function RoleNames(base: map<int, string>): (names: map<int, string>)
      ensures names.Keys == base.Keys + {TextRole, IdRole, SelectedRole}
      ensures names[TextRole] == "text" && names[IdRole] == "id" && names[SelectedRole] == "selected"
      ensures forall k :: k in base && k !in {TextRole, IdRole, SelectedRole} ==> names[k] == base[k]
    {
      base[TextRole := "text"][IdRole := "id"][SelectedRole := "selected"]
    }

    /** add: an entry with the keywords of its text is queued for the next endEditing. */
    method Add(id: int, s: string)
      modifies this
      ensures newEntries == old(newEntries) + [Entry(id, s, Keywords(s))] && dirty
      ensures entries == old(entries) && filtered == old(filtered)
      ensures selection == old(selection) && manualString == old(manualString)
    {
      var keywords := SplitIntoKeywords(s);
      newEntries := newEntries + [Entry(id, s, keywords)];
      dirty := true;
    }

    /** clear: no entries are queued, and the next endEditing installs none. */
    method Clear()
      modifies this
      ensures newEntries == [] && dirty
      ensures entries == old(entries) && filtered == old(filtered)
      ensures selection == old(selection) && manualString == old(manualString)
    {
      newEntries := [];
      dirty := true;
    }

    /** updateFilter: the rows are the entries matching the keywords typed. */
    method UpdateFilter()
      modifies this
      ensures filtered == Filtered(entries, Keywords(manualString))
      ensures dirty == old(dirty) && newEntries == old(newEntries) && entries == old(entries)
      ensures selection == old(selection) && manualString == old(manualString)
    {
      var query := SplitIntoKeywords(manualString);
      if |query| == 0 {
        FilteredEmptyQuery(entries);
        filtered := entries;
      } else {
        var es := entries;
        var kept := [];
        var i := 0;
        while i < |es|
          invariant 0 <= i <= |es|
          invariant kept == Filtered(es[..i], query)
          invariant unchanged(this)
        {
          assert es[..i + 1][..i] == es[..i];
          var m := MatchesKeywords(es[i], query);
          if m {
            kept := kept + [es[i]];
          }
          i := i + 1;
        }
        assert es[..i] == es;
        filtered := kept;
      }
    }

    /**
     * endEditing: nothing unless entries were added or cleared; otherwise
     * the queued entries are installed in keyword order, the selection is
     * dropped and the rows are filtered again. The dirty flag stays set.
     */
    method EndEditing()
      modifies this
      ensures !old(dirty) ==> unchanged(this)
      ensures old(dirty) ==>
        && entries == SortEntries(old(newEntries))
        && filtered == Filtered(entries, Keywords(manualString))
        && selection == -1
      ensures dirty == old(dirty) && newEntries == old(newEntries) && manualString == old(manualString)
    {
      if !dirty {
        return;
      }
      selection := -1;
      entries := SortEntries(newEntries);
      UpdateFilter();
    }

    /** selectedId: the id of the selected row, or -1 when the selection is not a row. */
    function SelectedId(): (id: int)
      reads this
      ensures 0 <= selection < |filtered| ==> id == filtered[selection].id
      ensures !(0 <= selection < |filtered|) ==> id == -1
    {
      if 0 <= selection < |filtered| then filtered[selection].id else -1
    }

    /** enteredString: the selected row's text, or what was typed when the selection is not a row. */
    function EnteredString(): (s: string)
      reads this
      ensures 0 <= selection < |filtered| ==> s == filtered[selection].str
      ensures !(0 <= selection < |filtered|) ==> s == manualString
    {
      if 0 <= selection < |filtered| then filtered[selection].str else manualString
    }

    /** doSelect: the selection moves; only a move signals the new selected id. */
    method DoSelect(idx: int) returns (signalled: Option<int>)
      modifies this
      ensures selection == idx
      ensures signalled.Some? <==> old(selection) != idx
      ensures signalled.Some? ==> signalled.value == SelectedId()
      ensures dirty == old(dirty) && newEntries == old(newEntries) && entries == old(entries)
      ensures filtered == old(filtered) && manualString == old(manualString)
    {
      if selection != idx {
        selection := idx;
        return Some(SelectedId());
      }
      return None;
    }

    /**
     * select: the index is bounded by the number of entries before
     * filtering, so with fewer rows it can name no row; with no entries it
     * becomes 0.
     */
    method Select(id: int) returns (signalled: Option<int>)
      modifies this
      ensures selection == Bound(0, id, |entries| - 1)
      ensures 0 <= selection && (entries != [] ==> selection < |entries|)
      ensures signalled.Some? <==> old(selection) != selection
      ensures signalled.Some? ==> signalled.value == SelectedId()
      ensures dirty == old(dirty) && newEntries == old(newEntries) && entries == old(entries)
      ensures filtered == old(filtered) && manualString == old(manualString)
    {
      signalled := DoSelect(Bound(0, id, |entries| - 1));
    }

    /**
     * entered: the typed text filters the rows, and the last row with
     * exactly that text is selected, or none. Either way the entered string
     * is then what was typed.
     */
    method Entered(s: string) returns (signalled: Option<int>)
      modifies this
      ensures manualString == s
      ensures filtered == Filtered(entries, Keywords(s))
      ensures selection == LastWithText(filtered, s)
      ensures EnteredString() == s
      ensures signalled.Some? <==> old(selection) != selection
      ensures signalled.Some? ==> signalled.value == SelectedId()
      ensures dirty == old(dirty) && newEntries == old(newEntries) && entries == old(entries)
    {
      manualString := s;
      UpdateFilter();
      var found := FindText(filtered, s);
      signalled := DoSelect(found);
    }
  }
}
