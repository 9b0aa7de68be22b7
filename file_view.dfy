// The uploader's table of files (src/uploader/fileview.cpp): one entry per
// audio file with the tags it will be uploaded with, edited one cell at a
// time or several cells of a column at once, sorted by a column, and
// shortened by deleting the selected rows. Widgets, column widths and the
// model's change notifications are outside the model.
module FileView {

  import opened Wrappers
  import Text
  import Decimal
  import Sorting

  /** FileEntry: a file and the tags it is uploaded with. */
  datatype FileEntry = FileEntry(path: string, displayPath: string, artist: string, album: string, position: int, title: string, duration: int)

  // FileEntry::Type: the table's columns, and FileEntry::Count.
  const PathColumn: int := 0
  const ArtistColumn: int := 1
  const AlbumColumn: int := 2
  const PositionColumn: int := 3
  const TitleColumn: int := 4
  const DurationColumn: int := 5
  const ColumnCount: int := 6

  /** An entry of s_columnInfo: the header, and whether a selection in the column can be renamed at once. */
  datatype ColumnInfo = ColumnInfo(header: string, editable: bool)

  /** s_columnInfo: only Artist, Album and Title can be renamed at once. */
  function ColumnInfoAt(col: int): (info: ColumnInfo)
    requires 0 <= col < ColumnCount
    ensures info.editable <==> col == ArtistColumn || col == AlbumColumn || col == TitleColumn
  {
    match col
    case 0 => ColumnInfo("File", false)
    case 1 => ColumnInfo("Artist", true)
    case 2 => ColumnInfo("Album", true)
    case 3 => ColumnInfo("#", false)
    case 4 => ColumnInfo("Title", true)
    case _ => ColumnInfo("Duration", false)
  }

  /** encodeDuration: "%d:%02d" of the seconds divided by 60 and their remainder, truncating as C++ does. */
  function EncodeDuration(secs: int): string
  {
    Decimal.MinutesSeconds(Decimal.CDiv(secs, 60), Decimal.CMod(secs, 60))
  }

  /** The two numbers of an encoded duration give the seconds back, the second below 60 in magnitude. */
  lemma EncodeDurationRoundTrip(secs: int)
    requires Decimal.Int32Min <= secs <= Decimal.Int32Max
    ensures var parts := Text.Split(EncodeDuration(secs), ':');
      && |parts| == 2
      && Decimal.ParseInt(parts[0]).Some? && Decimal.ParseInt(parts[1]).Some?
      && Decimal.ParseInt(parts[0]).value * 60 + Decimal.ParseInt(parts[1]).value == secs
      && -60 < Decimal.ParseInt(parts[1]).value < 60
  {
    Decimal.CDivMod(secs, 60);
    Decimal.IntToStringParses(Decimal.CDiv(secs, 60));
    Decimal.Pad2Parses(Decimal.CMod(secs, 60));
  }

  /** QVariant::toInt of the entered text: its value, or 0 when it is not a number. */
  function ToInt(s: string): (v: int)
    ensures Decimal.ParseInt(s).Some? ==> v == Decimal.ParseInt(s).value
    ensures Decimal.ParseInt(s).None? ==> v == 0
  {
    match Decimal.ParseInt(s)
    case Some(v) => v
    case None => 0
  }

  /** FileModel::data for the display and edit roles: the text a column shows of an entry. */
  function CellText(e: FileEntry, col: int): (text: string)
    requires 0 <= col < ColumnCount
  {
    if col == PathColumn then e.displayPath
    else if col == ArtistColumn then e.artist
    else if col == AlbumColumn then e.album
    else if col == PositionColumn then Decimal.IntToString(e.position)
    else if col == TitleColumn then e.title
    else EncodeDuration(e.duration)
  }

  /** FileModel::flags: columns 1 to 4 can be edited. */
  predicate Editable(col: int)
  {
    1 <= col <= 4
  }

  /** The effect of setData on one entry: the column's field takes the value, the number read from it for the position. */
  function SetField(e: FileEntry, col: int, value: string): FileEntry
  {
    if col == ArtistColumn then e.(artist := value)
    else if col == AlbumColumn then e.(album := value)
    else if col == PositionColumn then e.(position := ToInt(value))
    else if col == TitleColumn then e.(title := value)
    else e
  }

  /** setData changes nothing outside the columns flags lets the view edit, and no field but the column's own. */
  lemma SetFieldOnlyEditable(e: FileEntry, col: int, value: string)
    ensures SetField(e, col, value) != e ==> Editable(col)
    ensures SetField(e, col, value).path == e.path && SetField(e, col, value).displayPath == e.displayPath
    ensures SetField(e, col, value).duration == e.duration
    ensures col != ArtistColumn ==> SetField(e, col, value).artist == e.artist
    ensures col != AlbumColumn ==> SetField(e, col, value).album == e.album
    ensures col != PositionColumn ==> SetField(e, col, value).position == e.position
    ensures col != TitleColumn ==> SetField(e, col, value).title == e.title
  {
  }

  /** Writing back the text an editable cell shows changes nothing; a position must fit 32 bits for its text to read back. */
  lemma SetFieldOwnText(e: FileEntry, col: int)
    requires Editable(col) && Decimal.Int32Min <= e.position <= Decimal.Int32Max
    ensures SetField(e, col, CellText(e, col)) == e
  {
    if col == PositionColumn {
      Decimal.IntToStringParses(e.position);
    }
  }

  /** An edited cell shows what was entered, for the text columns. */
  lemma SetFieldShows(e: FileEntry, col: int, value: string)
    requires col == ArtistColumn || col == AlbumColumn || col == TitleColumn
    ensures CellText(SetField(e, col, value), col) == value
  {
  }

  /** A cell of the table: a row and a column. */
  datatype Cell = Cell(row: int, col: int)

  /** checkIndex: the cell lies inside the table. */
  predicate ValidCell(files: seq<FileEntry>, c: Cell)
  {
    0 <= c.row < |files| && 0 <= c.col < ColumnCount
  }

  /** The files after setData on a cell in the edit role: the cell's entry edited when the cell is valid. */
  function SetDataOn(files: seq<FileEntry>, c: Cell, value: string): (r: seq<FileEntry>)
    ensures |r| == |files|
    ensures forall k :: 0 <= k < |files| && k != c.row ==> r[k] == files[k]
    ensures ValidCell(files, c) ==> r[c.row] == SetField(files[c.row], c.col, value)
    ensures !ValidCell(files, c) ==> r == files
  {
    if ValidCell(files, c) then files[c.row := SetField(files[c.row], c.col, value)] else files
  }

  /** QVector::remove(index) guarded by removeFile: nothing happens out of range. */
  function RemoveAt<T>(s: seq<T>, i: int): (r: seq<T>)
    ensures !(0 <= i < |s|) ==> r == s
    ensures 0 <= i < |s| ==> |r| == |s| - 1 && r[..i] == s[..i] && r[i..] == s[i + 1..]
  {
    if 0 <= i < |s| then s[..i] + s[i + 1..] else s
  }

  // ---------------------------------------------------------------------
  // Sorting

  /** The compare lambda of FileModel::sort: case-insensitive for text, a difference for numbers. */
  function FieldCompare(a: FileEntry, b: FileEntry, field: int): int
    requires 0 <= field < ColumnCount
  {
    if field == PathColumn then Text.Compare(Text.Lower(a.path), Text.Lower(b.path))
    else if field == ArtistColumn then Text.Compare(Text.Lower(a.artist), Text.Lower(b.artist))
    else if field == AlbumColumn then Text.Compare(Text.Lower(a.album), Text.Lower(b.album))
    else if field == PositionColumn then a.position - b.position
    else if field == TitleColumn then Text.Compare(Text.Lower(a.title), Text.Lower(b.title))
    else a.duration - b.duration
  }

  /** Each field compares the other way round when the entries are swapped. */
  lemma FieldCompareAntisymmetric(a: FileEntry, b: FileEntry, field: int)
    requires 0 <= field < ColumnCount
    ensures FieldCompare(b, a, field) == -FieldCompare(a, b, field)
  {
    if field == PathColumn {
      Text.CompareAntisymmetric(Text.Lower(a.path), Text.Lower(b.path));
    } else if field == ArtistColumn {
      Text.CompareAntisymmetric(Text.Lower(a.artist), Text.Lower(b.artist));
    } else if field == AlbumColumn {
      Text.CompareAntisymmetric(Text.Lower(a.album), Text.Lower(b.album));
    } else if field == TitleColumn {
      Text.CompareAntisymmetric(Text.Lower(a.title), Text.Lower(b.title));
    }
  }

  /** The first field from col on in which the entries differ decides; 0 when none does. */
  function EntryCompare(a: FileEntry, b: FileEntry, col: int): int
    requires 0 <= col <= ColumnCount
    decreases ColumnCount - col
  {
    if col == ColumnCount then 0
    else if FieldCompare(a, b, col) != 0 then FieldCompare(a, b, col)
    else EntryCompare(a, b, col + 1)
  }

  /** The comparison from a column on is antisymmetric. */
  lemma {:induction false} EntryCompareAntisymmetric(a: FileEntry, b: FileEntry, col: int)
    requires 0 <= col <= ColumnCount
    ensures EntryCompare(b, a, col) == -EntryCompare(a, b, col)
    decreases ColumnCount - col
  {
    if col < ColumnCount {
      FieldCompareAntisymmetric(a, b, col);
      EntryCompareAntisymmetric(a, b, col + 1);
    }
  }

  /** Equal under the comparison means every field from the column on compares equal. */
  lemma {:induction false} EntryCompareZero(a: FileEntry, b: FileEntry, col: int)
    requires 0 <= col <= ColumnCount
    ensures EntryCompare(a, b, col) == 0 <==> forall f :: col <= f < ColumnCount ==> FieldCompare(a, b, f) == 0
    decreases ColumnCount - col
  {
    if col < ColumnCount {
      EntryCompareZero(a, b, col + 1);
    }
  }

  /** The sort's comparison: compare the column, then the columns after it while equal. */
  method CompareEntries(a: FileEntry, b: FileEntry, column: int) returns (ret: int)
    requires 0 <= column < ColumnCount
    ensures ret == EntryCompare(a, b, column)
  {
    var col := column;
    ret := FieldCompare(a, b, column);
    while ret == 0 && col < ColumnCount
      invariant column <= col <= ColumnCount
      invariant ret == 0 ==> EntryCompare(a, b, column) == EntryCompare(a, b, col)
      invariant ret != 0 ==> ret == EntryCompare(a, b, column)
      decreases ColumnCount - col
    {
      ret := FieldCompare(a, b, col);
      col := col + 1;
    }
  }

  /** The order sort gives std::sort: ret < 0 ascending, ret > 0 descending. */
  function SortOrder(column: int, ascending: bool): (FileEntry, FileEntry) -> bool
    requires 0 <= column < ColumnCount
  {
    (a: FileEntry, b: FileEntry) =>
      if ascending then EntryCompare(a, b, column) < 0 else EntryCompare(a, b, column) > 0
  }

  /** Neither order holds both ways, as std::sort requires. */
  lemma SortOrderAsymmetric(column: int, ascending: bool)
    requires 0 <= column < ColumnCount
    ensures Sorting.Asymmetric(SortOrder(column, ascending))
  {
    forall a: FileEntry, b: FileEntry
      ensures SortOrder(column, ascending)(a, b) ==> !SortOrder(column, ascending)(b, a)
    {
      EntryCompareAntisymmetric(a, b, column);
    }
  }

  /** Sorting by a column gives the same entries, none sorting before the one in front of it. */
  lemma SortedFiles(files: seq<FileEntry>, column: int, ascending: bool)
    requires 0 <= column < ColumnCount
    ensures var r := Sorting.Sort(SortOrder(column, ascending), files);
      Sorting.SortedBy(SortOrder(column, ascending), r) && multiset(r) == multiset(files)
  {
    SortOrderAsymmetric(column, ascending);
    Sorting.SortSorted(SortOrder(column, ascending), files);
  }

  // ---------------------------------------------------------------------
  // Deleting rows

  /** The entries from index k on whose indices are not in rows, in order. */
  function WithoutFrom(files: seq<FileEntry>, rows: set<int>, k: int): seq<FileEntry>
  {
    if files == [] then []
    else (if k in rows then [] else [files[0]]) + WithoutFrom(files[1..], rows, k + 1)
  }

  /** The files without the rows whose indices are in rows. */
  function Without(files: seq<FileEntry>, rows: set<int>): seq<FileEntry>
  {
    WithoutFrom(files, rows, 0)
  }

  /** An entry is kept exactly when some index outside rows holds it. */
  lemma {:induction false} WithoutFromMembers(files: seq<FileEntry>, rows: set<int>, k: int, e: FileEntry)
    ensures e in WithoutFrom(files, rows, k) <==> exists i :: 0 <= i < |files| && i + k !in rows && files[i] == e
    decreases |files|
  {
    if files != [] {
      var head := if k in rows then [] else [files[0]];
      var tail := WithoutFrom(files[1..], rows, k + 1);
      assert WithoutFrom(files, rows, k) == head + tail;
      WithoutFromMembers(files[1..], rows, k + 1, e);
      if e in head {
        assert 0 + k !in rows && files[0] == e;
      } else if e in tail {
        var i :| 0 <= i < |files| - 1 && i + k + 1 !in rows && files[1..][i] == e;
        assert (i + 1) + k !in rows && files[i + 1] == e;
      } else {
        forall i | 0 <= i < |files| && i + k !in rows
          ensures files[i] != e
        {
          if i > 0 {
            assert files[1..][i - 1] == files[i];
          }
        }
      }
    }
  }

  /** Deleting keeps exactly the entries at indices that were not selected. */
  lemma WithoutMembers(files: seq<FileEntry>, rows: set<int>, e: FileEntry)
    ensures e in Without(files, rows) <==> exists i :: 0 <= i < |files| && i !in rows && files[i] == e
  {
    WithoutFromMembers(files, rows, 0, e);
  }

  /** Nothing selected deletes nothing. */
  lemma {:induction false} WithoutNothing(files: seq<FileEntry>, k: int)
    ensures WithoutFrom(files, {}, k) == files
    decreases |files|
  {
    if files != [] {
      WithoutNothing(files[1..], k + 1);
      assert files == [files[0]] + files[1..];
    }
  }

  /** Only the indices the entries occupy matter. */
  lemma {:induction false} WithoutFromSameRows(files: seq<FileEntry>, rows: set<int>, rows': set<int>, k: int)
    requires forall i :: k <= i < k + |files| ==> (i in rows <==> i in rows')
    ensures WithoutFrom(files, rows, k) == WithoutFrom(files, rows', k)
    decreases |files|
  {
    if files != [] {
      WithoutFromSameRows(files[1..], rows, rows', k + 1);
    }
  }

  /** Removing a row below every row already deleted deletes that row too: the reason rows go from highest to lowest. */
  lemma {:induction false} WithoutFromRemoveBelow(files: seq<FileEntry>, rows: set<int>, k: int, r: int)
    requires k <= r < k + |files|
    requires forall x :: x in rows ==> x > r
    ensures RemoveAt(WithoutFrom(files, rows, k), r - k) == WithoutFrom(files, rows + {r}, k)
    decreases |files|
  {
    var rest := WithoutFrom(files[1..], rows, k + 1);
    assert WithoutFrom(files, rows, k) == [files[0]] + rest;
    if k == r {
      WithoutFromSameRows(files[1..], rows, rows + {r}, k + 1);
      assert RemoveAt([files[0]] + rest, 0) == rest;
    } else {
      WithoutFromRemoveBelow(files[1..], rows, k + 1, r);
      var removed := RemoveAt(rest, r - k - 1);
      assert RemoveAt([files[0]] + rest, r - k) == [files[0]] + removed;
      assert WithoutFrom(files, rows + {r}, k) == [files[0]] + removed;
    }
  }

  /** The values of a sequence. */
  function ElementsOf(s: seq<int>): set<int>
  {
    set i | 0 <= i < |s| :: s[i]
  }

  /** The rows a selection touches. */
  function RowsOf(selection: seq<Cell>): set<int>
  {
    set k | 0 <= k < |selection| :: selection[k].row
  }

  /** No value twice. */
  predicate Distinct(s: seq<int>)
  {
    forall i, j :: 0 <= i < j < |s| ==> s[i] != s[j]
  }

  /** A sequence without repeats is one in which every value counts at most once. */
  lemma {:induction false} DistinctCounts(s: seq<int>)
    ensures Distinct(s) <==> forall x :: multiset(s)[x] <= 1
  {
    if s != [] {
      var t := s[1..];
      DistinctCounts(t);
      assert s == [s[0]] + t;
      if Distinct(s) {
        assert Distinct(t) by {
          forall i, j | 0 <= i < j < |t|
            ensures t[i] != t[j]
          {
            assert t[i] == s[i + 1] && t[j] == s[j + 1];
          }
        }
        assert s[0] !in t by {
          forall j | 0 <= j < |t|
            ensures t[j] != s[0]
          {
            assert t[j] == s[j + 1];
          }
        }
      }
      if forall x :: multiset(s)[x] <= 1 {
        assert forall x :: multiset(t)[x] <= 1 by {
          forall x
            ensures multiset(t)[x] <= 1
          {
            assert multiset(s)[x] == multiset(t)[x] + (if x == s[0] then 1 else 0);
          }
        }
        assert multiset(s)[s[0]] == multiset(t)[s[0]] + 1;
        forall i, j | 0 <= i < j < |s|
          ensures s[i] != s[j]
        {
          if i == 0 {
            assert s[j] == t[j - 1];
            assert multiset(t)[s[0]] == 0;
          } else {
            assert s[i] == t[i - 1] && s[j] == t[j - 1];
          }
        }
      }
    }
  }

  /** In ascending order without repeats, each row is below all that follow it. */
  lemma SortedDistinctRows(rows: seq<int>)
    requires Distinct(rows)
    ensures var s := Sorting.Sort((a: int, b: int) => a < b, rows);
      Distinct(s) && (forall i, j :: 0 <= i < j < |s| ==> s[i] < s[j]) && (forall x :: x in s <==> x in rows)
  {
    var less := (a: int, b: int) => a < b;
    var s := Sorting.Sort(less, rows);
    Sorting.SortSorted(less, rows);
    DistinctCounts(rows);
    DistinctCounts(s);
    forall x
      ensures x in s <==> x in rows
    {
      assert x in s <==> x in multiset(s);
      assert x in rows <==> x in multiset(rows);
    }
    forall i, j | 0 <= i < j < |s|
      ensures s[i] < s[j]
    {
      var k := i;
      while k < j
        invariant i <= k <= j
        invariant s[i] <= s[k]
      {
        assert !less(s[k + 1], s[k]);
        k := k + 1;
      }
    }
  }

  /** Removing the next lower row of an ascending list of rows adds it to those deleted. */
  lemma DeleteStep(files: seq<FileEntry>, sorted: seq<int>, j: int)
    requires 0 <= j < |sorted| && 0 <= sorted[j] < |files|
    requires forall i, k :: 0 <= i < k < |sorted| ==> sorted[i] < sorted[k]
    ensures RemoveAt(Without(files, ElementsOf(sorted[j + 1..])), sorted[j]) == Without(files, ElementsOf(sorted[j..]))
  {
    var above := ElementsOf(sorted[j + 1..]);
    forall x | x in above
      ensures x > sorted[j]
    {
      var m :| 0 <= m < |sorted[j + 1..]| && sorted[j + 1..][m] == x;
      assert sorted[j + 1 + m] == x;
    }
    WithoutFromRemoveBelow(files, above, 0, sorted[j]);
    assert above + {sorted[j]} == ElementsOf(sorted[j..]) by {
      forall x | x in ElementsOf(sorted[j..])
        ensures x in above + {sorted[j]}
      {
        var m :| 0 <= m < |sorted[j..]| && sorted[j..][m] == x;
        if m > 0 {
          assert sorted[j + 1..][m - 1] == x;
        }
      }
      forall x | x in above
        ensures x in ElementsOf(sorted[j..])
      {
        var m :| 0 <= m < |sorted[j + 1..]| && sorted[j + 1..][m] == x;
        assert sorted[j..][m + 1] == x;
      }
      assert sorted[j..][0] == sorted[j];
    }
  }

  // ---------------------------------------------------------------------
  // The model and the view

  /** FileModel: the list of files the table shows. */
  class FileModel {

    var files: seq<FileEntry>

    constructor()
      ensures files == []
    {
      files := [];
    }

    /** addFile: the entry goes last. */
    method AddFile(file: FileEntry)
      modifies this
      ensures files == old(files) + [file]
    {
      files := files + [file];
    }

    /** removeFile: out of range nothing happens; otherwise that row goes. */
    method RemoveFile(index: int)
      modifies this
      ensures files == RemoveAt(old(files), index)
    {
      if index < 0 || index >= |files| {
        return;
      }
      files := files[..index] + files[index + 1..];
    }

    /** data: the cell's text, none outside the table. */
    function Data(c: Cell): (text: Option<string>)
      reads this
      ensures text.Some? <==> ValidCell(files, c)
    {
      if ValidCell(files, c) then Some(CellText(files[c.row], c.col)) else None
    }

    /** setData: in the edit role a valid cell takes the value; the answer is always false. */
    method SetData(c: Cell, value: string, editRole: bool) returns (ok: bool)
      modifies this
      ensures !ok
      ensures files == (if editRole then SetDataOn(old(files), c, value) else old(files))
    {
      if !ValidCell(files, c) || !editRole {
        return false;
      }
      files := files[c.row := SetField(files[c.row], c.col, value)];
      return false;
    }

    /** sort: the entries in the column's order, ascending or descending. */
    method Sort(column: int, ascending: bool)
      requires 0 <= column < ColumnCount
      modifies this
      ensures files == Sorting.Sort(SortOrder(column, ascending), old(files))
    {
      files := Sorting.Sort(SortOrder(column, ascending), files);
    }
  }

  /** The keys interceptKeyPress looks at. */
  datatype Key = ReturnKey | DeleteKey | OtherKey

  /** The files after setData on each cell of a selection in turn. */
  function RenameAll(files: seq<FileEntry>, selection: seq<Cell>, value: string): (r: seq<FileEntry>)
    ensures |r| == |files|
  {
    if selection == [] then files
    else SetDataOn(RenameAll(files, selection[..|selection| - 1], value), selection[|selection| - 1], value)
  }

  /** Renaming cells of one column edits exactly the selected rows, each once. */
  lemma {:induction false} RenameAllRows(files: seq<FileEntry>, selection: seq<Cell>, col: int, value: string)
    requires forall k :: 0 <= k < |selection| ==> ValidCell(files, selection[k]) && selection[k].col == col
    requires col == ArtistColumn || col == AlbumColumn || col == TitleColumn
    ensures forall r :: 0 <= r < |files| ==>
      RenameAll(files, selection, value)[r] == if r in RowsOf(selection) then SetField(files[r], col, value) else files[r]
  {
    if selection != [] {
      var init := selection[..|selection| - 1];
      RenameAllRows(files, init, col, value);
      var last := selection[|selection| - 1];
      forall r | 0 <= r < |files|
        ensures RenameAll(files, selection, value)[r] == if r in RowsOf(selection) then SetField(files[r], col, value) else files[r]
      {
        if r in RowsOf(init) {
          var k :| 0 <= k < |init| && init[k].row == r;
          assert selection[k].row == r;
        }
        if r in RowsOf(selection) && r != last.row {
          var k :| 0 <= k < |selection| && selection[k].row == r;
          assert init[k].row == r;
        }
        assert SetField(SetField(files[r], col, value), col, value) == SetField(files[r], col, value);
      }
    }
  }

  /** A column whose selected cells can be renamed at once. */
  predicate Renamable(col: int)
  {
    0 <= col < ColumnCount && ColumnInfoAt(col).editable
  }

  /** All cells of the selection lie in the column of the first. */
  predicate OneColumn(selection: seq<Cell>)
    requires selection != []
  {
    forall k :: 0 <= k < |selection| ==> selection[k].col == selection[0].col
  }

  /** Two different values in a set make it hold at least two. */
  lemma TwoInSet(s: set<int>, a: int, b: int)
    requires a in s && b in s && a != b
    ensures |s| >= 2
  {
    assert b in s - {a};
    assert |s - {a}| >= 1;
  }

  /** FileView: the table of files over its model. */
  class FileView {

    const model: FileModel

    constructor()
      ensures fresh(model) && model.files == []
    {
      model := new FileModel();
    }

    /** add: the entry goes to the model. */
    method Add(entry: FileEntry)
      modifies model
      ensures model.files == old(model.files) + [entry]
    {
      model.AddFile(entry);
    }

    /** The columns of the selected cells, gathered one cell at a time. */
    static method SelectedColumns(selection: seq<Cell>) returns (cols: set<int>)
      requires selection != []
      ensures |cols| > 1 <==> !OneColumn(selection)
      ensures OneColumn(selection) ==> cols == {selection[0].col}
    {
      cols := {};
      var i := 0;
      while i < |selection|
        invariant 0 <= i <= |selection|
        invariant cols == set k | 0 <= k < i :: selection[k].col
      {
        cols := cols + {selection[i].col};
        i := i + 1;
      }
      if OneColumn(selection) {
        assert cols == {selection[0].col};
      } else {
        var k :| 0 <= k < |selection| && selection[k].col != selection[0].col;
        TwoInSet(cols, selection[0].col, selection[k].col);
      }
    }

    /** The mass rename of interceptKeyPress: only cells of one renamable column, and only with text entered. */
    method MassRename(selection: seq<Cell>, entered: string) returns (handled: bool)
      requires selection != []
      requires forall k :: 0 <= k < |selection| ==> ValidCell(model.files, selection[k])
      modifies model
      ensures handled <==> OneColumn(selection) && Renamable(selection[0].col)
      ensures model.files == if handled && entered != [] then RenameAll(old(model.files), selection, entered) else old(model.files)
    {
      var cols := SelectedColumns(selection);
      if |cols| > 1 {
        return false;
      }
      var col := selection[0].col;
      if !ColumnInfoAt(col).editable {
        return false;
      }
      if entered != [] {
        var i := 0;
        while i < |selection|
          invariant 0 <= i <= |selection|
          invariant model.files == RenameAll(old(model.files), selection[..i], entered)
        {
          assert selection[..i + 1][..i] == selection[..i];
          var _ := model.SetData(selection[i], entered, true);
          i := i + 1;
        }
        assert selection[..i] == selection;
      }
      return true;
    }

    /** The rows of the selection without repeats, in the order first seen. */
    static method SelectedRows(selection: seq<Cell>) returns (rows: seq<int>)
      ensures Distinct(rows)
      ensures forall x :: x in rows <==> x in RowsOf(selection)
    {
      rows := [];
      var i := 0;
      while i < |selection|
        invariant 0 <= i <= |selection|
        invariant Distinct(rows)
        invariant forall x :: x in rows <==> exists k :: 0 <= k < i && selection[k].row == x
      {
        if selection[i].row !in rows {
          rows := rows + [selection[i].row];
        }
        i := i + 1;
      }
    }

    /** The delete of interceptKeyPress: the selected rows, sorted, removed from the highest down. */
    method DeleteSelected(selection: seq<Cell>)
      requires forall k :: 0 <= k < |selection| ==> ValidCell(model.files, selection[k])
      modifies model
      ensures model.files == Without(old(model.files), RowsOf(selection))
    {
      var rows := SelectedRows(selection);
      var sorted := Sorting.Sort((a: int, b: int) => a < b, rows);
      SortedDistinctRows(rows);
      ghost var files := model.files;
      WithoutNothing(files, 0);
      assert ElementsOf(sorted[|sorted|..]) == {};
      var j := |sorted|;
      while j > 0
        invariant 0 <= j <= |sorted|
        invariant model.files == Without(files, ElementsOf(sorted[j..]))
      {
        j := j - 1;
        assert sorted[j] in sorted && sorted[j] in rows;
        var k :| 0 <= k < |selection| && selection[k].row == sorted[j];
        DeleteStep(files, sorted, j);
        model.RemoveFile(sorted[j]);
      }
      assert ElementsOf(sorted[0..]) == RowsOf(selection) by {
        forall x | x in RowsOf(selection)
          ensures x in ElementsOf(sorted)
        {
          assert x in sorted;
          var m :| 0 <= m < |sorted| && sorted[m] == x;
        }
        forall x | x in ElementsOf(sorted)
          ensures x in RowsOf(selection)
        {
          var m :| 0 <= m < |sorted| && sorted[m] == x;
          assert x in sorted;
        }
        assert sorted[0..] == sorted;
      }
    }

    /**
     * interceptKeyPress: nothing while a cell is being edited or nothing is
     * selected; Return renames, Delete deletes, and any other key is left to
     * the table.
     */
    method InterceptKeyPress(editing: bool, selection: seq<Cell>, key: Key, entered: string) returns (handled: bool)
      requires forall k :: 0 <= k < |selection| ==> ValidCell(model.files, selection[k])
      modifies model
      ensures editing || selection == [] || key == OtherKey ==> !handled && model.files == old(model.files)
      ensures !editing && selection != [] && key == DeleteKey ==> handled && model.files == Without(old(model.files), RowsOf(selection))
      ensures !editing && selection != [] && key == ReturnKey ==>
        (handled <==> OneColumn(selection) && Renamable(selection[0].col)) &&
        model.files == if handled && entered != [] then RenameAll(old(model.files), selection, entered) else old(model.files)
    {
      if editing || selection == [] {
        return false;
      }
      if key == ReturnKey {
        handled := MassRename(selection, entered);
        return;
      }
      if key == DeleteKey {
        DeleteSelected(selection);
        return true;
      }
      return false;
    }
  }
}
