// The command-line test client (src/testclient/main.cpp): a library change
// is typed as tab-separated text, looked up in a table of change names and
// argument counts, and collected with further changes while lines end in
// '\'; the server's answer is printed one change per line. The table follows
// the change types of src/dbcommon, which has no ArtistAddOrGet. The
// connection, the library dump and the binary stream are outside the model.
module TestClient {

  import opened Wrappers
  import Text
  import Decimal
  import DL = DbLibrary

  // ---------------------------------------------------------------------
  // The table of change types

  /** A table entry: the change's name and the fewest arguments it takes. */
  datatype CommandSpec = CommandSpec(name: string, minArgs: nat)

  /** The number of entries of changeTypesAndParamCount. */
  const CommandCount: nat := 25

  /** changeTypesAndParamCount: the entry at index i. */
  function CommandAt(i: nat): (c: CommandSpec)
    requires i < CommandCount
    ensures c.minArgs <= 2
  {
    match i
    case 0 => CommandSpec("Invalid", 0)
    case 1 => CommandSpec("SongAdd", 2)
    case 2 => CommandSpec("SongRemove", 1)
    case 3 => CommandSpec("SongSetName", 2)
    case 4 => CommandSpec("SongSetPosition", 2)
    case 5 => CommandSpec("SongSetLength", 2)
    case 6 => CommandSpec("SongSetFileEnding", 2)
    case 7 => CommandSpec("SongSetAlbum", 2)
    case 8 => CommandSpec("SongAddTag", 2)
    case 9 => CommandSpec("SongRemoveTag", 2)
    case 10 => CommandSpec("AlbumAdd", 2)
    case 11 => CommandSpec("AlbumRemove", 1)
    case 12 => CommandSpec("AlbumSetName", 2)
    case 13 => CommandSpec("AlbumSetArtist", 2)
    case 14 => CommandSpec("AlbumAddTag", 2)
    case 15 => CommandSpec("AlbumRemoveTag", 2)
    case 16 => CommandSpec("ArtistAdd", 0)
    case 17 => CommandSpec("ArtistRemove", 1)
    case 18 => CommandSpec("ArtistSetName", 2)
    case 19 => CommandSpec("ArtistAddTag", 2)
    case 20 => CommandSpec("ArtistRemoveTag", 2)
    case 21 => CommandSpec("TagAdd", 2)
    case 22 => CommandSpec("TagRemove", 1)
    case 23 => CommandSpec("TagSetName", 2)
    case _ => CommandSpec("TagSetParent", 2)
  }

  /** static_cast<LibraryChange::Type>(i): the change type whose value is i. */
  function TypeAt(i: nat): (t: DL.ChangeType)
    requires i < CommandCount
    ensures Ordinal(t) == i
  {
    match i
    case 0 => DL.Invalid
    case 1 => DL.SongAdd
    case 2 => DL.SongRemove
    case 3 => DL.SongSetName
    case 4 => DL.SongSetPosition
    case 5 => DL.SongSetLength
    case 6 => DL.SongSetFileEnding
    case 7 => DL.SongSetAlbum
    case 8 => DL.SongAddTag
    case 9 => DL.SongRemoveTag
    case 10 => DL.AlbumAdd
    case 11 => DL.AlbumRemove
    case 12 => DL.AlbumSetName
    case 13 => DL.AlbumSetArtist
    case 14 => DL.AlbumAddTag
    case 15 => DL.AlbumRemoveTag
    case 16 => DL.ArtistAdd
    case 17 => DL.ArtistRemove
    case 18 => DL.ArtistSetName
    case 19 => DL.ArtistAddTag
    case 20 => DL.ArtistRemoveTag
    case 21 => DL.TagAdd
    case 22 => DL.TagRemove
    case 23 => DL.TagSetName
    case _ => DL.TagSetParent
  }

  /** The value of a change type in the enum's declaration. */
  function Ordinal(t: DL.ChangeType): (n: nat)
    ensures n < CommandCount
  {
    match t
    case Invalid => 0
    case SongAdd => 1
    case SongRemove => 2
    case SongSetName => 3
    case SongSetPosition => 4
    case SongSetLength => 5
    case SongSetFileEnding => 6
    case SongSetAlbum => 7
    case SongAddTag => 8
    case SongRemoveTag => 9
    case AlbumAdd => 10
    case AlbumRemove => 11
    case AlbumSetName => 12
    case AlbumSetArtist => 13
    case AlbumAddTag => 14
    case AlbumRemoveTag => 15
    case ArtistAdd => 16
    case ArtistRemove => 17
    case ArtistSetName => 18
    case ArtistAddTag => 19
    case ArtistRemoveTag => 20
    case TagAdd => 21
    case TagRemove => 22
    case TagSetName => 23
    case TagSetParent => 24
  }

  /** Every type is the one at its value. */
  lemma TypeAtOrdinal(t: DL.ChangeType)
    ensures TypeAt(Ordinal(t)) == t
  {
  }

  /** The enumerator's own name, which the table gives at the type's value. */
  function TypeName(t: DL.ChangeType): (s: string)
    ensures CommandAt(Ordinal(t)).name == s
  {
    match t
    case Invalid => "Invalid"
    case SongAdd => "SongAdd"
    case SongRemove => "SongRemove"
    case SongSetName => "SongSetName"
    case SongSetPosition => "SongSetPosition"
    case SongSetLength => "SongSetLength"
    case SongSetFileEnding => "SongSetFileEnding"
    case SongSetAlbum => "SongSetAlbum"
    case SongAddTag => "SongAddTag"
    case SongRemoveTag => "SongRemoveTag"
    case AlbumAdd => "AlbumAdd"
    case AlbumRemove => "AlbumRemove"
    case AlbumSetName => "AlbumSetName"
    case AlbumSetArtist => "AlbumSetArtist"
    case AlbumAddTag => "AlbumAddTag"
    case AlbumRemoveTag => "AlbumRemoveTag"
    case ArtistAdd => "ArtistAdd"
    case ArtistRemove => "ArtistRemove"
    case ArtistSetName => "ArtistSetName"
    case ArtistAddTag => "ArtistAddTag"
    case ArtistRemoveTag => "ArtistRemoveTag"
    case TagAdd => "TagAdd"
    case TagRemove => "TagRemove"
    case TagSetName => "TagSetName"
    case TagSetParent => "TagSetParent"
  }

  // ---------------------------------------------------------------------
  // parseChange

  /** QString::toUInt in base 10: an optional '+' and digits whose value fits 32 bits. */
  function UInt(s: string): (r: Option<nat>)
    ensures r.Some? ==> r.value < 0x1_0000_0000
  {
    var digits := if |s| > 0 && s[0] == '+' then s[1..] else s;
    if digits != [] && Decimal.AllDigits(digits) && Decimal.DigitsValue(digits) < 0x1_0000_0000
    then Some(Decimal.DigitsValue(digits))
    else None
  }

  /** Every 32-bit number is read back from its digits. */
  lemma UIntDigits(n: nat)
    requires n < 0x1_0000_0000
    ensures UInt(Decimal.NatToString(n)) == Some(n)
  {
    Decimal.NatToStringValue(n);
  }

  /** Entry i's lower-cased name starts with the lower-cased word. */
  predicate NameMatches(i: nat, word: string)
    requires i < CommandCount
  {
    Text.StartsWithIgnoringCase(CommandAt(i).name, word)
  }

  /** The first entry from i on that the word names, if any. */
  function FirstCommand(word: string, i: nat): (r: Option<nat>)
    requires i <= CommandCount
    ensures r.Some? ==> i <= r.value < CommandCount && NameMatches(r.value, word)
    ensures forall j :: i <= j < CommandCount && (r.None? || j < r.value) ==> !NameMatches(j, word)
    decreases CommandCount - i
  {
    if i == CommandCount then None
    else if NameMatches(i, word) then Some(i)
    else FirstCommand(word, i + 1)
  }

  /** Why a line is not a change; Message gives the text the client prints. */
  datatype ParseError =
    | NotEnoughParts(count: nat)
    | WrongArgumentCount(got: int, expected: nat)
    | SubjectNotAnId(text: string)
    | DetailNotAnId(text: string)
    | NotRecognized(command: string)

  function Message(e: ParseError): string
  {
    match e
    case NotEnoughParts(count) => "Not enough tab-separated parts (" + Decimal.IntToString(count) + ")"
    case WrongArgumentCount(got, expected) =>
      "Wrong number of arguments. Got " + Decimal.IntToString(got) + ", expected " + Decimal.IntToString(expected) + "."
    case SubjectNotAnId(text) => "Subject not an ID: " + text
    case DetailNotAnId(text) => "Detail not an ID: " + text
    case NotRecognized(command) => "Not a recognized command: " + command
  }

  /**
   * The change an entry of type t taking minArgs arguments makes of the
   * parts. For ArtistAdd only the name is read; the code leaves subject and
   * detail uninitialised, which junk stands for, and names the subject where
   * a detail is not a number. With fixed set, subject and detail are 0 and
   * the message names the detail.
   */
  function ChangeFor(parts: seq<string>, t: DL.ChangeType, minArgs: nat, junk: (nat, nat), fixed: bool): (r: Result<DL.LibraryChange, ParseError>)
    requires |parts| >= 2
    ensures |parts| - 1 < minArgs ==> r == Err(WrongArgumentCount(|parts| - 1, minArgs))
    ensures r.Ok? ==> r.value.changeType == t && |parts| - 1 >= minArgs
    ensures r.Ok? && t == DL.ArtistAdd ==>
      r.value.name == parts[1] && (fixed ==> r.value.subject == 0 && r.value.detail == 0)
    ensures r.Ok? && t != DL.ArtistAdd ==> UInt(parts[1]) == Some(r.value.subject)
    ensures r.Ok? && t != DL.ArtistAdd && DL.HasStringArg(t) ==>
      r.value.detail == 0 && r.value.name == (if |parts| > 2 then parts[2] else [])
    ensures r.Ok? && !DL.HasStringArg(t) ==>
      UInt(if |parts| > 2 then parts[2] else []) == Some(r.value.detail) && r.value.name == []
  {
    if |parts| - 1 < minArgs then Err(WrongArgumentCount(|parts| - 1, minArgs))
    else
      var extra := if |parts| > 2 then parts[2] else [];
      if t == DL.ArtistAdd then
        if fixed then Ok(DL.LibraryChange(t, 0, 0, parts[1])) else Ok(DL.LibraryChange(t, junk.0, junk.1, parts[1]))
      else
        var subject := UInt(parts[1]);
        var detail := if DL.HasStringArg(t) then Some(0) else UInt(extra);
        if subject.None? then Err(SubjectNotAnId(parts[1]))
        else if detail.None? then Err(DetailNotAnId(if fixed then extra else parts[1]))
        else Ok(DL.LibraryChange(t, subject.value, detail.value, if DL.HasStringArg(t) then extra else []))
  }

  /** parseChange: fewer than two parts, an unknown command, or a bad entry is an error. */
  function ParseChangeWith(str: string, junk: (nat, nat), fixed: bool): (r: Result<DL.LibraryChange, ParseError>)
    ensures |Text.Split(str, '\t')| < 2 ==> r == Err(NotEnoughParts(|Text.Split(str, '\t')|))
    ensures |Text.Split(str, '\t')| >= 2 && FirstCommand(Text.Split(str, '\t')[0], 0).None? ==>
      r == Err(NotRecognized(Text.Split(str, '\t')[0]))
  {
    var parts := Text.Split(str, '\t');
    if |parts| < 2 then Err(NotEnoughParts(|parts|))
    else
      match FirstCommand(parts[0], 0)
      case None => Err(NotRecognized(parts[0]))
      case Some(i) => ChangeFor(parts, TypeAt(i), CommandAt(i).minArgs, junk, fixed)
  }

  /** Once the command is found, its table entry decides. */
  lemma ParseDispatch(str: string, junk: (nat, nat), fixed: bool, i: nat)
    requires |Text.Split(str, '\t')| >= 2 && FirstCommand(Text.Split(str, '\t')[0], 0) == Some(i)
    ensures ParseChangeWith(str, junk, fixed) == ChangeFor(Text.Split(str, '\t'), TypeAt(i), CommandAt(i).minArgs, junk, fixed)
  {
  }

  /** A parsed change has the type of the first entry its command names. */
  lemma ParsedType(str: string, junk: (nat, nat), fixed: bool)
    requires ParseChangeWith(str, junk, fixed).Ok?
    ensures FirstCommand(Text.Split(str, '\t')[0], 0) == Some(Ordinal(ParseChangeWith(str, junk, fixed).value.changeType))
  {
    var parts := Text.Split(str, '\t');
    var i := FirstCommand(parts[0], 0).value;
    ParseDispatch(str, junk, fixed, i);
  }

  /** parseChange as written, junk standing for the uninitialised subject and detail. */
  function ParseChangeAsWritten(str: string, junk: (nat, nat)): Result<DL.LibraryChange, ParseError>
  {
    ParseChangeWith(str, junk, false)
  }

  /** parseChange with subject and detail zeroed for ArtistAdd and the detail named in its error. */
  function ParseChange(str: string): Result<DL.LibraryChange, ParseError>
  {
    ParseChangeWith(str, (0, 0), true)
  }

  /** The parts a change is typed as: a command word, then the name for ArtistAdd, else the subject and the name or the detail. */
  function PartsOf(word: string, c: DL.LibraryChange): (parts: seq<string>)
    ensures |parts| == (if c.changeType == DL.ArtistAdd then 2 else 3) && parts[0] == word
  {
    if c.changeType == DL.ArtistAdd then [word, c.name]
    else [word, Decimal.NatToString(c.subject), if DL.HasStringArg(c.changeType) then c.name else Decimal.NatToString(c.detail)]
  }

  /** The line a change is typed as: its parts joined by tabs. */
  function LineOf(word: string, c: DL.LibraryChange): string
  {
    Text.Join(PartsOf(word, c), '\t')
  }

  /** A change the client can type: 32-bit numbers, no tab in the name, and nothing in the fields its type does not read. */
  predicate Typable(c: DL.LibraryChange)
  {
    && c.subject < 0x1_0000_0000 && c.detail < 0x1_0000_0000 && '\t' !in c.name
    && (c.changeType == DL.ArtistAdd ==> c.subject == 0 && c.detail == 0)
    && (DL.HasStringArg(c.changeType) ==> c.detail == 0)
    && (!DL.HasStringArg(c.changeType) ==> c.name == [])
  }

  /** Without tabs in the word and the name, the line splits back into its parts. */
  lemma SplitLineOf(word: string, c: DL.LibraryChange)
    requires '\t' !in word && '\t' !in c.name
    ensures Text.Split(LineOf(word, c), '\t') == PartsOf(word, c)
  {
    var parts := PartsOf(word, c);
    forall k | 0 <= k < |parts|
      ensures '\t' !in parts[k]
    {
      if k > 0 && parts[k] != c.name {
        assert forall m :: 0 <= m < |parts[k]| ==> Decimal.IsDigit(parts[k][m]);
      }
    }
    Text.JoinSplit(parts, '\t');
  }

  /** The entry of a typable change's type reads the change back from its parts. */
  lemma ChangeForPartsOf(word: string, c: DL.LibraryChange, minArgs: nat)
    requires Typable(c) && minArgs < |PartsOf(word, c)|
    ensures ChangeFor(PartsOf(word, c), c.changeType, minArgs, (0, 0), true) == Ok(c)
  {
    UIntDigits(c.subject);
    UIntDigits(c.detail);
  }

  /** A typable change, typed after a word that names its type, is parsed back. */
  lemma ParseLineOf(word: string, c: DL.LibraryChange)
    requires '\t' !in word && FirstCommand(word, 0) == Some(Ordinal(c.changeType)) && Typable(c)
    ensures ParseChange(LineOf(word, c)) == Ok(c)
  {
    var i := Ordinal(c.changeType);
    SplitLineOf(word, c);
    TypeAtOrdinal(c.changeType);
    ParseDispatch(LineOf(word, c), (0, 0), true, i);
    if c.changeType == DL.ArtistAdd {
      ArtistAddEntry();
    }
    ChangeForPartsOf(word, c, CommandAt(i).minArgs);
  }

  /** The ArtistAdd entry: its value, 16, gives the table's name and no required argument. */
  lemma ArtistAddEntry()
    ensures TypeAt(16) == DL.ArtistAdd && CommandAt(16).minArgs == 0 && Ordinal(DL.ArtistAdd) == 16
  {
  }

  /** As written, an ArtistAdd change carries whatever the uninitialised subject and detail held. */
  lemma ArtistAddReadsUninitialised(str: string, junk: (nat, nat))
    requires |Text.Split(str, '\t')| >= 2
    requires FirstCommand(Text.Split(str, '\t')[0], 0) == Some(16)
    ensures ParseChangeAsWritten(str, junk) == Ok(DL.LibraryChange(DL.ArtistAdd, junk.0, junk.1, Text.Split(str, '\t')[1]))
  {
    ParseDispatch(str, junk, false, 16);
    ArtistAddEntry();
  }

  /** Corrected, an ArtistAdd change has subject and detail 0. */
  lemma ArtistAddZeroed(str: string)
    requires |Text.Split(str, '\t')| >= 2
    requires FirstCommand(Text.Split(str, '\t')[0], 0) == Some(16)
    ensures ParseChange(str) == Ok(DL.LibraryChange(DL.ArtistAdd, 0, 0, Text.Split(str, '\t')[1]))
  {
    ParseDispatch(str, (0, 0), true, 16);
    ArtistAddEntry();
  }

  /** An entry whose detail is a number reports a detail that is not: as written with the subject's text, corrected with its own. */
  lemma ChangeForDetailError(parts: seq<string>, t: DL.ChangeType, minArgs: nat, junk: (nat, nat), fixed: bool)
    requires |parts| >= 3 && minArgs <= 2 && !DL.HasStringArg(t)
    requires UInt(parts[1]).Some? && UInt(parts[2]).None?
    ensures ChangeFor(parts, t, minArgs, junk, fixed) == Err(DetailNotAnId(if fixed then parts[2] else parts[1]))
  {
  }

  /** As written, a detail that is no number is reported with the subject's text; corrected, with its own. */
  lemma DetailErrorText(str: string, junk: (nat, nat), i: nat)
    requires |Text.Split(str, '\t')| >= 3 && FirstCommand(Text.Split(str, '\t')[0], 0) == Some(i)
    requires !DL.HasStringArg(TypeAt(i))
    requires UInt(Text.Split(str, '\t')[1]).Some? && UInt(Text.Split(str, '\t')[2]).None?
    ensures ParseChangeAsWritten(str, junk) == Err(DetailNotAnId(Text.Split(str, '\t')[1]))
    ensures ParseChange(str) == Err(DetailNotAnId(Text.Split(str, '\t')[2]))
  {
    var parts := Text.Split(str, '\t');
    ParseDispatch(str, junk, false, i);
    ParseDispatch(str, (0, 0), true, i);
    ChangeForDetailError(parts, TypeAt(i), CommandAt(i).minArgs, junk, false);
    ChangeForDetailError(parts, TypeAt(i), CommandAt(i).minArgs, (0, 0), true);
  }

  /** parseChange: the table is searched in order for the first name the command starts. */
  method ParseChangeLine(str: string) returns (r: Result<DL.LibraryChange, ParseError>)
    ensures r == ParseChange(str)
  {
    var parts := Text.Split(str, '\t');
    if |parts| < 2 {
      return Err(NotEnoughParts(|parts|));
    }
    var i := 0;
    while i < CommandCount
      invariant 0 <= i <= CommandCount
      invariant FirstCommand(parts[0], i) == FirstCommand(parts[0], 0)
    {
      if NameMatches(i, parts[0]) {
        return ChangeFor(parts, TypeAt(i), CommandAt(i).minArgs, (0, 0), true);
      }
      i := i + 1;
    }
    return Err(NotRecognized(parts[0]));
  }

  // ---------------------------------------------------------------------
  // answerToString

  /** A change as read back from the server: its type is the raw 32-bit value. */
  datatype RawChange = RawChange(typeValue: nat, subject: nat, detail: nat, name: string)

  /** A 32-bit value read as a signed int, as "%d" prints it. */
  function Signed32(n: nat): (v: int)
    requires n < 0x1_0000_0000
    ensures Decimal.Int32Min <= v <= Decimal.Int32Max && (v == n || v == n - 0x1_0000_0000)
  {
    if n < 0x8000_0000 then n else n - 0x1_0000_0000
  }

  /**
   * answerToString: "Invalid(n)" outside the table; otherwise the name, the
   * subject, the name or the detail for entries taking two arguments, and
   * the new id for the changes creating one.
   */
  function AnswerToString(c: RawChange): (s: string)
    requires c.typeValue < 0x1_0000_0000
    ensures c.typeValue >= CommandCount ==> s == "Invalid(" + Decimal.IntToString(Signed32(c.typeValue)) + ")"
  {
    if c.typeValue >= CommandCount then "Invalid(" + Decimal.IntToString(Signed32(c.typeValue)) + ")"
    else
      var t := TypeAt(c.typeValue);
      var spec := CommandAt(c.typeValue);
      var args :=
        if spec.minArgs <= 1 then []
        else if DL.HasStringArg(t) then ", name='" + c.name + "'"
        else ", op=" + Decimal.NatToString(c.detail);
      var call := spec.name + "(id=" + Decimal.NatToString(c.subject) + args + ")";
      if DL.IsCreatingNewId(t) then call + " -> " + Decimal.NatToString(c.detail) else call
  }

  /** A type value of 2^31 or more is printed negative. */
  lemma AnswerNegativeForHighValues(c: RawChange)
    requires 0x8000_0000 <= c.typeValue < 0x1_0000_0000
    ensures AnswerToString(c)[8] == '-'
  {
  }

  /** Inside the table, the answer starts with the type's name and the subject. */
  lemma AnswerNamesType(c: RawChange)
    requires c.typeValue < CommandCount
    ensures Text.StartsWith(AnswerToString(c), TypeName(TypeAt(c.typeValue)) + "(id=" + Decimal.NatToString(c.subject))
  {
    var prefix := TypeName(TypeAt(c.typeValue)) + "(id=" + Decimal.NatToString(c.subject);
    assert AnswerToString(c)[..|prefix|] == prefix;
  }

  /** Inside the table, the answer ends with " -> " and the detail exactly for the changes creating an id. */
  lemma AnswerShowsNewId(c: RawChange)
    requires c.typeValue < CommandCount
    ensures var s := AnswerToString(c); var tail := " -> " + Decimal.NatToString(c.detail);
      (|tail| <= |s| && s[|s| - |tail|..] == tail) <==> DL.IsCreatingNewId(TypeAt(c.typeValue))
  {
    var s := AnswerToString(c);
    var digits := Decimal.NatToString(c.detail);
    var tail := " -> " + digits;
    if !DL.IsCreatingNewId(TypeAt(c.typeValue)) {
      assert s[|s| - 1] == ')';
      assert tail[|tail| - 1] == digits[|digits| - 1];
      assert Decimal.IsDigit(digits[|digits| - 1]);
      if |tail| <= |s| {
        assert s[|s| - |tail|..][|tail| - 1] == ')';
      }
    }
  }

  // ---------------------------------------------------------------------
  // Reading changes

  /** What a line of change input says: it continues when it ends in '\', and the text before that, trimmed again. */
  datatype ChangeLine = ChangeLine(empty: bool, continues: bool, text: string)

  /** readLine trims the line; a trailing '\' is cut off and the rest trimmed again. */
  function ChangeLineOf(line: string): (l: ChangeLine)
    ensures l.empty <==> Text.Trimmed(line) == []
    ensures l.continues ==> !l.empty
  {
    var t := Text.Trimmed(line);
    if t == [] then ChangeLine(true, false, [])
    else if t[|t| - 1] == '\\' then ChangeLine(false, true, Text.Trimmed(t[..|t| - 1]))
    else ChangeLine(false, false, t)
  }

  /** How the loop ends: the input ran out (the client exits and sends nothing), or the list is complete. */
  datatype Ending = EndOfInput | Complete

  /** Each line of input as readLine sees it. */
  function LinesOf(input: seq<string>): (lines: seq<ChangeLine>)
    ensures |lines| == |input|
  {
    seq(|input|, k requires 0 <= k < |input| => ChangeLineOf(input[k]))
  }

  /** A parser of change text: ParseChange, or any other for the lemmas that hold for all. */
  type Parser = string -> Result<DL.LibraryChange, ParseError>

  /** The changes read from line i on after those in acc, and how reading ends. */
  function ReadFrom(lines: seq<ChangeLine>, i: nat, parse: Parser, acc: seq<DL.LibraryChange>): (seq<DL.LibraryChange>, Ending)
    decreases |lines| - i
  {
    if i >= |lines| then (acc, EndOfInput)
    else if lines[i].empty then (acc, Complete)
    else
      match parse(lines[i].text)
      case Err(_) => ReadFrom(lines, i + 1, parse, acc)
      case Ok(c) =>
        if lines[i].continues then ReadFrom(lines, i + 1, parse, acc + [c])
        else (acc + [c], Complete)
  }

  /** One line read: a parse error skips it, a change is kept, and reading goes on only after a continued line. */
  lemma ReadStep(lines: seq<ChangeLine>, i: nat, parse: Parser, acc: seq<DL.LibraryChange>, r: Result<DL.LibraryChange, ParseError>)
    requires i < |lines| && !lines[i].empty && r == parse(lines[i].text)
    ensures ReadFrom(lines, i, parse, acc) ==
      if r.Err? then ReadFrom(lines, i + 1, parse, acc)
      else if lines[i].continues then ReadFrom(lines, i + 1, parse, acc + [r.value])
      else (acc + [r.value], Complete)
  {
  }

  /** The changes a list of lines gives, and how reading ends. */
  function ChangesOf(lines: seq<ChangeLine>, parse: Parser): (seq<DL.LibraryChange>, Ending)
  {
    ReadFrom(lines, 0, parse, [])
  }

  /** Every change read is one read before or the parse of one of the lines read. */
  lemma {:induction false} ReadFromParsedLines(lines: seq<ChangeLine>, i: nat, parse: Parser, acc: seq<DL.LibraryChange>)
    ensures forall c :: c in ReadFrom(lines, i, parse, acc).0 ==>
      c in acc || exists j :: i <= j < |lines| && parse(lines[j].text) == Ok(c)
    decreases |lines| - i
  {
    if i < |lines| && !lines[i].empty {
      match parse(lines[i].text)
      case Err(_) => ReadFromParsedLines(lines, i + 1, parse, acc);
      case Ok(c) =>
        if lines[i].continues {
          ReadFromParsedLines(lines, i + 1, parse, acc + [c]);
        }
    }
  }

  /** Every change read is the parse of one of the lines. */
  lemma ChangesAreParsedLines(lines: seq<ChangeLine>, parse: Parser)
    ensures forall c :: c in ChangesOf(lines, parse).0 ==> exists j :: 0 <= j < |lines| && parse(lines[j].text) == Ok(c)
  {
    ReadFromParsedLines(lines, 0, parse, []);
  }

  /** Lines that all continue except the last, and all parse, add their changes in order. */
  lemma {:induction false} ContinuedLinesRead(lines: seq<ChangeLine>, i: nat, changes: seq<DL.LibraryChange>, parse: Parser, acc: seq<DL.LibraryChange>)
    requires i < |lines| && |changes| == |lines| - i
    requires forall j :: i <= j < |lines| ==> !lines[j].empty && parse(lines[j].text) == Ok(changes[j - i])
    requires forall j :: i <= j < |lines| - 1 ==> lines[j].continues
    requires !lines[|lines| - 1].continues
    ensures ReadFrom(lines, i, parse, acc) == (acc + changes, Complete)
    decreases |lines| - i
  {
    assert parse(lines[i].text) == Ok(changes[0]);
    if i < |lines| - 1 {
      ContinuedLinesRead(lines, i + 1, changes[1..], parse, acc + [changes[0]]);
      assert acc + changes == (acc + [changes[0]]) + changes[1..];
    } else {
      assert changes == [changes[0]];
    }
  }

  /** A list of lines that parse, each continued but the last, gives exactly their changes. */
  lemma ContinuedListRead(lines: seq<ChangeLine>, changes: seq<DL.LibraryChange>, parse: Parser)
    requires |lines| > 0 && |changes| == |lines|
    requires forall j :: 0 <= j < |lines| ==> !lines[j].empty && parse(lines[j].text) == Ok(changes[j])
    requires forall j :: 0 <= j < |lines| - 1 ==> lines[j].continues
    requires !lines[|lines| - 1].continues
    ensures ChangesOf(lines, parse) == (changes, Complete)
  {
    ContinuedLinesRead(lines, 0, changes, parse, []);
    assert [] + changes == changes;
  }

  /** readLine: the line trimmed; when it ends in '\', the text before that trimmed again. */
  method ReadLine(input: string) returns (l: ChangeLine)
    ensures l == ChangeLineOf(input)
  {
    var line := Text.Trimmed(input);
    if line == [] {
      return ChangeLine(true, false, []);
    }
    var continues := line[|line| - 1] == '\\';
    if continues {
      line := Text.Trimmed(line[..|line| - 1]);
    }
    return ChangeLine(false, continues, line);
  }

  /** The "changes" command's loop: a line that fails to parse is reported and reading goes on. */
  method ReadChanges(input: seq<string>) returns (changes: seq<DL.LibraryChange>, ending: Ending)
    ensures (changes, ending) == ChangesOf(LinesOf(input), ParseChange)
  {
    ghost var lines := LinesOf(input);
    changes := [];
    var i := 0;
    while true
      invariant 0 <= i <= |input|
      invariant ChangesOf(lines, ParseChange) == ReadFrom(lines, i, ParseChange, changes)
      decreases |input| - i
    {
      if i == |input| {
        return changes, EndOfInput;
      }
      assert lines[i] == ChangeLineOf(input[i]);
      var l := ReadLine(input[i]);
      if l.empty {
        return changes, Complete;
      }
      var parsed := ParseChangeLine(l.text);
      ReadStep(lines, i, ParseChange, changes, parsed);
      i := i + 1;
      if parsed.Err? {
        continue;
      }
      changes := changes + [parsed.value];
      if !l.continues {
        return changes, Complete;
      }
    }
  }

  /** What a line typed at the prompt asks for. */
  datatype Request = PingRequest | LibraryDump | ChangesInput | NotValid

  /** "ping" in any case pings; a prefix of "library" or of "changes", in lower case after lower-casing, asks for the library or starts a change list. */
  function RequestOf(line: string): (r: Request)
    ensures r == LibraryDump ==> Text.StartsWith("library", Text.Lower(line))
    ensures r == ChangesInput ==> Text.StartsWith("changes", Text.Lower(line)) && !Text.StartsWith("library", Text.Lower(line))
  {
    var lower := Text.Lower(line);
    if lower == "ping" then PingRequest
    else if Text.StartsWith("library", lower) then LibraryDump
    else if Text.StartsWith("changes", lower) then ChangesInput
    else NotValid
  }

  /** An empty line is a prefix of "library" and asks for the library. */
  lemma EmptyLineDumpsLibrary()
    ensures RequestOf([]) == LibraryDump
  {
    assert Text.Lower([]) == [];
  }
}
