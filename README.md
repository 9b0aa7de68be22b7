# Moosick core in Dafny

Moosick is a self-hosted music collection: a server keeps the library of
songs, albums, artists and tags, CGI programs give HTTP access to it, an app
browses, searches, edits and plays it, and an uploader sends new files. This
project models the logic at the centre of it and proves what that logic
promises.

- **The library** (`library_model.dfy`, `shared_library.dfy`,
  `library_invariants.dfy`, `tag_forest.dfy`, `tag_tree_invariants.dfy`,
  `tag_case_invariants.dfy`, `commit_invariants.dfy`). The store of
  src/shared/library.cpp holds items linked in both directions, and
  `Library::commit` is the only way it changes. It is modelled twice: as a
  value function per change type, and as a class whose collections the
  commit methods update in place. The class is proved against the values.
  Every accepted change keeps the links consistent, the ids below their
  counters, the tags a forest and the change log numbered 1 to the revision.
- **The older library** of src/dbcommon (`db_library.dfy`, `db_items.dfy`,
  `db_findings.dfy`). It is modelled on its own terms and compared with the
  shared one. Where it lacks a check, the comparison is a lemma.
- **Containers and ids** (`result_cell.dfy`, `option_cell.dfy`,
  `flat_map.dfy`, `library_types.dfy`, `library_types_json.dfy`,
  `model_adapter.dfy`). These are classes whose fields the operations
  reassign.
- **JSON and serialisation** (`json_conv.dfy`, `json_templates.dfy`,
  `db_json.dfy`, `library_serialize.dfy`, `library_messages.dfy`). JSON is a
  datatype. The hex library id round-trips. The library reader rebuilds the
  reverse links. Messages are read back as they were written.
- **The app** (`app_database.dfy`, `database_interface.dfy`, `playlist.dfy`,
  `string_model.dfy`, `select_tags_model.dfy`, `controller.dfy`,
  `audio.dfy`, `multi_choice.dfy`, `android_util.dfy`). It covers:
  - keeping the library in step with the server;
  - turning edits into change requests;
  - the search and its results list;
  - the edit, download and removal dialogs;
  - the play queue;
  - the filtered choice list and the tag picker;
  - the player status;
  - the log view.
- **Servers and tools** (`cgi_request.dfy`, `cgi_main.dfy`,
  `server_cgi_script.dfy`, `server_cgi_messages.dfy`, `bandcamp_json.dfy`,
  `test_client.dfy`, `file_view.dfy`, `upload_window.dfy`, `logger.dfy`,
  `server_settings.dfy`). It covers:
  - CGI request parsing and routing;
  - the YouTube format choice;
  - Bandcamp durations;
  - the test client's change parser;
  - the uploader's file table and upload queue;
  - log filtering;
  - the settings file.
- **Helpers** (`wrappers.dfy`, `text.dfy`, `decimal.dfy`, `sorting.dfy`).
  These are optional values and results, QString splitting and searching,
  C++ and Qt integer text, and the sort the app calls.

## Model

| member | source | states |
|---|---|---|
| `ResultCell.ExactlyOneQuery` | src/shared/result.hpp:44-46 | exactly one of isNull, hasValue and hasError holds in every state |
| `ResultCell.Result.constructor` | src/shared/result.hpp:75-79 | a default Result is in the Null state |
| `ResultCell.Result.FromValue` | src/shared/result.hpp:81-93 | constructing from a value gives the Value state holding that value |
| `ResultCell.Result.FromError` | src/shared/result.hpp:95-107 | constructing from an error gives the Error state holding that error |
| `ResultCell.Result.IsNull` | src/shared/result.hpp:44 | isNull holds exactly when the result holds neither a value nor an error |
| `ResultCell.Result.HasValue` | src/shared/result.hpp:45 | hasValue holds exactly when the result is neither Null nor Error |
| `ResultCell.Result.HasError` | src/shared/result.hpp:46 | hasError holds exactly when the result is neither Null nor Value |
| `ResultCell.Result.GetValue` | src/shared/result.hpp:337-342 | getValue needs the Value state, returns the held value and changes nothing |
| `ResultCell.Result.GetError` | src/shared/result.hpp:354-359 | getError needs the Error state, returns the held error and changes nothing |
| `ResultCell.Result.SetValue` | src/shared/result.hpp:255-293 | from Null, Value or Error, setValue ends in Value holding the new value |
| `ResultCell.Result.SetError` | src/shared/result.hpp:295-335 | from Null, Value or Error, setError ends in Error holding the new error |
| `ResultCell.Result.TakeValue` | src/shared/result.hpp:344-352 | takeValue needs Value, hands out the held value and leaves the result Null |
| `ResultCell.Result.TakeError` | src/shared/result.hpp:361-369 | takeError needs Error, hands out the held error and leaves the result Null |
| `ResultCell.Result.CopyAssign` | src/shared/result.hpp:179-215 | copy assignment gives this the state and payload of rhs and leaves a distinct rhs unchanged |
| `ResultCell.Result.MoveAssign` | src/shared/result.hpp:217-253 | move assignment gives a distinct target the state and payload rhs had; rhs keeps its tag, because the source never resets it, and holds what the move left of its payload |
| `ResultCell.MovedFrom` | src/shared/result.hpp:217-253 | a moved-from state keeps its tag: Null, Value and Error each stay what they were |
| `OptionCell.Option.constructor` | src/shared/option.hpp:46-50 | a default Option is empty |
| `OptionCell.Option.FromValue` | src/shared/option.hpp:52-64 | constructing from a value holds exactly that value |
| `OptionCell.Option.Copy` | src/shared/option.hpp:66-72 | copy construction has the same flag as other and, when set, the same value |
| `OptionCell.Option.Move` | src/shared/option.hpp:74-82 | move construction takes over other's flag and value and leaves other empty |
| `OptionCell.Option.GetValue` | src/shared/option.hpp:160-165 | getValue needs a value, returns it and changes nothing |
| `OptionCell.Option.Clear` | src/shared/option.hpp:90-97 | clear leaves the Option empty from either state, so clearing twice is clearing once |
| `OptionCell.Option.AssignValue` | src/shared/option.hpp:134-158 | assigning a value leaves the Option holding exactly that value |
| `OptionCell.Option.CopyAssign` | src/shared/option.hpp:99-113 | copy assignment takes rhs's flag and value (an empty rhs clears the target) and leaves a distinct rhs unchanged |
| `OptionCell.Option.MoveAssign` | src/shared/option.hpp:115-132 | move assignment takes rhs's flag and value and leaves rhs empty |
| `OptionCell.Option.TakeValue` | src/shared/option.hpp:167-175 | takeValue needs a value, hands it out and leaves the Option empty |
| `FlatMapModel.FirstIndex` | src/shared/flatmap.hpp:119-137 | the scan stops at the first entry with the key, or at the end when no entry has it |
| `FlatMapModel.FirstIndexIsOnlyIndex` | src/shared/flatmap.hpp:119-127 | with unique keys, the entry the scan finds is the only one with that key |
| `FlatMapModel.RemoveAtKeepsUnique` | src/shared/flatmap.hpp:142-153 | erasing one entry keeps the keys unique |
| `FlatMapModel.AppendAbsentKeepsUnique` | src/shared/flatmap.hpp:181-188 | inserting an absent key at the end keeps the keys unique |
| `FlatMapModel.FlatMap.constructor` | src/shared/flatmap.hpp:91 | a new map is empty |
| `FlatMapModel.FlatMap.Size` | src/shared/flatmap.hpp:99 | size is the number of entries, and zero exactly when there are none |
| `FlatMapModel.FlatMap.IsEmpty` | src/shared/flatmap.hpp:100 | isEmpty holds exactly when the size is zero |
| `FlatMapModel.FlatMap.Clear` | src/shared/flatmap.hpp:102 | clear leaves no entries |
| `FlatMapModel.FlatMap.Find` | src/shared/flatmap.hpp:129-137 | the loop returns the index of the first entry with the key, or the end |
| `FlatMapModel.FlatMap.Value` | src/shared/flatmap.hpp:167-172 | value(key) is the first stored value for the key, or a default-constructed value when absent |
| `FlatMapModel.FlatMap.ValueOr` | src/shared/flatmap.hpp:174-179 | value(key, d) is the first stored value for the key, or d when absent |
| `FlatMapModel.FlatMap.Remove` | src/shared/flatmap.hpp:142-153 | remove erases exactly the first entry with the key and returns 1, or returns 0 and changes nothing |
| `FlatMapModel.FlatMap.Take` | src/shared/flatmap.hpp:155-165 | take hands out and erases the first entry's value, or returns a default value with no change |
| `FlatMapModel.FlatMap.Slot` | src/shared/flatmap.hpp:181-188 | operator[] returns the slot of the key: an existing one untouched, or a default entry appended at the end |
| `FlatMapModel.FlatMap.Assign` | src/shared/flatmap.hpp:181-188 | writing through operator[] replaces the value in the key's first entry, every other entry keeping its key, value and position, or appends the key with the value when absent; keys stay unique |
| `LibraryTypes.AddItem` | src/shared/library_types.hpp:114-118 | add stores the value under the id and raises the counter above the id, never lowering it |
| `LibraryTypes.AddKeepsKeysBelowNext` | src/shared/library_types.hpp:114-118 | after add every key is still below the counter, and a valid id keeps the collection well numbered |
| `LibraryTypes.CreateIsFresh` | src/shared/library_types.hpp:132-137 | create hands out a valid id that was not in use, adds exactly that key and keeps the collection well numbered |
| `LibraryTypes.RemovedIdNotReissued` | src/shared/library_types.hpp:132-137 | after an id is removed, the next create never hands that id out again |
| `LibraryTypes.ItemCollection.constructor` | src/shared/library_types.hpp:111 | a new collection is empty with the counter at 1 |
| `LibraryTypes.ItemCollection.Add` | src/shared/library_types.hpp:114-118 | add inserts or overwrites and sets the counter to the larger of the counter and id + 1 |
| `LibraryTypes.ItemCollection.FindItem` | src/shared/library_types.hpp:120-130 | findItem yields the stored item exactly when the id is present, and nothing (a null pointer) otherwise |
| `LibraryTypes.ItemCollection.Update` | src/shared/library_types.hpp:120-124 | writing through the item findItem returned changes that item only |
| `LibraryTypes.ItemCollection.Create` | src/shared/library_types.hpp:132-137 | create stores a default item under the old counter, returns that id and bumps the counter |
| `LibraryTypes.ItemCollection.Remove` | src/shared/library_types.hpp:107-108 | the inherited QHash::remove drops the key and leaves the counter as it was |
| `LibraryTypes.ItemCollection.Ids` | src/shared/library_types.hpp:139-147 | ids lists every key exactly once |
| `TagForest.SetParentKeepsAcyclic` | src/shared/library.cpp:283-325 | re-parenting a tag under a parent whose ancestor chain avoids the tag (what the circularity loop checks) keeps every chain ending at the root |
| `TagForest.AddFreshKeepsAcyclic` | src/shared/library.cpp:243-257 | adding a fresh tag under the root or an existing tag keeps the forest acyclic and every parent a tag |
| `TagForest.RemoveLeafKeepsAcyclic` | src/shared/library.cpp:259-276 | removing a tag with no children keeps the forest acyclic and every parent a tag |
| `TagForest.NoSelfParent` | src/shared/library.cpp:283-287 | in an acyclic forest no tag is its own parent |
| `TagForest.WalkSnoc` | src/shared/library.cpp:294-302 | one more round of the ancestor loop is one more parent lookup |
| `LibraryModel.RemoveAll` | src/shared/library.cpp:73-81 | QVector::removeAll keeps exactly the elements other than x and never grows the list |
| `LibraryModel.FileEndingId` | src/shared/library.cpp:41-50 | getOrCreateFileEndingId returns an id that names the ending, leaves every other id as it was, and leaves the collection alone exactly when the ending is stored already |
| `LibraryModel.ChainMeets` | src/shared/library.cpp:294-302 | the ancestor walk from a tag meets that tag itself and its parent |
| `LibraryModel.Parents` | src/shared/library.cpp:283-325 | the parent map has one entry per tag holding that tag's parent |
| `LibraryModel.SongCase` | src/shared/library.cpp:63-136 | an accepted song change names an existing song (SongAdd: an existing album), reports a created id only for SongAdd and keeps revision and log; a removed song had no tags; every refusal carries a message |
| `LibraryModel.AlbumCase` | src/shared/library.cpp:137-193 | an accepted album change names an existing album (AlbumAdd: an existing artist); a removed album had neither songs nor tags |
| `LibraryModel.ArtistCase` | src/shared/library.cpp:194-242 | ArtistAdd and ArtistAddOrGet are always accepted with the artists' counter as id; any other accepted artist change names an existing artist, and a removed artist had neither albums nor tags |
| `LibraryModel.TagCase` | src/shared/library.cpp:243-326 | an accepted tag change names an existing tag (TagAdd: a tag or 0 as parent), a removed tag was unused, and a new parent differs from the old one and from the tag and is not below the tag |
| `LibraryModel.CommitCase` | src/shared/library.cpp:62-331 | exactly the Invalid and unknown changes are refused with "No such LibraryChangeRequest"; an accepted change keeps revision and log |
| `LibraryModel.Commit` | src/shared/library.cpp:52-341 | an Invalid change fails; a failed change leaves the library as it was; an accepted one is stamped with revision + 1, bumps the revision and is appended to the log |
| `LibraryCaseInvariants.AddSongKeepsInv` | src/shared/library.cpp:63-72 | adding a song to an existing album keeps the library consistent: the song and the album list each other |
| `LibraryCaseInvariants.RemoveSongKeepsInv` | src/shared/library.cpp:73-82 | removing an untagged song drops it from its album and keeps the library consistent |
| `LibraryCaseInvariants.RewriteSongKeepsInv` | src/shared/library.cpp:83-106 | rewriting a song's name, position, length or file ending keeps the library consistent |
| `LibraryCaseInvariants.FileEndingNumbered` | src/shared/library.cpp:41-50 | getOrCreateFileEndingId keeps the file-ending collection well numbered |
| `LibraryCaseInvariants.MoveSongKeepsInv` | src/shared/library.cpp:107-117 | moving a song to another existing album unlinks it from the old album, links it to the new one and keeps the library consistent |
| `LibraryCaseInvariants.TagSongKeepsInv` | src/shared/library.cpp:118-126 | tagging a song links song and tag both ways and keeps the library consistent |
| `LibraryCaseInvariants.UntagSongKeepsInv` | src/shared/library.cpp:127-136 | untagging a song unlinks song and tag both ways and keeps the library consistent |
| `LibraryCaseInvariants.SongAddCaseKeepsInv` | src/shared/library.cpp:63-72 | an accepted SongAdd keeps the library consistent |
| `LibraryCaseInvariants.SongRemoveCaseKeepsInv` | src/shared/library.cpp:73-82 | an accepted SongRemove keeps the library consistent |
| `LibraryCaseInvariants.SongSetFieldCaseKeepsInv` | src/shared/library.cpp:83-100 | an accepted SongSetName, SongSetPosition or SongSetLength keeps the library consistent |
| `LibraryCaseInvariants.SongSetFileEndingCaseKeepsInv` | src/shared/library.cpp:101-106 | an accepted SongSetFileEnding keeps the library consistent |
| `LibraryCaseInvariants.SongSetAlbumCaseKeepsInv` | src/shared/library.cpp:107-117 | an accepted SongSetAlbum keeps the library consistent |
| `LibraryCaseInvariants.SongAddTagCaseKeepsInv` | src/shared/library.cpp:118-126 | an accepted SongAddTag keeps the library consistent |
| `LibraryCaseInvariants.SongRemoveTagCaseKeepsInv` | src/shared/library.cpp:127-136 | an accepted SongRemoveTag keeps the library consistent |
| `LibraryCaseInvariants.SongCaseKeepsInv` | src/shared/library.cpp:63-136 | every accepted song change keeps the library consistent |
| `LibraryCaseInvariants.AddAlbumKeepsInv` | src/shared/library.cpp:137-146 | adding an album to an existing artist keeps the library consistent |
| `LibraryCaseInvariants.RemoveAlbumKeepsInv` | src/shared/library.cpp:147-157 | removing an empty, untagged album drops it from its artist and keeps the library consistent |
| `LibraryCaseInvariants.RewriteAlbumKeepsInv` | src/shared/library.cpp:158-163 | renaming an album keeps the library consistent |
| `LibraryCaseInvariants.MoveAlbumKeepsInv` | src/shared/library.cpp:164-174 | moving an album to another existing artist relinks it and keeps the library consistent |
| `LibraryCaseInvariants.TagAlbumKeepsInv` | src/shared/library.cpp:175-183 | tagging an album links album and tag both ways and keeps the library consistent |
| `LibraryCaseInvariants.UntagAlbumKeepsInv` | src/shared/library.cpp:184-193 | untagging an album unlinks album and tag both ways and keeps the library consistent |
| `LibraryCaseInvariants.AlbumAddCaseKeepsInv` | src/shared/library.cpp:137-146 | an accepted AlbumAdd keeps the library consistent |
| `LibraryCaseInvariants.AlbumRemoveCaseKeepsInv` | src/shared/library.cpp:147-157 | an accepted AlbumRemove keeps the library consistent |
| `LibraryCaseInvariants.AlbumSetNameCaseKeepsInv` | src/shared/library.cpp:158-163 | an accepted AlbumSetName keeps the library consistent |
| `LibraryCaseInvariants.AlbumSetArtistCaseKeepsInv` | src/shared/library.cpp:164-174 | an accepted AlbumSetArtist keeps the library consistent |
| `LibraryCaseInvariants.AlbumAddTagCaseKeepsInv` | src/shared/library.cpp:175-183 | an accepted AlbumAddTag keeps the library consistent |
| `LibraryCaseInvariants.AlbumRemoveTagCaseKeepsInv` | src/shared/library.cpp:184-193 | an accepted AlbumRemoveTag keeps the library consistent |
| `LibraryCaseInvariants.AlbumCaseKeepsInv` | src/shared/library.cpp:137-193 | every accepted album change keeps the library consistent |
| `LibraryCaseInvariants.AddArtistKeepsInv` | src/shared/library.cpp:194-210 | creating an artist keeps the library consistent |
| `LibraryCaseInvariants.RemoveArtistKeepsInv` | src/shared/library.cpp:211-218 | removing an artist without albums or tags keeps the library consistent |
| `LibraryCaseInvariants.RewriteArtistKeepsInv` | src/shared/library.cpp:219-223 | renaming an artist keeps the library consistent |
| `LibraryCaseInvariants.TagArtistKeepsInv` | src/shared/library.cpp:224-232 | tagging an artist links artist and tag both ways and keeps the library consistent |
| `LibraryCaseInvariants.UntagArtistKeepsInv` | src/shared/library.cpp:233-242 | untagging an artist unlinks artist and tag both ways and keeps the library consistent |
| `LibraryCaseInvariants.ArtistAddCaseCreates` | src/shared/library.cpp:194-210 | ArtistAdd and ArtistAddOrGet both create a new artist whatever the library holds |
| `LibraryCaseInvariants.ArtistAddCaseKeepsInv` | src/shared/library.cpp:194-210 | an accepted ArtistAdd or ArtistAddOrGet keeps the library consistent |
| `LibraryCaseInvariants.ArtistRemoveCaseKeepsInv` | src/shared/library.cpp:211-218 | an accepted ArtistRemove keeps the library consistent |
| `LibraryCaseInvariants.ArtistSetNameCaseKeepsInv` | src/shared/library.cpp:219-223 | an accepted ArtistSetName keeps the library consistent |
| `LibraryCaseInvariants.ArtistAddTagCaseKeepsInv` | src/shared/library.cpp:224-232 | an accepted ArtistAddTag keeps the library consistent |
| `LibraryCaseInvariants.ArtistRemoveTagCaseKeepsInv` | src/shared/library.cpp:233-242 | an accepted ArtistRemoveTag keeps the library consistent |
| `LibraryCaseInvariants.ArtistCaseKeepsInv` | src/shared/library.cpp:194-242 | every accepted artist change keeps the library consistent |
| `TagCaseInvariants.AddTagKeepsInv` | src/shared/library.cpp:243-258 | adding a tag under the root or an existing tag keeps the tag tree and the library consistent |
| `TagCaseInvariants.RemoveTagKeepsInv` | src/shared/library.cpp:259-277 | removing an unused, childless tag drops it from its parent or the root list and keeps the library consistent |
| `TagCaseInvariants.RenameTagKeepsInv` | src/shared/library.cpp:278-282 | renaming a tag keeps the library consistent |
| `TagCaseInvariants.ParentIsOtherTag` | src/shared/library.cpp:283-292 | in a consistent library a tag's current parent is the root or another existing tag, as the first Q_ASSERT expects, and 0 is never a tag id |
| `TagCaseInvariants.ReparentKeepsInv` | src/shared/library.cpp:283-326 | re-parenting a tag whose new ancestors do not include it moves it between child lists and keeps the forest acyclic and the library consistent |
| `TagCaseInvariants.TagAddCaseKeepsInv` | src/shared/library.cpp:243-258 | an accepted TagAdd keeps the library consistent |
| `TagCaseInvariants.TagRemoveCaseKeepsInv` | src/shared/library.cpp:259-277 | an accepted TagRemove keeps the library consistent |
| `TagCaseInvariants.TagSetNameCaseKeepsInv` | src/shared/library.cpp:278-282 | an accepted TagSetName keeps the library consistent |
| `TagCaseInvariants.TagSetParentCaseKeepsInv` | src/shared/library.cpp:283-326 | an accepted TagSetParent keeps the library consistent |
| `TagCaseInvariants.TagCaseKeepsInv` | src/shared/library.cpp:243-326 | every accepted tag change keeps the library consistent |
| `TagTreeInvariants.ChainAvoidsFromNotMeets` | src/shared/library.cpp:294-302 | when the circularity loop does not meet the tag, the new parent's ancestor chain avoids the tag |
| `CommitInvariants.CommitCaseKeepsInv` | src/shared/library.cpp:52-331 | every accepted change, whatever its type, keeps the library consistent |
| `CommitInvariants.CommitKeepsInv` | src/shared/library.cpp:52-341 | every commit, accepted or rejected, leaves a consistent library consistent |
| `CommitInvariants.CommitKeepsLog` | src/shared/library.cpp:335-338 | after a commit the change log is still numbered 1 up to the revision |
| `CommitInvariants.EmptyIsConsistent` | src/shared/library.cpp:18-20 | a new library is consistent and its log is empty |
| `SharedLibrary.Since` | src/shared/library.cpp:354-365 | committedChangesSince returns no more entries than the log holds, each at or after the given revision |
| `SharedLibrary.SinceMembers` | src/shared/library.cpp:354-365 | committedChangesSince keeps exactly the log entries whose revision is at least the given one |
| `SharedLibrary.SinceOfNumbered` | src/shared/library.cpp:354-365 | on a log numbered 1 up to the revision, the changes since r are the log's suffix from position r - 1 |
| `SharedLibrary.ReplayKeepsInv` | src/shared/library.cpp:343-352 | replaying a change list keeps the library consistent and its log numbered |
| `SharedLibrary.ReplayOnlyAppendsListed` | src/shared/library.cpp:343-352 | replaying only appends to the log, and each appended entry is a listed change under the revision the list gave it |
| `SharedLibrary.EndingExists` | src/shared/library.cpp:41-50 | getOrCreateFileEndingId always has an id to return |
| `SharedLibrary.SongCaseIgnoresEnding` | src/shared/library.cpp:63-136 | only SongSetFileEnding depends on the file-ending lookup |
| `SharedLibrary.InvTagShape` | src/shared/library.cpp:283-326 | in a consistent library 0 is no tag and the parent pointers have no cycle |
| `SharedLibrary.StoppedStays` | src/shared/library.cpp:343-352 | once the replay has stopped, the remaining changes leave the library as it is |
| `SharedLibrary.Library.constructor` | src/shared/library.cpp:18-20 | a new library is empty, at revision 0 with an empty log, and consistent |
| `SharedLibrary.Library.GetOrCreateFileEndingId` | src/shared/library.cpp:41-50 | the loop returns the id of a stored ending equal to the name, or creates one, as the value model's file-ending lookup says |
| `SharedLibrary.Library.ParentChainMeets` | src/shared/library.cpp:294-302 | the circularity loop reports a hit exactly when the new parent's ancestor chain meets the tag |
| `SharedLibrary.Library.CommitSongAdd` | src/shared/library.cpp:63-72 | SongAdd on the objects does what the value model's song case says, and changes nothing when it is rejected |
| `SharedLibrary.Library.CommitSongRemove` | src/shared/library.cpp:73-82 | SongRemove on the objects does what the value model's song case says |
| `SharedLibrary.Library.CommitSongSetField` | src/shared/library.cpp:83-100 | SongSetName, SongSetPosition and SongSetLength on the objects do what the value model says |
| `SharedLibrary.Library.CommitSongSetFileEnding` | src/shared/library.cpp:101-106 | SongSetFileEnding on the objects does what the value model says for the file-ending id it looked up |
| `SharedLibrary.Library.CommitSongSetAlbum` | src/shared/library.cpp:107-117 | SongSetAlbum on the objects moves the song between albums as the value model says |
| `SharedLibrary.Library.CommitSongTagging` | src/shared/library.cpp:118-136 | SongAddTag and SongRemoveTag change both ends of the link as the value model says |
| `SharedLibrary.Library.CommitAlbumAdd` | src/shared/library.cpp:137-146 | AlbumAdd on the objects does what the value model's album case says |
| `SharedLibrary.Library.CommitAlbumRemove` | src/shared/library.cpp:147-157 | AlbumRemove on the objects does what the value model says |
| `SharedLibrary.Library.CommitAlbumSetName` | src/shared/library.cpp:158-163 | AlbumSetName on the objects does what the value model says |
| `SharedLibrary.Library.CommitAlbumSetArtist` | src/shared/library.cpp:164-174 | AlbumSetArtist moves the album between artists as the value model says |
| `SharedLibrary.Library.CommitAlbumTagging` | src/shared/library.cpp:175-193 | AlbumAddTag and AlbumRemoveTag change both ends of the link as the value model says |
| `SharedLibrary.Library.CommitArtistAdd` | src/shared/library.cpp:194-210 | ArtistAdd and ArtistAddOrGet create an artist as the value model says |
| `SharedLibrary.Library.CommitArtistRemove` | src/shared/library.cpp:211-218 | ArtistRemove on the objects does what the value model says |
| `SharedLibrary.Library.CommitArtistSetName` | src/shared/library.cpp:219-223 | ArtistSetName on the objects does what the value model says |
| `SharedLibrary.Library.CommitArtistTagging` | src/shared/library.cpp:224-242 | ArtistAddTag and ArtistRemoveTag change both ends of the link as the value model says |
| `SharedLibrary.Library.CommitTagAdd` | src/shared/library.cpp:243-258 | TagAdd creates a tag under its parent or the root list as the value model says |
| `SharedLibrary.Library.CommitTagRemove` | src/shared/library.cpp:259-277 | TagRemove on the objects does what the value model says |
| `SharedLibrary.Library.CommitTagSetName` | src/shared/library.cpp:278-282 | TagSetName on the objects does what the value model says |
| `SharedLibrary.Library.CommitTagSetParent` | src/shared/library.cpp:283-326 | TagSetParent, with its circularity loop, does what the value model says |
| `SharedLibrary.Library.CommitCaseStep` | src/shared/library.cpp:52-331 | the switch over change types does what the value model's commit case says, and a rejection changes nothing |
| `SharedLibrary.Library.CommitStep` | src/shared/library.cpp:52-341 | commit on the objects equals the value model's commit: a rejection leaves the library, an acceptance is stamped and logged |
| `SharedLibrary.Library.Commit` | src/shared/library.cpp:52-341 | commit equals the value model's commit and keeps the library consistent |
| `SharedLibrary.Library.CommitAll` | src/shared/library.cpp:343-352 | commit(QVector) replays exactly the changes whose revision is the next one, in list order, and keeps the library consistent |
| `SharedLibrary.Library.CommitNext` | src/shared/library.cpp:345-350 | one round of the replay commits the change only when its revision is the next one |
| `SharedLibrary.Library.CommittedChangesSince` | src/shared/library.cpp:354-365 | the loop returns the log entries at or after the given revision, in log order |
| `DbItems.ItemCollection.constructor` | src/dbcommon/include/itemcollection.hpp:11 | a new collection is empty, its counter starts at 1, and it is well numbered |
| `DbItems.ItemCollection.Add` | src/dbcommon/include/itemcollection.hpp:14-18 | add inserts or overwrites and raises the counter to at least id + 1; a valid id keeps the collection well numbered |
| `DbItems.ItemCollection.Remove` | src/dbcommon/include/itemcollection.hpp:20-23 | remove drops only that key and keeps the counter, so the removed id is never created again |
| `DbItems.ItemCollection.Find` | src/dbcommon/include/itemcollection.hpp:25-35 | find yields nothing exactly when the id is absent, and the stored item otherwise |
| `DbItems.ItemCollection.Update` | src/dbcommon/include/itemcollection.hpp:25-29 | writing through the item find returned changes that item only |
| `DbItems.ItemCollection.Create` | src/dbcommon/include/itemcollection.hpp:37-42 | create stores a default item under the old counter and returns it: a valid id that was not in use |
| `DbLibrary.IsCreatingNewId` | src/dbcommon/src/library.cpp:18-47 | the four Add changes create ids, and each of them also carries a string argument |
| `DbLibrary.Shared` | src/dbcommon/src/library.cpp:96-106 | each older change type maps to the shared change type handled by the same part of the switch |
| `DbLibrary.NameReadOnlyWithStringArg` | src/dbcommon/src/library.cpp:31-47 | hasStringArg holds for the four Adds, SongSetFileEnding and the four SetName changes; for any change outside them, commit's result does not depend on the name field |
| `DbLibrary.SongCase` | src/dbcommon/src/library.cpp:107-181 | an accepted song change names an existing song (SongAdd: an existing album), reports a created id only for SongAdd and keeps revision and log; every refusal carries a message |
| `DbLibrary.RemoveAlbumAsWritten` | src/dbcommon/src/library.cpp:194-203 | AlbumRemove as written keeps the album, drops it from its artist's list and erases the song whose id is the album's |
| `DbLibrary.AlbumCase` | src/dbcommon/src/library.cpp:182-239 | an accepted album change names an existing album (AlbumAdd: an existing artist), and a removed album had no songs; every refusal carries a message |
| `DbLibrary.ArtistCase` | src/dbcommon/src/library.cpp:240-279 | ArtistAdd is always accepted with the artists' counter as id; any other accepted artist change names an existing artist, and a removed artist had no albums |
| `DbLibrary.TagCase` | src/dbcommon/src/library.cpp:280-355 | an accepted tag change names an existing tag (TagAdd: a tag or 0 as parent), a removed tag was unused, and a new parent differs from the old one and from the tag |
| `DbLibrary.Case` | src/dbcommon/src/library.cpp:106-360 | an Invalid or unknown change is refused; an accepted change keeps revision and log and reports a created id only for an Add |
| `DbLibrary.CommitChange` | src/dbcommon/src/library.cpp:96-370 | commit returns 0 exactly when it leaves everything as it was, and a created id exactly for an accepted Add; otherwise it returns the next revision and appends one log entry under it |
| `DbLibrary.CaseKeepsRevision` | src/dbcommon/src/library.cpp:106-360 | the change cases never touch the revision or the log |
| `DbLibrary.CommitRevision` | src/dbcommon/src/library.cpp:96-370 | commit returns 0 exactly when it changes nothing; otherwise it returns the next revision, logs the change under it (with the created id as its detail) and keeps the log numbered |
| `DbLibrary.CreatedIdIsFresh` | src/dbcommon/src/library.cpp:106-118 | the id an Add reports is its collection's counter, a valid id not yet in use |
| `DbLibrary.SongCaseAgrees` | src/dbcommon/src/library.cpp:106-181 | every song case except SongRemove does what the shared library's does |
| `DbLibrary.SongRemoveDiffers` | src/dbcommon/src/library.cpp:119-127 | SongRemove accepts what the shared one accepts, with the same result, and beyond that exactly the songs that still have tags |
| `DbLibrary.AlbumCaseAgrees` | src/dbcommon/src/library.cpp:182-239 | every album case except AlbumRemove does what the shared library's does |
| `DbLibrary.ArtistCaseAgrees` | src/dbcommon/src/library.cpp:240-279 | every artist case except ArtistRemove does what the shared library's does |
| `DbLibrary.ArtistRemoveDiffers` | src/dbcommon/src/library.cpp:249-255 | ArtistRemove accepts what the shared one accepts, with the same result, and beyond that exactly the artists that still have tags |
| `DbLibrary.TagCaseAgrees` | src/dbcommon/src/library.cpp:280-321 | every tag case except TagSetParent does what the shared library's does |
| `DbLibrary.TagSetParentDiffers` | src/dbcommon/src/library.cpp:322-355 | TagSetParent accepts what the shared one accepts, with the same result, and beyond that exactly the moves that close a cycle |
| `DbLibrary.ReplayKeepsLog` | src/dbcommon/src/library.cpp:372-380 | replaying a list keeps the log numbered 1 up to the revision |
| `DbLibrary.Since` | src/dbcommon/src/library.cpp:382-393 | committedChangesSince returns no more entries than the log holds, each at or after the given revision |
| `DbLibrary.SinceMembers` | src/dbcommon/src/library.cpp:382-393 | committedChangesSince keeps exactly the log entries whose revision is at least the given one |
| `DbLibrary.StoppedStays` | src/dbcommon/src/library.cpp:372-380 | once the replay has stopped, the remaining changes leave the library as it is |
| `DbLibrary.Library.constructor` | src/dbcommon/src/library.cpp:49-51 | a new library is empty, at revision 0, with an empty log |
| `DbLibrary.Library.FindFileEnding` | src/dbcommon/src/library.cpp:85-94 | the search loop returns a stored key whose value is the ending, or 0 when no value is |
| `DbLibrary.Library.Store` | src/dbcommon/src/library.cpp:106-360 | writing a case's result through sets every collection and the root list to it and keeps revision and log |
| `DbLibrary.Library.Commit` | src/dbcommon/src/library.cpp:96-370 | for a change that passes the source's Q_ASSERTs on a TagSetParent (`DbAsserts`), commit returns, and leaves behind, what the value model's commit says, and keeps the log numbered |
| `DbLibrary.Library.CommitAll` | src/dbcommon/src/library.cpp:372-380 | commit(QVector) commits, in list order, every change whose revision is above the current one |
| `DbLibrary.Library.CommitNext` | src/dbcommon/src/library.cpp:374-379 | one round of the replay commits the change only when its revision is above the current one, and stops at a TagSetParent that the source's Q_ASSERTs refuse |
| `DbLibrary.Library.CommittedChangesSince` | src/dbcommon/src/library.cpp:382-393 | the loop returns the log entries at or after the given revision, in log order |
| `DbFindings.TagListsMissingSong` | src/dbcommon/src/library.cpp:119-127 | a tag that lists a song which is gone breaks consistency |
| `DbFindings.TagListsMissingArtist` | src/dbcommon/src/library.cpp:249-255 | a tag that lists an artist which is gone breaks consistency |
| `DbFindings.ArtistMissesAlbum` | src/dbcommon/src/library.cpp:194-203 | an album its artist does not list breaks consistency |
| `DbFindings.TwoCycleNeverRoots` | src/dbcommon/src/library.cpp:322-355 | two tags that are each other's parent never reach the root |
| `DbFindings.SongRemoveKeepsTags` | src/dbcommon/src/library.cpp:119-127 | SongRemove of a song whose album exists succeeds, removes the song and leaves every tag untouched |
| `DbFindings.SongRemoveLeavesTag` | src/dbcommon/src/library.cpp:119-127 | removing a song that still has a tag succeeds and leaves an inconsistent library |
| `DbFindings.ArtistRemoveKeepsTags` | src/dbcommon/src/library.cpp:249-255 | ArtistRemove of an artist without albums succeeds, removes the artist and leaves every tag untouched |
| `DbFindings.ArtistRemoveLeavesTag` | src/dbcommon/src/library.cpp:249-255 | removing an artist that still has a tag succeeds and leaves an inconsistent library |
| `DbFindings.AlbumRemoveKeepsAlbum` | src/dbcommon/src/library.cpp:194-203 | AlbumRemove of an empty album succeeds, keeps the album, drops it from its artist's list and erases the song with the album's id |
| `DbFindings.AlbumRemoveBreaksLinks` | src/dbcommon/src/library.cpp:194-203 | removing an empty album leaves the album in place, unknown to its artist, erases a song instead, and leaves an inconsistent library |
| `DbFindings.ReparentUnderChild` | src/dbcommon/src/library.cpp:322-355 | moving a tag under its own child succeeds and leaves the two naming each other as parent |
| `DbFindings.TagSetParentMakesCycle` | src/dbcommon/src/library.cpp:322-355 | moving a tag under its own child makes the parent pointers cyclic |
| `DbFindings.ReplayRestampsGap` | src/dbcommon/src/library.cpp:372-380 | a new library given one change stamped revision 5 commits it and logs it under revision 1 |
| `DbFindings.ReplayGapSkipped` | src/shared/library.cpp:343-352 | the shared library's replay skips that change and leaves the library as it was |
| `JsonConv.Member` | src/shared/jsonconv.hpp:201-213 | reading a member yields Undefined when the value is no object or lacks the member |
| `JsonConv.TypeName` | src/shared/jsonconv.cpp:124-137 | jsonTypeName shows Double, and only Double, as "Number" |
| `JsonConv.TypeNamesDistinct` | src/shared/jsonconv.cpp:124-137 | distinct JSON types have distinct names, so a type error names both types unambiguously |
| `JsonConv.NatString` | src/shared/jsonconv.cpp:159 | QString::number of a non-negative number is a non-empty string of decimal digits |
| `JsonConv.IntString` | src/shared/jsonconv.cpp:159 | QString::number of an integer starts with a minus sign exactly when it is negative |
| `JsonConv.NatStringValue` | src/shared/jsonconv.cpp:159 | the digits of an element index read back as that index |
| `JsonConv.TypeErrorMessage` | src/shared/jsonconv.cpp:146-150 | a type error's message names the expected type first and the found type last |
| `JsonConv.MissingMemberMessage` | src/shared/jsonconv.cpp:154-155 | a missing member's message ends with the member's name |
| `JsonConv.ParseErrorMessage` | src/shared/jsonconv.cpp:144-145 | a parse error's message ends with the parser's own message |
| `JsonConv.NestedMessage` | src/shared/jsonconv.cpp:151-159 | member, element and custom errors start with their own label and end with the nested error's message |
| `JsonConv.ErrorCell.constructor` | src/shared/jsonconv.cpp:5-8 | a default EnjsonError holds NoError |
| `JsonConv.ErrorCell.Copy` | src/shared/jsonconv.cpp:10-20 | the copy and move constructors hold the other's error |
| `JsonConv.ErrorCell.IsOk` | src/shared/jsonconv.hpp:29 | isOk holds exactly for NoError |
| `JsonConv.ErrorCell.Clear` | src/shared/jsonconv.cpp:27-54 | clear returns to NoError from every kind |
| `JsonConv.ErrorCell.CopyAssign` | src/shared/jsonconv.cpp:56-87 | copy assignment takes a deep copy of a distinct rhs and leaves rhs as it was; assigning to itself clears first and so ends in NoError |
| `JsonConv.ErrorCell.MoveAssign` | src/shared/jsonconv.cpp:89-122 | move assignment takes rhs's error and leaves rhs cleared |
| `JsonConv.Expect` | src/shared/jsonconv.hpp:195-199 | DEJSON_EXPECT_TYPE passes exactly the values of the expected type and reports a type error naming both types otherwise |
| `JsonConv.DejsonInt` | src/shared/jsonconv.cpp:252-268 | dejson into a signed integer accepts exactly numbers and reports a Number type error otherwise |
| `JsonConv.DejsonU32` | src/shared/jsonconv.cpp:258-262 | dejson into quint32 accepts exactly numbers, yields a value below 2^32, and reports a Number type error otherwise |
| `JsonConv.DejsonString` | src/shared/jsonconv.cpp:282-286 | dejson into a string accepts exactly strings |
| `JsonConv.DejsonBool` | src/shared/jsonconv.cpp:288-292 | dejson into a bool accepts exactly booleans |
| `JsonConv.DejsonObject` | src/shared/jsonconv.cpp:294-298 | dejson into an object accepts exactly objects |
| `JsonConv.DejsonArray` | src/shared/jsonconv.cpp:300-304 | dejson into an array accepts exactly arrays |
| `JsonConv.EnjsonInt` | src/shared/jsonconv.cpp:306-314 | dejson reads an enjson'd signed integer back |
| `JsonConv.EnjsonU32` | src/shared/jsonconv.cpp:316-319 | a quint32 goes out through qint64 and reads back, as quint32 and as a signed integer |
| `JsonConv.EnjsonString` | src/shared/jsonconv.cpp:336-339 | dejson reads an enjson'd string back |
| `JsonConv.EnjsonBool` | src/shared/jsonconv.cpp:341-344 | dejson reads an enjson'd bool back |
| `JsonConv.JsonDeserialize` | src/shared/jsonconv.cpp:361-379 | a parse failure is a parse error, an empty document a type error, and an array or object document its top-level value |
| `JsonConv.JsonDeserializeObject` | src/shared/jsonconv.cpp:381-389 | only an object document is read as an object; an array document is a type error and earlier errors pass through |
| `JsonConv.JsonDeserializeArray` | src/shared/jsonconv.cpp:391-399 | only an array document is read as an array; an object document is a type error and earlier errors pass through |
| `JsonConv.ObjectOrArray` | src/shared/jsonconv.cpp:361-399 | no document reads both as an object and as an array, and an empty one reads as neither |
| `JsonTemplates.DejsonFromString` | src/shared/jsonconv.hpp:154-163 | dejsonFromString passes a parse or empty-document error on unchanged and otherwise decodes the top-level value |
| `JsonTemplates.Encoded` | src/shared/jsonconv.hpp:165-171 | the encoded elements are the values' encodings, same length and order |
| `JsonTemplates.EnjsonVector` | src/shared/jsonconv.hpp:165-171 | enjson of a vector is an array of the values' encodings in order |
| `JsonTemplates.DecodePrefix` | src/shared/jsonconv.hpp:215-235 | decoding the first n elements succeeds exactly when each of them decodes, and then holds their values in order; otherwise it reports the first failing element's index and error |
| `JsonTemplates.DecodeErrorSticks` | src/shared/jsonconv.hpp:223-230 | once an element has failed, decoding more elements keeps that error |
| `JsonTemplates.DejsonVector` | src/shared/jsonconv.hpp:215-235 | the decode loop returns a type error for a non-array, and otherwise what decoding every element in order gives |
| `JsonTemplates.VectorRoundTrip` | src/shared/jsonconv.hpp:165-235 | a vector encoded element by element decodes back to itself when each element does |
| `JsonTemplates.EnjsonPair` | src/shared/jsonconv.hpp:173-179 | enjson of a pair is an object with exactly the members "first" and "second" holding the halves |
| `JsonTemplates.DejsonPair` | src/shared/jsonconv.hpp:237-270 | dejson of a pair needs an object with "first" then "second", reports the first missing member or the first half's error before the second's, and otherwise yields both halves |
| `JsonTemplates.PairRoundTrip` | src/shared/jsonconv.hpp:173-270 | a pair encoded as an object decodes back to itself when each half does |
| `JsonTemplates.GetMember` | src/shared/jsonconv.hpp:201-213 | DEJSON_GET_MEMBER reports a missing member by name and otherwise passes on the member's own decoding result |
| `JsonTemplates.DecodeMembers` | src/shared/jsonconv.hpp:423-435 | reading the first n registered members succeeds exactly when each is present and its setter accepts it; otherwise the first failing member's error is reported |
| `JsonTemplates.MembersErrorSticks` | src/shared/jsonconv.hpp:423-435 | once a member has failed, reading further members keeps that error |
| `JsonTemplates.DejsonObject` | src/shared/jsonconv.hpp:409-438 | the member loop returns a type error for a non-object and otherwise the members' values in registration order |
| `JsonTemplates.EnjsonObject` | src/shared/jsonconv.hpp:440-450 | enjson of a reflected object inserts every registered member under its name |
| `JsonTemplates.InsertedValue` | src/shared/jsonconv.hpp:440-450 | with distinct member names each member keeps its own value in the written object |
| `JsonTemplates.ObjectRoundTrip` | src/shared/jsonconv.hpp:409-450 | a reflected object written by enjson reads back to the same member values when the names are distinct and every setter accepts its value |
| `DbJson.ParseJsonArray` | src/dbcommon/src/jsonconv.cpp:21-33 | parseJsonArray gives the top-level array, or an empty array for a failed, empty or non-array document |
| `DbJson.ParseJsonObject` | src/dbcommon/src/jsonconv.cpp:35-47 | parseJsonObject gives the top-level object, or an empty object otherwise |
| `DbJson.ParseAgreesWithShared` | src/dbcommon/src/jsonconv.cpp:21-47 | the older readers agree with the shared ones wherever those succeed and fall back to empty elsewhere |
| `DbJson.FromJsonInt` | src/dbcommon/src/jsonconv.cpp:56-75 | fromJson into a signed integer succeeds exactly for numbers, agrees with the shared dejson, and leaves the value untouched on failure |
| `DbJson.FromJsonU32` | src/dbcommon/src/jsonconv.cpp:63-68 | fromJson into quint32 succeeds exactly for numbers, yields a value below 2^32 and leaves the value untouched on failure |
| `DbJson.FromJsonString` | src/dbcommon/src/jsonconv.cpp:77-82 | fromJson into a string succeeds exactly for strings and leaves the value untouched on failure |
| `DbJson.FromJsonBool` | src/dbcommon/src/jsonconv.cpp:84-89 | fromJson into a bool succeeds exactly for booleans and leaves the value untouched on failure |
| `DbJson.ToJsonU32` | src/dbcommon/src/jsonconv.cpp:101-104 | toJson of a quint32 goes through qint64 and reads back exactly |
| `DbJson.ToJsonInt` | src/dbcommon/src/jsonconv.cpp:91-99 | toJson of a signed integer reads back exactly |
| `DbJson.ToJsonString` | src/dbcommon/src/jsonconv.cpp:111-114 | toJson of a string reads back exactly |
| `DbJson.ToJsonBool` | src/dbcommon/src/jsonconv.cpp:116-119 | toJson of a bool reads back exactly |
| `DbJson.ToJsonVector` | src/dbcommon/include/jsonconv.hpp:25-31 | toJson of a vector is an array of the values' encodings in order |
| `DbJson.ReadElements` | src/dbcommon/include/jsonconv.hpp:38-44 | with a decoder that writes the whole value, reading n elements succeeds exactly when each decodes, and then holds their values in order |
| `DbJson.FromJsonVector` | src/dbcommon/include/jsonconv.hpp:33-47 | fromJson of a vector is all or nothing: the values are untouched unless every element decoded |
| `DbJson.ReadStopsAtFailure` | src/dbcommon/include/jsonconv.hpp:40-44 | once an element has failed, reading further elements still fails |
| `DbJson.VectorRoundTrip` | src/dbcommon/include/jsonconv.hpp:25-47 | a vector written by toJson reads back to itself when each element does |
| `DbJson.StringDecoderOverwrites` | src/dbcommon/src/jsonconv.cpp:77-82 | the string decoder writes the whole value, so it is a decoder the vector reader's properties apply to |
| `CollectionJson.KeyJson` | src/shared/library_types.hpp:102-105 | an id is written through qint64, so every quint32 id reads back |
| `CollectionJson.EntriesJson` | src/shared/library_types.hpp:162-164 | the entries array holds one pair per key, in iteration order |
| `CollectionJson.EnjsonCollection` | src/shared/library_types.hpp:159-170 | enjson of a collection is an object with exactly "nextId" and "entries", the loop's array holding every entry's pair |
| `CollectionJson.Filled` | src/shared/library_types.hpp:179-181 | the hash the fill loop builds has exactly the ids that occur in the pairs |
| `CollectionJson.DejsonCollectionSpec` | src/shared/library_types.hpp:172-185 | dejson of a collection reads "nextId" first and then "entries", passes on the first missing member or decoding error, and takes the counter as written |
| `CollectionJson.DejsonCollection` | src/shared/library_types.hpp:172-185 | the member reads and the fill loop give what the value model of dejson says |
| `CollectionJson.FilledDistinct` | src/shared/library_types.hpp:179-181 | with distinct ids each id is stored with its own item |
| `CollectionJson.EntriesDecode` | src/shared/library_types.hpp:162-177 | the entries array decodes back to the pairs it was written from |
| `CollectionJson.CollectionRoundTrip` | src/shared/library_types.hpp:159-185 | a collection written by enjson reads back by dejson, whatever the hash order, when ids and counter fit in a quint32 and items round-trip |
| `CollectionJson.NextIdDecodes` | src/shared/library_types.hpp:167-176 | the counter written is the counter read |
| `CollectionJson.EntriesMemberDecodes` | src/shared/library_types.hpp:162-177 | the entries member written is the list of pairs read |
| `CollectionJson.FilledPairs` | src/shared/library_types.hpp:179-181 | filling the hash from the pairs of an enumeration of its keys gives back the hash |
| `CollectionJson.DejsonTrustsCounter` | src/shared/library_types.hpp:179-182 | dejson accepts a collection whose counter is not above its ids (id 5 with counter 1), so it does not check well-numberedness |
| `LibrarySerialize.Unsigned` | src/shared/library_serialize.cpp:73-79 | the int read from JSON, stored in a quint32 field, is always below 2^32 |
| `LibrarySerialize.Signed` | src/shared/library_serialize.cpp:81-84 | the (int) cast of a quint32 lies in the 32-bit signed range and converts back to the same quint32 |
| `LibrarySerialize.FromDigit` | src/shared/library_serialize.cpp:102-113 | succeeds exactly on 0-9, a-f and A-F, giving a value below 16, and leaves num untouched on any other character |
| `LibrarySerialize.FromDigitIgnoresCase` | src/shared/library_serialize.cpp:106-109 | an upper-case hex letter reads as the same value as its lower-case form |
| `LibrarySerialize.ToDigit` | src/shared/library_serialize.cpp:96-100 | a nibble becomes a lower-case hex digit that fromDigit reads back as that nibble |
| `LibrarySerialize.HexOf` | src/shared/library_serialize.cpp:115-123 | the text of an id has two digits per byte, the high nibble first |
| `LibrarySerialize.DecodeHex` | src/shared/library_serialize.cpp:125-137 | a valid hex string stands for LENGTH bytes, the i-th one made of the i-th pair of digits |
| `LibrarySerialize.HexRoundTrip` | src/shared/library_serialize.cpp:115-137 | the hex text of any id is accepted by fromString and reads back as the same bytes |
| `LibrarySerialize.HexSnoc` | src/shared/library_serialize.cpp:118-121 | one more byte appends its two digits to the text |
| `LibrarySerialize.LibraryId.constructor` | src/shared/library_serialize.cpp:88-94 | an id holds the LENGTH bytes it is made from (the random generator is a parameter) |
| `LibrarySerialize.LibraryId.ToString` | src/shared/library_serialize.cpp:115-123 | the loop's text is the hex text of the id's bytes |
| `LibrarySerialize.LibraryId.FromString` | src/shared/library_serialize.cpp:125-137 | a wrong length is refused with the bytes untouched; it succeeds exactly on valid hex, then holding the decoded bytes; a bad pair stops it with the earlier bytes already overwritten and the later ones untouched |
| `LibrarySerialize.LibraryId.Equals` | src/shared/library_serialize.cpp:139-146 | two ids are equal exactly when all their bytes are |
| `LibrarySerialize.RequireInt` | src/shared/library_serialize.cpp:7-14 | JSON_REQUIRE_INT passes exactly when the member exists and is a number |
| `LibrarySerialize.RequireString` | src/shared/library_serialize.cpp:7-10 | JSON_REQUIRE_STRING passes exactly when the member exists and is a string |
| `LibrarySerialize.ChangeToJson` | src/shared/library_serialize.cpp:20-28 | a change is written as an object with exactly "type", "subject", "detail" and "name" |
| `LibrarySerialize.ChangeFromJson` | src/shared/library_serialize.cpp:30-47 | succeeds exactly on an object with numeric "type", "subject" and "detail" and a string "name"; on failure the change is untouched |
| `LibrarySerialize.ChangeRoundTrip` | src/shared/library_serialize.cpp:20-47 | a change written by toJson is read back unchanged by fromJson |
| `LibrarySerialize.CommittedToJson` | src/shared/library_serialize.cpp:49-54 | a committed change is written as the change's four members plus "revision" |
| `LibrarySerialize.CommittedFromJson` | src/shared/library_serialize.cpp:56-71 | succeeds exactly when the change reads and "revision" is a number; on failure the committed change is untouched |
| `LibrarySerialize.CommittedRoundTrip` | src/shared/library_serialize.cpp:49-71 | a committed change written by toJson is read back unchanged by fromJson |
| `LibrarySerialize.TagIdFromJson` | src/shared/library_serialize.cpp:73-79 | a tag id reads exactly from a number, and is untouched otherwise |
| `LibrarySerialize.ReadTag` | src/shared/library_serialize.cpp:245-251 | a tag read from JSON starts with empty children, song, album and artist lists |
| `LibrarySerialize.ReadArtist` | src/shared/library_serialize.cpp:284-292 | an artist read from JSON starts with an empty album list |
| `LibrarySerialize.ReadAlbum` | src/shared/library_serialize.cpp:295-307 | an album read from JSON starts with an empty song list |
| `LibrarySerialize.ReadEntries` | src/shared/library_serialize.cpp:209-222 | the first n elements read exactly when each is an object with a numeric id that the reader accepts, and then give those entries in array order |
| `LibrarySerialize.Collect` | src/shared/library_serialize.cpp:207-224 | the collection add() builds holds exactly the ids read, each below nextId, and nextId is at least 1 |
| `LibrarySerialize.ReadJsonCollection` | src/shared/library_serialize.cpp:200-225 | all or nothing: on failure the output collection is untouched, on success it is the one rebuilt through add() from the entries, every key below nextId |
| `LibrarySerialize.CollectSnoc` | src/shared/library_serialize.cpp:222 | one more entry is one more add() |
| `LibrarySerialize.EntriesStopAtFailure` | src/shared/library_serialize.cpp:210-220 | once an element fails to read, no longer prefix reads |
| `LibrarySerialize.PrefixKeeps` | src/shared/library_serialize.cpp:256 | an id already in a list stays there when more ids are appended |
| `LibrarySerialize.GrowsTrans` | src/shared/library_serialize.cpp:253-263 | pushes compose: two rounds of appending are one |
| `LibrarySerialize.PushTagId` | src/shared/library_serialize.cpp:253-257 | the id is appended to the chosen list of the tag when the tag exists; tags are only ever appended to and no tag appears or vanishes |
| `LibrarySerialize.PushTagIds` | src/shared/library_serialize.cpp:259-263 | the id lands in the chosen list of each of the item's tags that exists, and nothing else changes but appends |
| `LibrarySerialize.FixUpTags` | src/shared/library_serialize.cpp:270-274 | the fix-up loop keeps the set of tags |
| `LibrarySerialize.FixUpTagsMeaning` | src/shared/library_serialize.cpp:270-274 | each tag's children gain exactly the tags whose parent it is, in hash order, and the roots are exactly the tags with parent 0 |
| `LibrarySerialize.ChildrenInMembers` | src/shared/library_serialize.cpp:270-274 | a key is appended to q's children exactly when it is an existing tag whose parent is q, and listed as a root exactly when its parent is 0 |
| `LibrarySerialize.FixUpPlacesTags` | src/shared/library_serialize.cpp:270-274 | every tag sits in its existing parent's children, among the roots exactly when its parent is 0, and in no other tag's children |
| `LibrarySerialize.LinkTags` | src/shared/library_serialize.cpp:284-328 | after a reader's pushes every item id is in the chosen list of each of its existing tags, and tags only grow |
| `LibrarySerialize.ArtistTagRefs` | src/shared/library_serialize.cpp:289-290 | each artist read contributes its id and its tag ids |
| `LibrarySerialize.AlbumTagRefs` | src/shared/library_serialize.cpp:302-303 | each album read contributes its id and its tag ids |
| `LibrarySerialize.SongTagRefs` | src/shared/library_serialize.cpp:323-324 | each song read contributes its id and its tag ids |
| `LibrarySerialize.LinkAlbumsToArtists` | src/shared/library_serialize.cpp:304-305 | every album read is in the album list of its artist when that artist exists; artists otherwise keep their name and tags and only gain albums |
| `LibrarySerialize.LinkSongsToAlbums` | src/shared/library_serialize.cpp:325-326 | every song read is in the song list of its album when that album exists; albums otherwise keep their fields and only gain songs |
| `LibrarySerialize.ReadLog` | src/shared/library_serialize.cpp:334-343 | the log reads exactly when every entry is a committed change, and then holds those changes in order |
| `LibrarySerialize.LogStopsAtFailure` | src/shared/library_serialize.cpp:337-341 | once an entry fails to read, the whole log fails |
| `LibrarySerialize.LinkedTags` | src/shared/library_serialize.cpp:284-328 | the artist, album and song readers' pushes keep the set of tags and only append to their lists |
| `LibrarySerialize.ReadLogEntries` | src/shared/library_serialize.cpp:334-343 | the log loop succeeds exactly when the log reads, and then returns the read changes |
| `LibrarySerialize.ReadLibrary` | src/shared/library_serialize.cpp:237-346 | the reads after the id give the assembled library exactly when every collection and the log read |
| `LibrarySerialize.AssembledTagTree` | src/shared/library_serialize.cpp:245-274 | in a loaded library each tag keeps the parent it was read with, sits in that parent's children when the parent was read, and is a root exactly when its parent is 0 |
| `LibrarySerialize.LinkedArtistTags` | src/shared/library_serialize.cpp:284-292 | after all pushes every artist read is in the artist list of each of its existing tags |
| `LibrarySerialize.LinkedAlbumTags` | src/shared/library_serialize.cpp:295-307 | after all pushes every album read is in the album list of each of its existing tags |
| `LibrarySerialize.LinkedSongTags` | src/shared/library_serialize.cpp:310-328 | after all pushes every song read is in the song list of each of its existing tags |
| `LibrarySerialize.AssembledOwnerLists` | src/shared/library_serialize.cpp:295-328 | in a loaded library every album read is listed by its artist when that artist was read, and every song by its album when that album was |
| `LibrarySerialize.Library.constructor` | src/shared/library_serialize.cpp:88-94 | a new library is empty at revision 0, with collections whose counters start at 1, and holds the generated id |
| `LibrarySerialize.Library.DeserializeFromJson` | src/shared/library_serialize.cpp:227-365 | succeeds exactly when revision, id, collections and log all read; then every field holds the loaded library, otherwise no field but the id changes; the id is rewritten as soon as revision and id read and the id is valid hex |
| `LibrarySerialize.Library.Assign` | src/shared/library_serialize.cpp:348-355 | the final assignments set every library field to the loaded values at once |
| `LibraryMessages.AllTypesListed` | src/shared/library_messages.hpp:8-43 | every message type is one of the nineteen enumerators |
| `LibraryMessages.CheckedTypesListed` | src/shared/library.cpp:589-611 | fromJson tries every type except MediaUrlRequest and MediaUrlResponse |
| `LibraryMessages.TypeString` | src/shared/library.cpp:532-555 | each type is named by its enumerator's own (non-empty) name, the media URL pair included |
| `LibraryMessages.TypeStringAsWritten` | src/shared/library.cpp:532-555 | as written the switch names every type except the media URL pair, which reaches qFatal, and otherwise agrees with TypeString |
| `LibraryMessages.ParseTypeString` | src/shared/library.cpp:582 | the name of a type denotes that type |
| `LibraryMessages.ParseTypeSound` | src/shared/library.cpp:582 | a name that denotes a type is that type's name |
| `LibraryMessages.TypeStringInjective` | src/shared/library.cpp:532-555 | no two types share a name |
| `LibraryMessages.Route` | src/shared/library.cpp:581-613 | the chain of CHECK_MESSAGE_TYPE tests picks a listed type with the given name, or finds none exactly when no listed type has it |
| `LibraryMessages.RouteFinds` | src/shared/library.cpp:581-611 | a listed type is always found by its name |
| `LibraryMessages.RouteIsParse` | src/shared/library.cpp:581-613 | routing finds the type a name denotes exactly when that type is listed |
| `LibraryMessages.RouteMisses` | src/shared/library.cpp:581-613 | a type that is not listed is never found by its name |
| `LibraryMessages.FromObjectWith` | src/shared/library.cpp:563-613 | a missing "id" or "data" is a missing-member error, a non-string id or non-object data a type error, and a message is read only for the type routed by its id, with its members decoded from data |
| `LibraryMessages.FromJson` | src/shared/library.cpp:557-561 | a document that is not an object fails with the parser's error |
| `LibraryMessages.FromJsonAsWritten` | src/shared/library.cpp:557-614 | as written, a document that is not an object fails with the parser's error, and a message it reads is read the same by routing on every type's name and is never of the media URL pair |
| `LibraryMessages.AsWrittenReadsLess` | src/shared/library.cpp:580-613 | whatever the written routing reads, routing on every type's name reads the same, and its type is one typeString names |
| `LibraryMessages.FromJsonMediaUrlRequest` | src/shared/library.cpp:580-613 | the document {"id":"MediaUrlRequest","data":{}} is refused with "No such message ID" as written and read as intended |
| `LibraryMessages.FromObjectNamesType` | src/shared/library.cpp:582-586 | a message read from JSON has the type its "id" names |
| `LibraryMessages.FromObjectUnknownId` | src/shared/library.cpp:613 | an id that names no type is a custom "No such message ID" error carrying the id |
| `LibraryMessages.ToObject` | src/shared/library.cpp:519-525 | messageToJson writes exactly "id", the type's name, and "data", an object |
| `LibraryMessages.MessageRoundTrip` | src/shared/library.cpp:519-613 | a message written by messageToJson is read back unchanged by fromJson when its member names are distinct and each member accepts its own value |
| `LibraryMessages.AsWrittenAgrees` | src/shared/library.cpp:589-613 | outside the media URL pair the written routing reads exactly what routing by name reads |
| `LibraryMessages.RoutesAgree` | src/shared/library.cpp:589-611 | outside the media URL pair both type lists route a name to the same type |
| `LibraryMessages.MediaUrlRequestRefused` | src/shared/library.cpp:532-613 | as written a MediaUrlRequest is refused as an unknown id, and naming its type aborts |
| `LibraryMessages.MediaUrlRequestRead` | src/shared/library_messages.hpp:98-101 | routed by name, a MediaUrlRequest with empty data is read |
| `LibraryMessages.FromJsonAs` | src/shared/library_messages.hpp:234-254 | fromJson's error is passed on, a message of another type is a "Wrong message type" error naming it, and it succeeds exactly with a message of the requested type |
| `LibraryMessages.Message.Empty` | src/shared/library_messages.hpp:195 | a default message holds nothing |
| `LibraryMessages.Message.constructor` | src/shared/library_messages.hpp:196 | a message built from a concrete message holds it |
| `LibraryMessages.Message.GetType` | src/shared/library_messages.hpp:207 | the held message's type, Error when there is none |
| `LibraryMessages.Message.GetTypeString` | src/shared/library_messages.hpp:208 | the held message's type name, "null" when there is none |
| `LibraryMessages.Message.As` | src/shared/library_messages.hpp:210-217 | the held message exactly when its type is the requested one; the message held must exist |
| `LibraryMessages.Message.MoveAssign` | src/shared/library_messages.hpp:199 | the target takes over rhs's message and rhs is left null; a self-move keeps the message |
| `LibraryMessages.FromJsonAsMatchesAs` | src/shared/library_messages.hpp:239-250 | fromJsonAs accepts exactly the messages that as<T> accepts |
| `ServerSettings.AsString` | src/shared/serversettings.cpp:34 | a created key's empty variant reads as the empty string, text as itself |
| `ServerSettings.AsPort` | src/shared/serversettings.cpp:34 | a stored value reads as a 16-bit port, the empty variant as 0 |
| `ServerSettings.LevelName` | src/shared/serversettings.cpp:9-20 | each level has a non-empty name the converter accepts |
| `ServerSettings.ConvertLogLevel` | src/shared/serversettings.cpp:9-24 | every text converts to a known level, and text that keeps validity is never converted by the fallback other than to Fatal |
| `ServerSettings.ConvertLevelName` | src/shared/serversettings.cpp:9-20 | every level's name converts back to that level and keeps validity |
| `ServerSettings.ConvertKeepsValidOnlyForNames` | src/shared/serversettings.cpp:9-24 | validity survives exactly the five names info, debug, warning, critical and fatal, each converting to the level it names |
| `ServerSettings.ValidHasAllKeys` | src/shared/serversettings.cpp:29-33 | a valid store already holds every key the servers read |
| `ServerSettings.SettingsStore.constructor` | src/shared/serversettings.cpp:47-49 | the store holds the given contents |
| `ServerSettings.Fetch` | src/shared/serversettings.cpp:29-34 | a missing key is created with the empty variant and clears validity; no key changes how it reads; the stored value is returned |
| `ServerSettings.GetOrCreateString` | src/shared/serversettings.cpp:26-41 | the text of the key; an absent or empty key clears validity and nothing else does |
| `ServerSettings.GetOrCreatePort` | src/shared/serversettings.cpp:26-41 | the key read as a port; an absent key or port 0 clears validity and nothing else does |
| `ServerSettings.GetOrCreateLevel` | src/shared/serversettings.cpp:9-41 | the key read as a log level; an absent, empty or unknown name clears validity and nothing else does |
| `ServerSettings.ServerSettings.constructor` | src/shared/serversettings.cpp:43-78 | the settings are valid exactly when every key was present and usable as its kind; created keys read as before; each of the seventeen fields is its key's value read as text, port or log level |
| `Logger.MsgTypeStr` | src/shared/logger.cpp:11-21 | every tag is five characters in brackets, "[xxx]" exactly for a type outside the enumeration |
| `Logger.MsgTypeStrInjective` | src/shared/logger.cpp:11-21 | distinct types have distinct tags |
| `Logger.PrintMessageIsRank` | src/shared/logger.cpp:23-33 | for known types a filter lets through exactly the messages at least as severe as itself, in the order Info, Debug, Warning, Critical, Fatal |
| `Logger.PrintMessageReflexive` | src/shared/logger.cpp:23-33 | a filter always lets its own type through |
| `Logger.PrintMessageUnknown` | src/shared/logger.cpp:23-33 | an unknown filter lets nothing through; an unknown type passes the Info, Debug and Warning filters and no other |
| `Logger.Logger.constructor` | src/shared/logger.cpp:8-9 | the default filters are Warning for stderr and Debug for the log file |
| `Logger.Logger.SetStderrFilter` | src/shared/logger.cpp:83-86 | only the stderr filter changes |
| `Logger.Logger.SetLogFileFilter` | src/shared/logger.cpp:88-91 | only the log file filter changes |
| `Logger.Logger.MessageHandler` | src/shared/logger.cpp:35-61 | a line goes to exactly the destinations whose filter accepts the type, and is the tag, the timestamp text and the message |
| `Logger.DefaultDestinations` | src/shared/logger.cpp:8-9 | with the default filters Info goes nowhere, Debug only to the log file, and Warning and above to both |
| `Audio.StatusFlags` | src/app/src/audio.cpp:23-36 | a status is never playing and paused at once, loading only while playing or paused, and neither exactly for Stopped and Error |
| `Audio.ComputeStatus` | src/app/src/audio.cpp:97-124 | a player error gives Error, the status is loading exactly when the media is stalled, and Paused only comes from the paused state |
| `Audio.ComputeStatusPlaying` | src/app/src/audio.cpp:104-120 | the status is playing exactly when the player plays media it is loading, buffering or stalled on; stalled media outside the playing state counts as paused and loading |
| `Audio.ComputeStatusMedia` | src/app/src/audio.cpp:107-123 | no, finished or merely loaded media is Stopped; unknown, invalid or unlisted media is Error |
| `Audio.Audio.constructor` | src/app/src/audio.hpp:63 | a new player front-end is Stopped on the given playlist |
| `Audio.Audio.HasSong` | src/app/src/audio.cpp:38-41 | true exactly when the playlist has a current song |
| `Audio.Audio.UpdateStatus` | src/app/src/audio.cpp:126-138 | the status becomes the computed one, signalled exactly when it changes; at the end of the media the playlist advances by one, otherwise its position stays; its entries never change |
| `Audio.Audio.OnCurrentSongChanged` | src/app/src/audio.cpp:81-95 | with no current song the player is stopped, otherwise handed that song's URL; the status ends as computed from the player afterwards, signalled when it differs from the intermediate Stopped or Playing |
| `MultiChoice.LastSelected` | src/app/src/multichoicecontroller.cpp:43-47 | the highest index whose flag is set, -1 when none is |
| `MultiChoice.LastSelectedSnoc` | src/app/src/multichoicecontroller.cpp:44-47 | one more flag wins when set, and otherwise the earlier answer stands |
| `MultiChoice.SelectOnly` | src/app/src/multichoicecontroller.cpp:16-17 | setting one flag among the cleared ones that show leaves selects exactly that option |
| `MultiChoice.MultiChoiceController.constructor` | src/app/src/multichoicecontroller.hpp:47 | a new popup is hidden with no options and no selected index (-1, the value show gives it) |
| `MultiChoice.MultiChoiceController.Show` | src/app/src/multichoicecontroller.cpp:3-20 | the popup becomes visible with the given options, none selected, and reports index -1 |
| `MultiChoice.MultiChoiceController.Hide` | src/app/src/multichoicecontroller.cpp:29-34 | the popup is hidden and its options dropped; flags and index stay |
| `MultiChoice.MultiChoiceController.SetSelected` | src/app/src/multichoicecontroller.cpp:36-53 | an index out of range changes nothing; otherwise that flag is set as asked and the reported index becomes the last selected option, signalled exactly when it moves |
| `AndroidUtil.EventFilter` | src/app/src/util/androidutil.cpp:7-16 | exactly a close event is swallowed, and exactly then the back button is reported |
| `AndroidUtil.LastN` | src/app/src/util/androidutil.cpp:58-59 | the last n elements in order, or all of them when there are no more |
| `AndroidUtil.LastNAppend` | src/app/src/util/androidutil.cpp:54-61 | trimming after every add leaves the same lines as trimming once: the log holds the last lineCount lines ever added |
| `AndroidUtil.Logger.constructor` | src/app/src/util/androidutil.hpp:60 | a new log is empty with a limit of 256 lines |
| `AndroidUtil.Logger.SetLineCount` | src/app/src/util/androidutil.cpp:43-52 | the limit changes and is signalled exactly when it differs; lines are not trimmed |
| `AndroidUtil.Logger.Add` | src/app/src/util/androidutil.cpp:54-61 | the lines become the last lineCount of the old lines plus the new one, which is the newest when the limit is positive |
| `AndroidUtil.Logger.RowCount` | src/app/src/util/androidutil.cpp:63-67 | the smaller of the number of lines and the limit |
| `AndroidUtil.Logger.Data` | src/app/src/util/androidutil.cpp:69-85 | a row in range under the text role is a line, row 0 the newest; anything else is the empty variant |
| `Controller.FormatTimeString` | src/app/src/controller.cpp:178-181 | for a non-negative time the string is the whole minutes, a colon, and the whole seconds left over in two digits |
| `Controller.FormatTimeMatchesDuration` | src/app/src/controller.cpp:178-181 | for a whole number of seconds plus under a second of milliseconds, the time string is the minutes and seconds of those seconds |
| `Controller.FormatTimeSecondsInRange` | src/app/src/controller.cpp:178-181 | the seconds part of a non-negative time is below 60 |
| `Controller.Download` | src/app/src/controller.cpp:148-176 | a request is made exactly for a Bandcamp album, under its artist and title, or a YouTube video, under its title with no artist |
| `Controller.DownloadKind` | src/app/src/controller.cpp:152-169 | the request type is BandcampAlbum exactly when the result is a Bandcamp album |
| `Controller.Controller.constructor` | src/app/src/controller.cpp:14-27 | the controller works on the given playlist |
| `Controller.Controller.QueueBandcampTrack` | src/app/src/controller.cpp:200-207 | one new Bandcamp entry with the track's URL, album artist, title, length and icon is appended or prepended, its icon requested, and the position untouched |
| `Controller.Controller.QueueBandcampAlbum` | src/app/src/controller.cpp:183-198 | something is queued exactly when the album has tracks; appending or prepending, the album's entries keep its track order, and every track's icon is requested |
| `Controller.Controller.AppendTracks` | src/app/src/controller.cpp:187-189 | front to back, one entry per track at the end, in track order |
| `Controller.Controller.PrependTracks` | src/app/src/controller.cpp:190-193 | back to front, one entry per track at the front, so the tracks stay in order |
| `Controller.Controller.AddSearchResultToPlaylist` | src/app/src/controller.cpp:73-121 | no result or an artist is ignored; an album without tracks or a video without audio URL starts a query; only a queued result changes the playlist: its entries (the album's tracks in order, the track, or the video's audio) go at the end or the front, and their icons are requested |
| `Controller.Controller.AddLibraryItemToPlaylist` | src/app/src/controller.cpp:123-146 | one library entry per song of the item, an artist's albums in order; appended in order, or prepended one by one so that they end up reversed |
| `Playlist.Entry.constructor` | src/app/src/playlist.cpp:7-17 | an entry holds what it was made from and starts unselected |
| `Playlist.Entry.DurationString` | src/app/src/playlist.cpp:23-26 | the text of the whole minutes and the remaining seconds of the duration, with C division |
| `Playlist.Entry.SetSelected` | src/app/src/playlist.cpp:37-44 | the flag becomes the given one, signalled exactly when it changes |
| `Playlist.Advanced` | src/app/src/playlist.cpp:85-90 | on a non-empty list the index moves by delta when it stays in range, past the end goes to 0 and before 0 to the last entry, so it is always in range |
| `Playlist.IconRequested` | src/app/src/playlist.cpp:95-104 | an unknown URL is registered with an empty icon; known icons are kept |
| `Playlist.IconRequestIdempotent` | src/app/src/playlist.cpp:97-99 | requesting an icon twice is requesting it once |
| `Playlist.Purged` | src/app/src/playlist.cpp:106-120 | as intended, exactly the icons whose URL some entry shows are kept, unchanged |
| `Playlist.PurgedAsWritten` | src/app/src/playlist.cpp:106-120 | as written, an icon is kept exactly when some entry's icon URL equals its stored data, and kept icons keep their data |
| `Playlist.PurgeDropsUsedIcon` | src/app/src/playlist.cpp:106-120 | the written purge compares entry URLs with stored icon data, so a requested icon still holding its placeholder is dropped although an entry shows it, while the intended purge keeps it |
| `Playlist.Playlist.constructor` | src/app/src/playlist.cpp:46-50 | a new playlist is empty at index 0 with no icons and the single "entry" role |
| `Playlist.Playlist.CurrentSong` | src/app/src/playlist.cpp:63-66 | the entry at the current index, or none when the index is out of range |
| `Playlist.Playlist.Advance` | src/app/src/playlist.cpp:80-93 | nothing on an empty list or a zero step; otherwise the index moves with wrap-around to a current song and the change is signalled; entries and icons stay |
| `Playlist.Playlist.Next` | src/app/src/playlist.cpp:122-125 | on a non-empty list the index moves one forward with wrap-around |
| `Playlist.Playlist.Previous` | src/app/src/playlist.cpp:127-130 | on a non-empty list the index moves one back with wrap-around |
| `Playlist.Playlist.RequestIcon` | src/app/src/playlist.cpp:95-104 | the icon table becomes the one with the URL requested, nothing else changes |
| `Playlist.Playlist.OnSelectedChanged` | src/app/src/playlist.cpp:68-78 | hasSelectedSongs holds exactly when some entry is selected, signalled exactly when it flips |
| `Playlist.Playlist.RemoveAsWritten` | src/app/src/playlist.cpp:132-149 | as written only the current entry leaves the list, an entry before it moves the index back although it stays listed, and the written purge runs |
| `Playlist.Playlist.Remove` | src/app/src/playlist.cpp:132-149 | as intended the entry leaves the list wherever it is, the index follows the entries after it, the change of current song is signalled exactly when it was current, and unused icons are purged; an unknown entry changes nothing |
| `Playlist.Playlist.Append` | src/app/src/playlist.cpp:151-155 | one new unselected entry at the end, its icon requested, the index untouched |
| `Playlist.Playlist.Prepend` | src/app/src/playlist.cpp:157-161 | one new unselected entry at the front, its icon requested, the index untouched |
| `Playlist.Playlist.PrependAsWritten` | src/app/src/playlist.cpp:157-161 | as written, the new entry goes at the front of a non-empty playlist, and an empty playlist lists it twice |
| `Playlist.Playlist.CreateEntry` | src/app/src/playlist.cpp:163-170 | a fresh entry holding the given fields, its icon requested |
| `Playlist.AdvanceWraps` | src/app/src/playlist.cpp:86-90 | next from the last entry is the first, previous from the first is the last |
| `Playlist.NextThenPrevious` | src/app/src/playlist.cpp:122-130 | inside the list a step forward and a step back return to the same entry, except from the last entry, which wraps to the first and back to the last |
| `StringModel.KeywordsAreKeywords` | src/app/src/stringmodel.cpp:5-13 | every keyword of a text is a non-empty lower-case word without spaces |
| `StringModel.KeywordsOfWord` | src/app/src/stringmodel.cpp:5-13 | a single word is its own one keyword, lower-cased, and the empty text has none |
| `StringModel.KeywordsOfSentence` | src/app/src/stringmodel.cpp:5-13 | the keywords of a word, a space and the rest are the word's followed by the rest's, so repeated spaces add nothing |
| `StringModel.SplitIntoKeywords` | src/app/src/stringmodel.cpp:5-13 | the loop returns the keywords of the text |
| `StringModel.MatchesKeywords` | src/app/src/stringmodel.cpp:15-31 | an entry matches exactly when every query keyword is contained in some keyword of the entry |
| `StringModel.MatchesEmptyQuery` | src/app/src/stringmodel.cpp:15-31 | the empty query matches every entry |
| `StringModel.MatchesConcat` | src/app/src/stringmodel.cpp:17-28 | a query matches exactly when each of its parts does |
| `StringModel.MatchesOwnKeyword` | src/app/src/stringmodel.cpp:19-21 | an entry is found by any one of its own keywords |
| `StringModel.FilteredMembers` | src/app/src/stringmodel.cpp:113-118 | an entry is a row exactly when it is an entry and matches the query, and the rows are no more than the entries |
| `StringModel.FilteredEmptyQuery` | src/app/src/stringmodel.cpp:109-111 | the shortcut for a query without keywords agrees with the filter loop: every entry stays |
| `StringModel.EntryComparisonNotStrict` | src/app/src/stringmodel.cpp:88-98 | the comparison as written says an entry sorts before itself, which the sort does not allow |
| `StringModel.AsWrittenIsLessOrEqual` | src/app/src/stringmodel.cpp:88-98 | the comparison as written is the intended lexicographic order with equality added |
| `StringModel.KeywordsLessAsymmetric` | src/app/src/stringmodel.cpp:88-98 | the intended comparison never holds both ways, nor from a list to itself |
| `StringModel.KeywordsLessTotal` | src/app/src/stringmodel.cpp:88-98 | any two different keyword lists are ordered one way or the other |
| `StringModel.KeywordsLessTransitive` | src/app/src/stringmodel.cpp:88-98 | the intended comparison is transitive |
| `StringModel.SortEntriesSorted` | src/app/src/stringmodel.cpp:85-98 | the sorted entries are a permutation of the entries, each no earlier in keyword order than the one before |
| `StringModel.LastWithText` | src/app/src/stringmodel.cpp:160-165 | the highest row whose text is exactly the given one, -1 when there is none |
| `StringModel.FindText` | src/app/src/stringmodel.cpp:160-165 | the search loop finds the last row with exactly that text |
| `StringModel.Bound` | src/app/src/stringmodel.cpp:150 | qBound keeps the value inside the bounds, the lower winning when they cross |
| `StringModel.StringModel.constructor` | src/app/src/stringmodel.hpp:54-61 | a new model is clean and empty, nothing typed, with the selection at 0 |
| `StringModel.StringModel.RowCount` | src/app/src/stringmodel.cpp:33-37 | the rows are the filtered entries |
| `StringModel.StringModel.Data` | src/app/src/stringmodel.cpp:39-54 | a row in range gives its text, its id or whether it is the selection under the three roles, and nothing otherwise |
| `StringModel.StringModel.RoleNames` | src/app/src/stringmodel.cpp:56-63 | the base roles with "text", "id" and "selected" added |
| `StringModel.StringModel.Add` | src/app/src/stringmodel.cpp:65-70 | an entry with the keywords of its text is queued and the model marked dirty; the rows stay until editing ends |
| `StringModel.StringModel.Clear` | src/app/src/stringmodel.cpp:72-77 | no entries are queued and the model is marked dirty |
| `StringModel.StringModel.UpdateFilter` | src/app/src/stringmodel.cpp:103-122 | the rows become the entries that match the keywords typed |
| `StringModel.StringModel.EndEditing` | src/app/src/stringmodel.cpp:79-101 | nothing unless dirty; then the queued entries are installed in keyword order, the selection dropped and the rows filtered again |
| `StringModel.StringModel.SelectedId` | src/app/src/stringmodel.cpp:134-139 | the selected row's id, -1 when the selection is not a row |
| `StringModel.StringModel.EnteredString` | src/app/src/stringmodel.cpp:141-146 | the selected row's text, or the typed text when the selection is not a row |
| `StringModel.StringModel.DoSelect` | src/app/src/stringmodel.cpp:124-132 | the selection moves, and only a move signals the selected id |
| `StringModel.StringModel.Select` | src/app/src/stringmodel.cpp:148-151 | the selection is bounded by the number of entries before filtering, 0 when there are none |
| `StringModel.StringModel.Entered` | src/app/src/stringmodel.cpp:153-168 | the typed text filters the rows and selects the last row with exactly that text, or none; the entered string is then the typed text |
| `SelectTagsModel.RootOf` | src/app/src/selecttagsmodel.cpp:30-35 | climbing parents from a tag ends at a known tag without a parent, the tag itself when it has none |
| `SelectTagsModel.RootOfParent` | src/app/src/selecttagsmodel.cpp:32-35 | a tag and its parent climb to the same root |
| `SelectTagsModel.TagComparisonNotStrict` | src/app/src/selecttagsmodel.cpp:47-52 | the comparison as written says every tag sorts before itself, which the sort does not allow |
| `SelectTagsModel.AsWrittenIsLessOrSameName` | src/app/src/selecttagsmodel.cpp:47-52 | the comparison as written is the intended strict name order with equal lower-cased names added |
| `SelectTagsModel.SortTagsSorted` | src/app/src/selecttagsmodel.cpp:47-52 | sorting keeps the same tags, each lower-cased name no earlier than the one before |
| `SelectTagsModel.SortedChildrenBelow` | src/app/src/selecttagsmodel.cpp:59-62 | a tag's sorted children are known tags below it, so the recursion ends |
| `SelectTagsModel.SortedBelow` | src/app/src/selecttagsmodel.cpp:73 | sorting the roots keeps them known tags |
| `SelectTagsModel.ListingUnfold` | src/app/src/selecttagsmodel.cpp:54-63 | a tag's listing is its own entry followed by its sorted children's listings one level deeper |
| `SelectTagsModel.ListingAllSnoc` | src/app/src/selecttagsmodel.cpp:61-62 | one more child adds its listing at the end |
| `SelectTagsModel.ListingShape` | src/app/src/selecttagsmodel.cpp:54-63 | a listing starts with its tag at the given indentation, everything after it is deeper, and every flag is the one remembered for its tag |
| `SelectTagsModel.ListingAllShape` | src/app/src/selecttagsmodel.cpp:61-62 | every entry of the children's listings is indented deeper than their parent and carries its remembered flag |
| `SelectTagsModel.FlagsOfEntry` | src/app/src/selecttagsmodel.cpp:22-24 | the flag remembered for a listed tag is that of its last entry |
| `SelectTagsModel.RestoredAfterClear` | src/app/src/selecttagsmodel.cpp:20-28 | a tag listed before a clear comes back with its flag when the list is rebuilt |
| `SelectTagsModel.SelectedIdsMembers` | src/app/src/selecttagsmodel.cpp:112-120 | a tag is among the selected ids exactly when some selected entry lists it |
| `SelectTagsModel.WithSelection` | src/app/src/selecttagsmodel.cpp:126-139 | every entry is selected exactly when its tag is among the given ids, nothing else changes |
| `SelectTagsModel.SelectionRoundTrip` | src/app/src/selecttagsmodel.cpp:112-139 | selecting the ids the list reports as selected changes nothing when no tag is listed twice |
| `SelectTagsModel.SelectedAfterSelection` | src/app/src/selecttagsmodel.cpp:112-139 | after selecting some ids, the ids reported are exactly the listed tags among them |
| `SelectTagsModel.SelectTagsModel.constructor` | src/app/src/selecttagsmodel.cpp:8-14 | a new picker is clean and empty, its entries showing tag, selected and offset |
| `SelectTagsModel.SelectTagsModel.Clear` | src/app/src/selecttagsmodel.cpp:20-28 | the listed tags' flags are remembered and the list and the roots emptied |
| `SelectTagsModel.SelectTagsModel.AddTag` | src/app/src/selecttagsmodel.cpp:30-44 | the tag's root joins the roots unless it is there already, keeping them distinct; a new root marks the list dirty and schedules a rebuild only if it was clean |
| `SelectTagsModel.SelectTagsModel.AddTagEntry` | src/app/src/selecttagsmodel.cpp:54-63 | the tag's listing is appended: itself with its remembered flag, then its children by name, recursively one level deeper |
| `SelectTagsModel.SelectTagsModel.AddChildEntries` | src/app/src/selecttagsmodel.cpp:61-62 | the loop appends each sorted child's listing in turn |
| `SelectTagsModel.SelectTagsModel.UpdateEntries` | src/app/src/selecttagsmodel.cpp:65-77 | nothing unless dirty; then the roots are sorted by name and the list rebuilt from them, each root at indentation 0 |
| `SelectTagsModel.SelectTagsModel.SetSelected` | src/app/src/selecttagsmodel.cpp:79-100 | the tag's entries take the flag and, under single selection, every other entry is cleared; a change is signalled when any entry was written, even with its old flag |
| `SelectTagsModel.SelectTagsModel.SelectedTagsIds` | src/app/src/selecttagsmodel.cpp:102-120 | the ids of the selected entries in list order |
| `SelectTagsModel.SelectTagsModel.SetSelectedTagIds` | src/app/src/selecttagsmodel.cpp:122-142 | every entry is selected exactly when its tag is one of the ids, and the selection mode is set; more than one id needs multiple selection |
| `ModelAdapter.IndexOf` | src/app/src/util/modeladapter.hpp:112 | the first index holding the value, -1 exactly when it is absent |
| `ModelAdapter.RemovedFirstCounts` | src/app/src/util/modeladapter.hpp:110-115 | removing by value takes exactly one occurrence out when there is one and changes nothing otherwise |
| `ModelAdapter.InsertAtEndTwice` | src/app/src/util/modeladapter.hpp:99-108 | as written, inserting at the end stores the value twice |
| `ModelAdapter.InsertedOnce` | src/app/src/util/modeladapter.hpp:99-108 | as intended, the value is added once at the clamped position and the other elements keep their order around it |
| `ModelAdapter.InsertAgreesBeforeEnd` | src/app/src/util/modeladapter.hpp:99-108 | before the end the written insert is the intended one |
| `ModelAdapter.Adapter.constructor` | src/app/src/util/modeladapter.hpp:66 | a new adapter holds no elements and no roles |
| `ModelAdapter.Adapter.Size` | src/app/src/util/modeladapter.hpp:133 | the number of elements |
| `ModelAdapter.Adapter.AddAccessor` | src/app/src/util/modeladapter.hpp:71-76 | a new role name is registered with its accessor; a name registered already is fatal and changes nothing; names stay distinct |
| `ModelAdapter.Adapter.AddValueAccessor` | src/app/src/util/modeladapter.hpp:78-83 | a new role whose value is the element itself, with the same fatal case |
| `ModelAdapter.Adapter.Set` | src/app/src/util/modeladapter.hpp:85-90 | the element at a valid index is replaced |
| `ModelAdapter.Adapter.Add` | src/app/src/util/modeladapter.hpp:92-97 | the value is appended |
| `ModelAdapter.Adapter.InsertAsWritten` | src/app/src/util/modeladapter.hpp:99-108 | the elements become the written insert's result, the value stored twice at the end |
| `ModelAdapter.Adapter.Insert` | src/app/src/util/modeladapter.hpp:99-108 | the elements become the intended insert's result, the value stored once |
| `ModelAdapter.Adapter.Remove` | src/app/src/util/modeladapter.hpp:110-115 | the first occurrence of the value is removed, nothing when it is absent |
| `ModelAdapter.Adapter.RemoveAt` | src/app/src/util/modeladapter.hpp:117-122 | the element at a valid index is removed |
| `ModelAdapter.Adapter.Clear` | src/app/src/util/modeladapter.hpp:124-131 | the adapter is left empty with its roles |
| `ModelAdapter.Adapter.GetData` | src/app/src/util/modeladapter.hpp:139-146 | a role and index in range give the role's accessor applied to the element, anything else the empty variant |
| `Decimal.CDiv` | src/app/src/playlist.cpp:25 | C++ integer division: the quotient truncated toward zero for either sign of the dividend |
| `Decimal.CMod` | src/app/src/playlist.cpp:25 | C++ remainder: it takes the sign of the dividend |
| `Decimal.CDivMod` | src/app/src/playlist.cpp:25 | quotient times divisor plus remainder gives the dividend back, and the remainder is smaller than the divisor in magnitude with the dividend's sign |
| `Decimal.NatToString` | src/app/src/playlist.cpp:25 | the "%d" digits of a natural: at least one digit, no leading zero |
| `Decimal.NatToStringValue` | src/app/src/playlist.cpp:25 | the digits denote the number they were written from |
| `Decimal.IntToString` | src/app/src/playlist.cpp:25 | "%d": a minus sign before the digits exactly when the number is negative |
| `Decimal.Pad2` | src/app/src/playlist.cpp:25 | "%02d": a leading zero for 0 to 9, plain "%d" otherwise, never fewer than two characters |
| `Decimal.ToUShort` | src/server/cgi/main.cpp:49 | QString::toUShort: the digits' value when it fits 16 bits, 0 for empty, non-numeric or too large text |
| `Decimal.ParseInt` | src/common/src/json.cpp:22-23 | QString::toInt: an optional sign and digits within the 32-bit range, failure otherwise |
| `Decimal.IntToStringParses` | src/common/src/json.cpp:22-23 | every 32-bit int is read back from its "%d" text |
| `Decimal.Pad2Parses` | src/common/src/json.cpp:22-23 | every 32-bit int is read back from its "%02d" text |
| `Decimal.NoColon` | src/app/src/playlist.cpp:25 | neither text of a number contains the colon that separates minutes from seconds |
| `Decimal.MinutesSeconds` | src/uploader/fileview.cpp:27 | "%d:%02d" splits at its colon into exactly the minutes text and the seconds text |
| `CgiRequest.StripSlashes` | src/cgi/main.cpp:24-29 | the result is a suffix of the input with no leading slash, and everything removed was a slash |
| `CgiRequest.StripSlashesIdempotent` | src/cgi/main.cpp:24-29 | stripping a stripped command changes nothing |
| `CgiRequest.StripSlashesAfterSlashes` | src/cgi/main.cpp:24-29 | any number of slashes put before a command without one are all removed again |
| `CgiRequest.GetCommand` | src/cgi/main.cpp:24-29 | the loop that removes one leading slash at a time yields the stripped command |
| `CgiRequest.QueryValuesKeys` | src/cgi/main.cpp:41-45 | a key is stored exactly when some piece between '&' splits on '=' into two parts with that key |
| `CgiRequest.QueryValuesLast` | src/cgi/main.cpp:41-45 | the value stored for a key is that of its last well-formed pair |
| `CgiRequest.QuerySinglePair` | src/cgi/main.cpp:41-45 | a query of one pair without '&' or '=' in its halves is read back as exactly that pair |
| `CgiRequest.ParseQuery` | src/cgi/main.cpp:41-45 | the loop over the pieces stores exactly the values the pair rules give |
| `CgiRequest.RequestOf` | src/cgi/main.cpp:33-45 | there is no request exactly when the URI is empty or does not start with '/' |
| `CgiRequest.RequestOfSimple` | src/cgi/main.cpp:33-45 | "/command?key=value" parses to that command and that single pair |
| `CgiRequest.ParseRequest` | src/cgi/main.cpp:33-45 | the top of main computes the request RequestOf describes |
| `CgiRequest.EnvValue` | src/server/cgi/main.cpp:49 | an environment variable reads as empty exactly when it is unset or set to the empty string |
| `CgiMain.Route` | src/cgi/main.cpp:57-141 | a command that lists without v prints "[]" when v is missing or empty; each command sends its message, runs its script, starts the download or does nothing |
| `CgiMain.MainAction` | src/cgi/main.cpp:33-35 | a URI not starting with '/' makes the program do nothing |
| `CgiMain.Run` | src/cgi/main.cpp:31-142 | main does what MainAction describes for the URI |
| `CgiMain.RouteUsesV` | src/cgi/main.cpp:65-139 | every message other than the library request and every script carries v unchanged and needs it present; a download needs v and a request that decodes |
| `CgiMain.DownloadNeedsRequest` | src/cgi/main.cpp:108-123 | bandcamp-download.do downloads exactly when v is given and decodes, and otherwise prints nothing |
| `ServerCgiScript.PortAsWritten` | src/server/cgi/main.cpp:48-51 | as written, an unset or empty variable gives port 0, otherwise the default stands |
| `ServerCgiScript.LibraryServerAsWritten` | src/server/cgi/main.cpp:45-49 | as written, the library server is on port 0 when LIB_SERVER_PORT is unset and on 12345 when it is set |
| `ServerCgiScript.DownloadServerAsWritten` | src/server/cgi/main.cpp:46-51 | as written, the download server is on port 0 when DOWNLOAD_SERVER_PORT is unset and on 54321 when it is set |
| `ServerCgiScript.PortOverrideInverted` | src/server/cgi/main.cpp:48-51 | as written, an unset variable sets the port to 0 and a set one is ignored |
| `ServerCgiScript.Port` | src/server/cgi/main.cpp:45-51 | as intended, a set variable overrides the default port and an unset one keeps it |
| `ServerCgiScript.PortOverride` | src/server/cgi/main.cpp:45-51 | a variable holding a 16-bit port number sets that port, and removing it restores the default |
| `ServerCgiScript.RouteTo` | src/server/cgi/main.cpp:53-136 | a command that lists without v prints "[]" when v is missing or empty; downloads go to the download server and everything else sent to the library server |
| `ServerCgiScript.RouteAsWritten` | src/server/cgi/main.cpp:45-136 | as written, each command does what Route does, except that what is sent goes to the servers on the written ports |
| `ServerCgiScript.LibDoPortAsWritten` | src/server/cgi/main.cpp:45-56 | lib.do goes to port 0 without LIB_SERVER_PORT and to 12345 with it as written, and to 12345 and the variable's port as intended |
| `ServerCgiScript.Route` | src/server/cgi/main.cpp:53-136 | a command that lists without v prints "[]" when v is missing or empty; each command sends its message or runs its script |
| `ServerCgiScript.MainAction` | src/server/cgi/main.cpp:25-27 | a URI not starting with '/' makes the program do nothing |
| `ServerCgiScript.Run` | src/server/cgi/main.cpp:23-137 | main does what MainAction describes for the URI and the environment |
| `ServerCgiScript.RouteServers` | src/server/cgi/main.cpp:53-118 | downloads and download queries go to the download server, everything else sent goes to the library server |
| `ServerCgiScript.DownloadNeedsV` | src/server/cgi/main.cpp:104-112 | download.do sends v to the download server when it is given and otherwise prints nothing |
| `ServerCgiMessages.FormatsOf` | src/server_cgi/main.cpp:60-67 | each JSON format is read into its name, size and URL, one for one and in order |
| `ServerCgiMessages.NonDash` | src/server_cgi/main.cpp:63-65 | exactly the formats whose lower-cased name does not contain "dash" remain |
| `ServerCgiMessages.SelectionIgnoresDash` | src/server_cgi/main.cpp:63-65 | DASH formats are skipped entirely: the selection is that of the other formats alone |
| `ServerCgiMessages.StepGrows` | src/server_cgi/main.cpp:67-75 | once a URL is chosen a round keeps one and never lowers the recorded size |
| `ServerCgiMessages.SelectionFindsUrl` | src/server_cgi/main.cpp:58-79 | with URLs on the formats that count, a URL is chosen exactly when some format is not DASH |
| `ServerCgiMessages.SelectionAtLeastFirst` | src/server_cgi/main.cpp:67-75 | the recorded size is at least that of the first format that is not DASH |
| `ServerCgiMessages.SelectionAtLeastEligible` | src/server_cgi/main.cpp:66-76 | the recorded size is at least that of every non-DASH "audio only" format of non-zero size |
| `ServerCgiMessages.SelectionFrom` | src/server_cgi/main.cpp:66-76 | the chosen URL and size are those of the first non-DASH format or of an eligible audio-only one |
| `ServerCgiMessages.SelectionIsBest` | src/server_cgi/main.cpp:57-79 | the selection is the best audio format: found exactly when one exists, taken from the first or an eligible format, at least as large as both |
| `ServerCgiMessages.SeededByFirst` | src/server_cgi/main.cpp:66-76 | a first format that is not audio-only still seeds the recorded size, so a later format no larger never replaces it |
| `ServerCgiMessages.SelectFormat` | src/server_cgi/main.cpp:58-76 | the loop over the formats ends with the selection's URL and size |
| `ServerCgiMessages.YoutubeUrl` | src/server_cgi/main.cpp:40-87 | a failed run, a non-object or missing formats give "Internal Error"; a response carries the selected URL and the title, duration and chapters |
| `ServerCgiMessages.YoutubeUrlFound` | src/server_cgi/main.cpp:57-86 | with URLs on its formats a video gets a URL exactly when some format is not DASH |
| `ServerCgiMessages.GetYoutubeUrl` | src/server_cgi/main.cpp:40-87 | the body around the selection loop gives the reply YoutubeUrl describes |
| `ServerCgiMessages.UploadFile` | src/server_cgi/main.cpp:120-148 | a declared size differing from the POST data is refused with its message; the request is forwarded, carrying the data, exactly when the sizes agree and the temporary file opens |
| `ServerCgiMessages.HandleMessage` | src/server_cgi/main.cpp:155-187 | Ping gives Pong, the six library and download types are forwarded unchanged, a YouTube query gets its URL, a media URL request the base URL, an upload its checked forward, and every other type "Unhandled message type" |
| `ServerCgiMessages.Handle` | src/server_cgi/main.cpp:155-187 | handling a message gives the reply HandleMessage describes |
| `ServerCgiMessages.IndexFrom` | src/server_cgi/main.cpp:216 | the first position at or after the start where the marker occurs, -1 exactly when there is none |
| `ServerCgiMessages.IndexOf` | src/server_cgi/main.cpp:216 | QByteArray::indexOf: the first occurrence, -1 exactly when the marker does not occur |
| `ServerCgiMessages.Message64` | src/server_cgi/main.cpp:213-220 | a message in the query exists exactly when "?message64=" occurs, and it is what follows an occurrence |
| `ServerCgiMessages.Message64After` | src/server_cgi/main.cpp:213-220 | a path without '?' followed by the marker and a payload yields that payload |
| `ServerCgiMessages.ContentLength` | src/server_cgi/main.cpp:224 | CONTENT_LENGTH read as a 32-bit int, 0 when unset |
| `ServerCgiMessages.PostData` | src/server_cgi/main.cpp:222-233 | nothing unless the length is positive; otherwise a prefix of the input of the declared length, or all of a shorter input |
| `ServerCgiMessages.ReadPostData` | src/server_cgi/main.cpp:222-233 | the loop reading chunks of at most 1024 bytes reads exactly that prefix |
| `ServerCgiMessages.MessageText` | src/server_cgi/main.cpp:235 | the POST data is the message when no message comes in the query, and an empty message means empty POST data |
| `ServerCgiMessages.Answer` | src/server_cgi/main.cpp:189-256 | the program fails exactly when the settings are invalid; otherwise it prints the parse error or the handled reply |
| `ServerCgiMessages.UploadChecksPostData` | src/server_cgi/main.cpp:213-251 | an upload passed in the query is refused for its size exactly when the declared size differs from the bytes read |
| `ServerCgiMessages.Run` | src/server_cgi/main.cpp:189-256 | main gives the exit Answer describes |
| `BandcampJson.AsString` | src/common/src/json.cpp:27-28 | QJsonValue::toString: the string of a string value, empty for any other value |
| `BandcampJson.AsObject` | src/common/src/json.cpp:51 | QJsonValue::toObject: the members of an object, an empty object for any other value |
| `BandcampJson.AsArray` | src/common/src/json.cpp:44 | QJsonValue::toArray: the elements of an array, an empty array for any other value |
| `BandcampJson.ParseDuration` | src/common/src/json.cpp:17-29 | a duration is read only from text with exactly two ':'-separated parts |
| `BandcampJson.DurationRoundTrip` | src/common/src/json.cpp:17-29 | every 32-bit number of seconds written "%d:%02d" reads back as that number |
| `BandcampJson.DurationAnySeconds` | src/common/src/json.cpp:17-29 | any two 32-bit integers are accepted and combined as minutes times 60 plus seconds, seconds of 60 or more included |
| `BandcampJson.ParseSong` | src/common/src/json.cpp:8-32 | a song reads exactly when name, url and duration are present and the duration parses, and then holds the name, the url and the seconds |
| `BandcampJson.BandcampSongInfo.constructor` | src/common/include/json.hpp:8-15 | a new song info is empty |
| `BandcampJson.BandcampSongInfo.FromJson` | src/common/src/json.cpp:8-32 | success exactly when the song reads, and then the fields hold it; on failure the fields are untouched |
| `BandcampJson.ParseTracks` | src/common/src/json.cpp:48-54 | a track list that reads has one song per track |
| `BandcampJson.ParseTracksAt` | src/common/src/json.cpp:48-54 | in a track list that reads each track's song is in its place |
| `BandcampJson.ParseTracksNone` | src/common/src/json.cpp:50-52 | one track that does not read makes the whole list fail |
| `BandcampJson.ParseTracksAll` | src/common/src/json.cpp:48-54 | a list whose tracks all read, reads |
| `BandcampJson.ParseTracksMeaning` | src/common/src/json.cpp:48-54 | the list reads exactly when every track does, and then holds each track's song in order |
| `BandcampJson.ParseTracksFails` | src/common/src/json.cpp:50-52 | a track that does not read makes the list fail |
| `BandcampJson.ParseAlbum` | src/common/src/json.cpp:34-62 | an album that reads has its four keys and as many songs as its non-empty track array |
| `BandcampJson.ParseAlbumAccepts` | src/common/src/json.cpp:34-62 | an album reads exactly when its four keys are present, it has tracks and every track reads as a song |
| `BandcampJson.BandcampAlbumInfo.constructor` | src/common/include/json.hpp:17-25 | a new album info is empty |
| `BandcampJson.BandcampAlbumInfo.FromJson` | src/common/src/json.cpp:34-62 | all or nothing: success exactly when the album reads, the fields then hold it, and on failure they are untouched |
| `TestClient.CommandAt` | src/testclient/main.cpp:11-40 | each entry of the table of change names asks for at most two arguments |
| `TestClient.TypeAt` | src/testclient/main.cpp:96 | the change type cast from a table index has that index as its value |
| `TestClient.Ordinal` | src/testclient/main.cpp:44 | every change type's value is an index of the table |
| `TestClient.TypeAtOrdinal` | src/testclient/main.cpp:44-50 | casting a type's value back gives the type |
| `TestClient.TypeName` | src/testclient/main.cpp:50 | the table names every type at its own value |
| `TestClient.UInt` | src/testclient/main.cpp:105-106 | QString::toUInt: a value read is below 2^32 |
| `TestClient.UIntDigits` | src/testclient/main.cpp:105-106 | every 32-bit number is read back from its digits |
| `TestClient.FirstCommand` | src/testclient/main.cpp:79-82 | the entry found is the first whose lower-cased name starts with the lower-cased command word, and none is found exactly when no entry matches |
| `TestClient.ChangeFor` | src/testclient/main.cpp:84-126 | too few arguments give the count error; a change read has the entry's type, the subject from the second part, and the name or the detail from the third as its type demands |
| `TestClient.ParseChangeWith` | src/testclient/main.cpp:71-131 | fewer than two tab-separated parts and an unknown command word are errors with their messages |
| `TestClient.ParseDispatch` | src/testclient/main.cpp:79-127 | once the command's entry is found, that entry alone decides the result |
| `TestClient.ParsedType` | src/testclient/main.cpp:79-121 | a parsed change has the type of the first entry its command names |
| `TestClient.PartsOf` | src/testclient/main.cpp:73 | the parts a change is typed as: the command word, then two or three fields as its type reads them |
| `TestClient.SplitLineOf` | src/testclient/main.cpp:73 | without tabs in the word and the name, a typed line splits back into its parts |
| `TestClient.ChangeForPartsOf` | src/testclient/main.cpp:93-126 | an entry reads a typable change back from its parts |
| `TestClient.ParseLineOf` | src/testclient/main.cpp:71-131 | a typable change, typed after a word naming its type, is parsed back exactly |
| `TestClient.ArtistAddEntry` | src/testclient/main.cpp:30 | ArtistAdd sits at value 16 and needs no argument |
| `TestClient.ArtistAddReadsUninitialised` | src/testclient/main.cpp:99-123 | as written, an ArtistAdd change carries whatever the uninitialised subject and detail held |
| `TestClient.ArtistAddZeroed` | src/testclient/main.cpp:99-123 | corrected, an ArtistAdd change has subject and detail 0 and the typed name |
| `TestClient.ChangeForDetailError` | src/testclient/main.cpp:116-118 | a detail that is no number is reported with the subject's text as written and with its own when corrected |
| `TestClient.DetailErrorText` | src/testclient/main.cpp:116-118 | the same for a whole typed line: as written the error names the subject's text, corrected the detail's |
| `TestClient.ParseChangeLine` | src/testclient/main.cpp:71-131 | the loop over the table gives the corrected parse of the line |
| `TestClient.Signed32` | src/testclient/main.cpp:46 | a 32-bit value printed with "%d" is the signed int with the same bits |
| `TestClient.AnswerToString` | src/testclient/main.cpp:42-69 | a type value outside the table prints as "Invalid(" and its signed value |
| `TestClient.AnswerNegativeForHighValues` | src/testclient/main.cpp:44-46 | a type value of 2^31 or more is printed negative |
| `TestClient.AnswerNamesType` | src/testclient/main.cpp:50-54 | inside the table the answer starts with the type's name and the subject |
| `TestClient.AnswerShowsNewId` | src/testclient/main.cpp:55-66 | inside the table the answer ends in " -> " and the detail exactly for the changes that create an id |
| `TestClient.ChangeLineOf` | src/testclient/main.cpp:196-203 | a line is empty exactly when it trims to nothing, and only a non-empty line continues |
| `TestClient.LinesOf` | src/testclient/main.cpp:191-203 | one change line per input line |
| `TestClient.ReadStep` | src/testclient/main.cpp:205-215 | a line that fails to parse is skipped, a change is kept, and reading goes on only after a continued line |
| `TestClient.ReadFromParsedLines` | src/testclient/main.cpp:191-216 | every change read is one read before or the parse of a line read |
| `TestClient.ChangesAreParsedLines` | src/testclient/main.cpp:191-216 | every change sent is the parse of one of the lines |
| `TestClient.ContinuedLinesRead` | src/testclient/main.cpp:191-216 | lines that all parse and continue but the last add their changes in order and complete the list |
| `TestClient.ContinuedListRead` | src/testclient/main.cpp:191-216 | such a list gives exactly its changes |
| `TestClient.ReadLine` | src/testclient/main.cpp:145 | the line trimmed, a trailing '\' cut off and the rest trimmed again |
| `TestClient.ReadChanges` | src/testclient/main.cpp:189-216 | the loop reading change lines collects exactly the changes the lines give and ends as they say |
| `TestClient.RequestOf` | src/testclient/main.cpp:176-232 | a library dump is asked for only by a prefix of "library", a change list only by a prefix of "changes" that is not one of "library" |
| `TestClient.EmptyLineDumpsLibrary` | src/testclient/main.cpp:180 | an empty line is a prefix of "library" and asks for the library |
| `FileView.ColumnInfoAt` | src/uploader/fileview.cpp:16-23 | exactly the Artist, Album and Title columns can be renamed at once |
| `FileView.EncodeDurationRoundTrip` | src/uploader/fileview.cpp:25-28 | an encoded duration splits into two numbers that give the seconds back, the second below 60 in magnitude |
| `FileView.ToInt` | src/uploader/fileview.cpp:110 | QVariant::toInt of the entered text: its value when it is a 32-bit number, otherwise 0 |
| `FileView.SetFieldOnlyEditable` | src/uploader/fileview.cpp:97-118 | setData changes nothing outside the columns the view may edit and no field but the cell's own |
| `FileView.SetFieldOwnText` | src/uploader/fileview.cpp:72-118 | writing back the text an editable cell shows changes nothing |
| `FileView.SetFieldShows` | src/uploader/fileview.cpp:72-118 | an edited text cell shows what was entered |
| `FileView.SetDataOn` | src/uploader/fileview.cpp:97-118 | setData on a valid cell edits that row's entry only; on a cell outside the table it changes nothing |
| `FileView.RemoveAt` | src/uploader/fileview.cpp:42-50 | an index outside the list removes nothing; otherwise exactly that element goes and the others keep their order |
| `FileView.FieldCompareAntisymmetric` | src/uploader/fileview.cpp:130-141 | each field compares the other way round when the entries are swapped |
| `FileView.EntryCompareAntisymmetric` | src/uploader/fileview.cpp:142-150 | the comparison from a column on is antisymmetric |
| `FileView.EntryCompareZero` | src/uploader/fileview.cpp:142-150 | two entries compare equal exactly when every field from the column on compares equal |
| `FileView.CompareEntries` | src/uploader/fileview.cpp:142-150 | the loop comparing the column and then the columns after it gives that comparison |
| `FileView.SortOrderAsymmetric` | src/uploader/fileview.cpp:151 | neither sort order holds both ways |
| `FileView.SortedFiles` | src/uploader/fileview.cpp:128-155 | sorting by a column gives a permutation of the entries in the column's order, ascending or descending |
| `FileView.WithoutFromMembers` | src/uploader/fileview.cpp:224-239 | an entry is kept exactly when an index outside the deleted rows holds it |
| `FileView.WithoutMembers` | src/uploader/fileview.cpp:224-239 | deleting keeps exactly the entries at rows that were not selected |
| `FileView.WithoutNothing` | src/uploader/fileview.cpp:224-239 | nothing selected deletes nothing |
| `FileView.WithoutFromSameRows` | src/uploader/fileview.cpp:224-239 | only the selected indices the entries occupy matter |
| `FileView.WithoutFromRemoveBelow` | src/uploader/fileview.cpp:234-236 | removing a row below every row already deleted deletes that row too, the reason rows go from the highest down |
| `FileView.DistinctCounts` | src/uploader/fileview.cpp:226-230 | a row list has no repeats exactly when every row counts at most once |
| `FileView.SortedDistinctRows` | src/uploader/fileview.cpp:232 | sorting rows without repeats gives the same rows in strictly ascending order |
| `FileView.DeleteStep` | src/uploader/fileview.cpp:234-236 | removing the next lower row of an ascending row list adds it to the rows deleted |
| `FileView.FileModel.constructor` | src/uploader/fileview.cpp:30-33 | a new model holds no files |
| `FileView.FileModel.AddFile` | src/uploader/fileview.cpp:35-40 | the entry is appended |
| `FileView.FileModel.RemoveFile` | src/uploader/fileview.cpp:42-50 | the files lose the row when it is in range and are otherwise unchanged |
| `FileView.FileModel.Data` | src/uploader/fileview.cpp:72-95 | a cell has text exactly when it lies inside the table |
| `FileView.FileModel.SetData` | src/uploader/fileview.cpp:97-118 | the answer is always false; in the edit role the cell is edited as SetDataOn says, otherwise nothing changes |
| `FileView.FileModel.Sort` | src/uploader/fileview.cpp:128-155 | the files become their sort by the column's order |
| `FileView.RenameAll` | src/uploader/fileview.cpp:217-218 | renaming keeps the number of files |
| `FileView.RenameAllRows` | src/uploader/fileview.cpp:216-219 | renaming cells of one text column edits exactly the selected rows, each to the entered text |
| `FileView.TwoInSet` | src/uploader/fileview.cpp:204 | a set holding two different columns has more than one element |
| `FileView.FileView.constructor` | src/uploader/fileview.cpp:157-164 | a new view has a fresh, empty model |
| `FileView.FileView.Add` | src/uploader/fileview.cpp:171-174 | the entry is appended to the model |
| `FileView.FileView.SelectedColumns` | src/uploader/fileview.cpp:195-205 | the selection spans more than one column exactly when its cells are not all in the first cell's column |
| `FileView.FileView.MassRename` | src/uploader/fileview.cpp:193-222 | handled exactly when the selection lies in one renamable column; then a non-empty text renames every selected cell, otherwise nothing changes |
| `FileView.FileView.SelectedRows` | src/uploader/fileview.cpp:226-230 | the selection's rows without repeats, every selected row among them |
| `FileView.FileView.DeleteSelected` | src/uploader/fileview.cpp:224-239 | the files lose exactly the selected rows and keep the rest in order |
| `FileView.FileView.InterceptKeyPress` | src/uploader/fileview.cpp:183-242 | nothing is handled while editing, without a selection or for another key; Delete removes the selected rows; Return renames as MassRename says |
| `UploadWindow.RemovePrefix` | src/uploader/mainwindow.cpp:15-19 | a string starting with the prefix loses exactly that prefix; any other is unchanged |
| `UploadWindow.RemovePrefixOnce` | src/uploader/mainwindow.cpp:15-19 | only one copy of the prefix goes, however often it repeats |
| `UploadWindow.DisplayPathRelative` | src/uploader/mainwindow.cpp:140-144 | a file below the base directory is shown by its path relative to it |
| `UploadWindow.AfterLast` | src/uploader/mainwindow.cpp:123 | the part after the last separator holds no separator and is no longer than the string |
| `UploadWindow.AfterLastAppend` | src/uploader/mainwindow.cpp:123 | text without the separator appended after a string stays after its last separator |
| `UploadWindow.SuffixOfName` | src/uploader/mainwindow.cpp:123 | QFileInfo::suffix: a file named with an extension has that extension as its suffix |
| `UploadWindow.UpperCaseSuffixNotAudio` | src/uploader/mainwindow.cpp:21-31 | the suffix list is compared case-sensitively, so a ".MP3" file is not taken |
| `UploadWindow.AudioFiles` | src/uploader/mainwindow.cpp:119-126 | the filtered list is no longer than the list given |
| `UploadWindow.AudioFilesMembers` | src/uploader/mainwindow.cpp:119-126 | a path is kept exactly when it is listed, is a regular file and has an audio suffix |
| `UploadWindow.FilterAudioFiles` | src/uploader/mainwindow.cpp:119-126 | the filtering loop keeps exactly the audio files, in order |
| `UploadWindow.TrackPosition` | src/uploader/mainwindow.cpp:136 | TagLib's unsigned track number stored in an int: itself below 2^31, negative from there on |
| `UploadWindow.EntriesFor` | src/uploader/mainwindow.cpp:131-161 | one entry per file, each holding the absolute path, the display path, the tags and the duration |
| `UploadWindow.EntriesSnoc` | src/uploader/mainwindow.cpp:131-161 | one more file adds its entry at the end |
| `UploadWindow.ReadEntry` | src/uploader/mainwindow.cpp:132-154 | the loop body builds the entry EntryFor describes |
| `UploadWindow.AddedCount` | src/uploader/mainwindow.cpp:156-160 | no more files are added than were filtered, and all of them without a cancel |
| `UploadWindow.Posted` | src/uploader/mainwindow.cpp:218 | a post is appended and its reply becomes the one awaited |
| `UploadWindow.NextKeepsInv` | src/uploader/mainwindow.cpp:164-219 | starting the next upload, corrected, keeps the awaited reply among the posts and the dialog present while one is awaited |
| `UploadWindow.NextPostsSaneEntry` | src/uploader/mainwindow.cpp:164-219 | at most one post is made, of a queued entry that is sane and opens, with the file's contents; earlier posts stay and the queue only shrinks from the front |
| `UploadWindow.SaneRequest` | src/uploader/mainwindow.cpp:176-213 | the request for a sane entry has its tags, a positive duration, a position and a size of at most 90 MiB |
| `UploadWindow.NextAsWrittenPostsUnopened` | src/uploader/mainwindow.cpp:202-218 | as written, a file that does not open is still posted, with no data and its full size announced, after the dialog was reset |
| `UploadWindow.NextSkipsUnopened` | src/uploader/mainwindow.cpp:202-204 | corrected, the same queue posts nothing and keeps the invariant |
| `UploadWindow.MainWindow.constructor` | src/uploader/mainwindow.cpp:33-67 | a new window has a fresh, empty file table, an empty queue, no dialog and no reply awaited |
| `UploadWindow.MainWindow.AddFilesToTableView` | src/uploader/mainwindow.cpp:117-162 | the audio files among those given get an entry each, in order, up to the cancel |
| `UploadWindow.MainWindow.AddEntries` | src/uploader/mainwindow.cpp:131-161 | the table gains the entries of the filtered files before the cancel, in order |
| `UploadWindow.MainWindow.StartNextUpload` | src/uploader/mainwindow.cpp:164-219 | the new upload state is the corrected Next of the old one |
| `UploadWindow.MainWindow.CancelUploads` | src/uploader/mainwindow.cpp:221-225 | the queue is emptied and the dialog reset; the reply awaited and the posts stay |
| `UploadWindow.MainWindow.OnUploadClicked` | src/uploader/mainwindow.cpp:255-272 | nothing changes while a reply is awaited; otherwise the table's files are queued from progress 0 and the first upload is started |
| `UploadWindow.MainWindow.OnNetworkReplyFinished` | src/uploader/mainwindow.cpp:227-253 | the awaited reply, whatever it says, starts the next upload; any other reply changes nothing |
| `AppDatabase.ChangeListQuery` | src/app/src/database/database.cpp:42-43 | the change-list query is "v=" followed by decimal digits |
| `AppDatabase.ChangeListQueryRoundTrip` | src/app/src/database/database.cpp:42-43 | the revision asked for is read back from the query's digits |
| `AppDatabase.LibraryCommitMonotone` | src/app/src/database/database.cpp:336 | the library's commit leaves the revision or advances it by one |
| `AppDatabase.HasRunning` | src/app/src/database/database.cpp:350-355 | true exactly when some running request is of the type |
| `AppDatabase.Send` | src/app/src/database/database.cpp:37-38 | a request sent is appended, numbered by the sending order, and recorded with what its reply is for |
| `AppDatabase.SyncRequests` | src/app/src/database/database.cpp:30-49 | a sync sends exactly when no library fetch or update is running, and then asks for the whole library when none is held and for the changes since the held revision otherwise |
| `AppDatabase.SyncKeepsSingleSync` | src/app/src/database/database.cpp:30-49 | syncing keeps at most one library fetch or update running |
| `AppDatabase.SendChanges` | src/app/src/database/database.cpp:158-175 | no changes send nothing and change nothing; otherwise a request goes out |
| `AppDatabase.StartDownloadOf` | src/app/src/database/database.cpp:51-81 | a download is stamped with the held revision, recorded with its tags and the reply awaited, and downloads count as pending |
| `AppDatabase.Missing` | src/app/src/database/database.cpp:188-196 | the tags of one list missing from the other are no more than the first list |
| `AppDatabase.MissingMembers` | src/app/src/database/database.cpp:188-196 | a tag is missing exactly when it is in the first list and not in the second |
| `AppDatabase.TagChanges` | src/app/src/database/database.cpp:188-196 | one change of the given type per tag, on the same item, in order |
| `AppDatabase.TagChangesMembers` | src/app/src/database/database.cpp:188-196 | a change is among them exactly when it has the type, the item and one of the tags |
| `AppDatabase.DetailChangesExact` | src/app/src/database/database.cpp:177-199 | a renaming is sent exactly when the names differ, a tag removal exactly for an old tag not kept, a tag addition exactly for a new tag not held before |
| `AppDatabase.DetailChangesReachNewTags` | src/app/src/database/database.cpp:177-199 | taking away the tags removed and adding the tags added turns the old tag set into the new one |
| `AppDatabase.ElementsOfMembers` | src/app/src/database/database.cpp:189 | a tag is in the set of a list exactly when the list contains it |
| `AppDatabase.SongsRemovalStep` | src/app/src/database/database.cpp:123-124 | one more song adds its removal after those before it |
| `AppDatabase.AlbumsRemovalStep` | src/app/src/database/database.cpp:114-115 | one more album adds its removal after those before it |
| `AppDatabase.SongRemovalOrder` | src/app/src/database/database.cpp:130-135 | a song's removal ends with the song itself, after the removal of each of its tags and nothing else |
| `AppDatabase.SongsRemovalCovers` | src/app/src/database/database.cpp:123-124 | removing songs removes each of them and changes nothing but songs |
| `AppDatabase.AlbumRemovalOrder` | src/app/src/database/database.cpp:121-128 | an album's removal ends with the album itself, after each of its songs' and tags' removals, and nothing before removes an album or artist |
| `AppDatabase.AlbumsRemovalCovers` | src/app/src/database/database.cpp:114-115 | removing albums removes each of them and changes nothing but songs and albums |
| `AppDatabase.ArtistRemovalOrder` | src/app/src/database/database.cpp:112-119 | an artist's removal ends with the artist itself, after each of its albums' and tags' removals, and nothing before removes an artist |
| `AppDatabase.Walk` | src/app/src/database/database.cpp:331-342 | the walk keeps only entries it was given or had kept, and commits no more changes than it keeps |
| `AppDatabase.WalkKeepsAbove` | src/app/src/database/database.cpp:331-342 | every entry kept is above the revision the walk started from, and the revision never goes down |
| `AppDatabase.SortedTail` | src/app/src/database/database.cpp:328-330 | the rest of a list sorted by revision is sorted |
| `AppDatabase.WalkAppliesInOrder` | src/app/src/database/database.cpp:331-342 | the changes committed extend those before, and the revision advances by one per change committed |
| `AppDatabase.WalkStopsAtGap` | src/app/src/database/database.cpp:331-342 | on a sorted list the walk stops only at a gap: no entry carries the revision just above the one reached |
| `AppDatabase.SortedAbove` | src/app/src/database/database.cpp:328-330 | in a list sorted by revision no entry is below the first |
| `AppDatabase.ApplyChanges` | src/app/src/database/database.cpp:314-348 | unreadable data fails and changes nothing; readable data succeeds |
| `AppDatabase.ApplyChangesAdvances` | src/app/src/database/database.cpp:314-348 | applying readable changes never lowers the revision and leaves no waiting or new change for the next revision behind |
| `AppDatabase.NewLibrary` | src/app/src/database/database.cpp:306-312 | a library that reads replaces the held one and is announced; one that does not changes nothing |
| `AppDatabase.StillRunning` | src/app/src/database/database.cpp:283-292 | no more downloads are kept than there were |
| `AppDatabase.StillRunningStep` | src/app/src/database/database.cpp:283-292 | one more download is kept exactly when it is not over |
| `AppDatabase.DropStep` | src/app/src/database/database.cpp:283-292 | one step of the erase loop erases the download at the cursor when it is over and passes it otherwise |
| `AppDatabase.StillRunningMembers` | src/app/src/database/database.cpp:283-292 | a download stays exactly when it was there and is not over |
| `AppDatabase.StillRunningShorter` | src/app/src/database/database.cpp:282-292 | something is dropped exactly when some download is over |
| `AppDatabase.QueryResultDrops` | src/app/src/database/database.cpp:266-304 | a query result keeps exactly the downloads not over, ends the query, syncs only when one was over, and reports downloads pending exactly when the server listed any |
| `AppDatabase.DownloadReplied` | src/app/src/database/database.cpp:224-231 | a download reply keeps the number of downloads |
| `AppDatabase.ReplyWithErrorKeepsLibrary` | src/app/src/database/database.cpp:201-250 | a reply with an error changes neither the library nor the waiting changes, and is no longer awaited |
| `AppDatabase.DownloadRepliedAt` | src/app/src/database/database.cpp:224-231 | only the first download awaiting the reply takes the id and stops awaiting; none awaiting it changes nothing |
| `AppDatabase.QueryTimerKeepsValid` | src/app/src/database/database.cpp:257-264 | a query started while none runs is the one running-downloads request, sent last |
| `AppDatabase.SyncedKeepsValid` | src/app/src/database/database.cpp:30-49 | a sync keeps the requests numbered below the count sent and leaves the query alone |
| `AppDatabase.ReplyFinishedKeepsValid` | src/app/src/database/database.cpp:201-255 | every reply keeps the requests numbered and the query consistent, and a query reply ends the query |
| `AppDatabase.HandledKeepsValid` | src/app/src/database/database.cpp:211-250 | each case of the reply switch keeps the requests numbered, and the query case ends the query |
| `AppDatabase.Database.constructor` | src/app/src/database/database.cpp:15-24 | a new database holds no library, no request and no download |
| `AppDatabase.Database.SendRequest` | src/app/src/database/database.cpp:37-38 | the state after sending is Send's |
| `AppDatabase.Database.HasRunningRequestType` | src/app/src/database/database.cpp:350-355 | the search through the running requests answers HasRunning |
| `AppDatabase.Database.Sync` | src/app/src/database/database.cpp:30-49 | the state and reply after sync are Synced's |
| `AppDatabase.Database.SendChangeRequests` | src/app/src/database/database.cpp:158-175 | the state and reply are SendChanges' |
| `AppDatabase.Database.StartDownload` | src/app/src/database/database.cpp:51-81 | the state and reply are StartDownloadOf's |
| `AppDatabase.Database.DetailChangeList` | src/app/src/database/database.cpp:183-196 | the loops gather exactly the differences DetailChanges lists |
| `AppDatabase.Database.SetItemDetails` | src/app/src/database/database.cpp:177-199 | the differences between old and new name and tags are sent as one change request |
| `AppDatabase.Database.SetArtistDetails` | src/app/src/database/database.cpp:83-89 | the artist's differences are sent with the artist change types |
| `AppDatabase.Database.SetAlbumDetails` | src/app/src/database/database.cpp:91-97 | the album's differences are sent with the album change types |
| `AppDatabase.Database.SetSongDetails` | src/app/src/database/database.cpp:99-105 | the song's differences are sent with the song change types |
| `AppDatabase.Database.SetAlbumArtist` | src/app/src/database/database.cpp:107-110 | one change moving the album to the artist is sent |
| `AppDatabase.Database.AddTagRemovals` | src/app/src/database/database.cpp:132-133 | one removal per tag is appended, in order |
| `AppDatabase.Database.AddRemoveSong` | src/app/src/database/database.cpp:130-135 | the song's removal is appended |
| `AppDatabase.Database.AddRemoveAlbum` | src/app/src/database/database.cpp:121-128 | the album's removal is appended |
| `AppDatabase.Database.AddAlbumRemovals` | src/app/src/database/database.cpp:114-115 | the removals of the albums are appended, in order |
| `AppDatabase.Database.AddRemoveArtist` | src/app/src/database/database.cpp:112-119 | the artist's removal is appended |
| `AppDatabase.Database.RemoveArtist` | src/app/src/database/database.cpp:137-142 | the artist's removal is sent |
| `AppDatabase.Database.RemoveAlbum` | src/app/src/database/database.cpp:144-149 | the album's removal is sent |
| `AppDatabase.Database.RemoveSong` | src/app/src/database/database.cpp:151-156 | the song's removal is sent |
| `AppDatabase.Database.ApplyLibraryChanges` | src/app/src/database/database.cpp:314-348 | the state and result are ApplyChanges' |
| `AppDatabase.Database.WalkWaiting` | src/app/src/database/database.cpp:331-342 | the erase-or-commit loop ends as Walk says, and something changed exactly when a change was committed |
| `AppDatabase.Database.OnNewLibrary` | src/app/src/database/database.cpp:306-312 | the state becomes NewLibrary's |
| `AppDatabase.Database.OnDownloadQueryTimer` | src/app/src/database/database.cpp:257-264 | the state becomes QueryTimer's |
| `AppDatabase.Database.DropFinished` | src/app/src/database/database.cpp:282-292 | the erase loop keeps the downloads still running, and a sync is needed exactly when one was dropped |
| `AppDatabase.Database.OnDownloadQueryResult` | src/app/src/database/database.cpp:266-304 | the state becomes QueryResult's |
| `AppDatabase.Database.ReplyDownload` | src/app/src/database/database.cpp:224-231 | the find_if gives the downloads DownloadReplied describes |
| `AppDatabase.Database.Handle` | src/app/src/database/database.cpp:211-250 | the switch gives the state Handled describes |
| `AppDatabase.Database.OnNetworkReplyFinished` | src/app/src/database/database.cpp:201-255 | the state becomes ReplyFinished's |
| `DbInterface.Keywords` | src/app/src/database/database_interface.cpp:111 | the keywords are the search string split at single spaces: at least one, none holding a space |
| `DbInterface.EmptySearchMatchesAll` | src/app/src/database/database_interface.cpp:330-335 | the empty search string is one empty keyword, and every name matches it |
| `DbInterface.LowerHasNoUpper` | src/app/src/database/database_interface.cpp:331 | the lower-cased name holds no upper-case ASCII letter |
| `DbInterface.UpperCaseKeywordMatchesNothing` | src/app/src/database/database_interface.cpp:330-335 | keywords are compared as typed against the lower-cased name, so a keyword with an upper-case letter matches no name |
| `DbInterface.SongsFoundMembers` | src/app/src/database/database_interface.cpp:352-357 | the songs found are exactly the album's songs whose name matches, or all of them, in order, when the album or artist already matches |
| `DbInterface.AlbumsFoundAll` | src/app/src/database/database_interface.cpp:345-361 | with every tag list matching, every album of the artist is kept, in the library's order |
| `DbInterface.SearchResultsAll` | src/app/src/database/database_interface.cpp:338-365 | with every tag list matching, every artist is kept, in name order |
| `DbInterface.SearchResultsContents` | src/app/src/database/database_interface.cpp:321-368 | the results list each artist in name order, each of its albums, and exactly the songs whose own, album's or artist's name matches every keyword |
| `DbInterface.Moved` | src/app/src/database/database_interface.cpp:429 | moving an item keeps the length and puts the item at its new index, shifting the ones between |
| `DbInterface.InsertedAt` | src/app/src/database/database_interface.cpp:432 | inserting puts the item at the index, with the items before unchanged and the rest after it |
| `DbInterface.PlacedAll` | src/app/src/database/database_interface.cpp:418-437 | after the loop the first entries are distinct, one per new result, and each keeps the object its artist had or has a new one |
| `DbInterface.SameIdSameEntry` | src/app/src/database/database_interface.cpp:409-415 | in a list with one entry per artist, two entries for the same artist are the same entry |
| `DbInterface.PlaceStep` | src/app/src/database/database_interface.cpp:418-437 | one round of the loop extends the placed prefix by one result and keeps every unplaced earlier entry after it |
| `DbInterface.NewArtistUnseen` | src/app/src/database/database_interface.cpp:421-433 | an artist not found among the unplaced entries was not listed before |
| `DbInterface.InsertThenSet` | src/app/src/database/database_interface.cpp:421-436 | appending or inserting an entry and then updating it puts the updated entry at the index |
| `DbInterface.MoveThenSet` | src/app/src/database/database_interface.cpp:425-436 | moving an entry forward and then updating it puts the updated entry at the index, with the rest in their order |
| `DbInterface.HandlesBelow` | src/app/src/database/database_interface.cpp:422 | every object in the new list was made before the count of objects made |
| `DbInterface.RestAfterMove` | src/app/src/database/database_interface.cpp:429 | moving an entry forward leaves every other entry after the index among the later ones |
| `DbInterface.MovedArtistKept` | src/app/src/database/database_interface.cpp:425-429 | the entry found for an artist keeps the object it had before the update |
| `DbInterface.RequestDownloadOpens` | src/app/src/database/database_interface.cpp:176-191 | from idle a download opens the artist dialog, Bandcamp exactly for a Bandcamp album, holding the request; otherwise nothing changes |
| `DbInterface.BandcampDownloadFlow` | src/app/src/database/database_interface.cpp:250-267 | a Bandcamp download is sent at the first ok, with the chosen artist id or the entered name and tags, and the dialog closes |
| `DbInterface.YoutubeDownloadFlow` | src/app/src/database/database_interface.cpp:269-290 | a YouTube download needs two oks: the first sends nothing and asks for the album, the second sends the download with the album entered |
| `DbInterface.LibraryEditFlow` | src/app/src/database/database_interface.cpp:292-307 | editing an artist, album or song shows its name and tags, and ok sends its new details and closes the dialog |
| `DbInterface.ChangeAlbumArtistFlow` | src/app/src/database/database_interface.cpp:295-297 | changing an album's artist sends the change only when an artist was chosen, and closes the dialog either way |
| `DbInterface.StepsKeepValid` | src/app/src/database/database_interface.cpp:312-319 | every dialog step keeps a download held exactly while a download dialog is open; cancel closes every dialog |
| `DbInterface.RemovalFlow` | src/app/src/database/database_interface.cpp:193-227 | a removal waits for confirmation unless one already waits or an edit is visible; confirm clears it and removes exactly when ok and the item is an artist, album or song |
| `DbInterface.SearchShowsPreviousKeywords` | src/app/src/database/database_interface.cpp:103-113 | for one artist, album and song, the empty search finds the song and "Q" does not, so results computed before the keywords change show the old search |
| `DbInterface.DatabaseInterface.constructor` | src/app/src/database/database_interface.cpp:15-29 | a new interface has an empty search and results, no dialog open, and its new Database asked for the library |
| `DbInterface.DatabaseInterface.FindSongs` | src/app/src/database/database_interface.cpp:352-357 | the song loop computes the songs the search finds in an album |
| `DbInterface.DatabaseInterface.FindAlbums` | src/app/src/database/database_interface.cpp:345-361 | the album loop computes the albums the search keeps for an artist |
| `DbInterface.DatabaseInterface.ComputeSearchResults` | src/app/src/database/database_interface.cpp:321-368 | the artist loop computes the search results over the current library and keywords |
| `DbInterface.DatabaseInterface.ArtistIndex` | src/app/src/database/database_interface.cpp:409-415 | the index of the first entry for the artist, or -1 exactly when there is none |
| `DbInterface.DatabaseInterface.PlaceOne` | src/app/src/database/database_interface.cpp:418-437 | one round moves the artist's entry into place or inserts a new one, extending the placed prefix |
| `DbInterface.DatabaseInterface.PlaceNew` | src/app/src/database/database_interface.cpp:421-432 | a new entry with a new object is put at the index, appended or inserted |
| `DbInterface.DatabaseInterface.PlaceMoved` | src/app/src/database/database_interface.cpp:425-436 | the artist's entry is moved to the index and takes the new albums |
| `DbInterface.DatabaseInterface.PlaceAll` | src/app/src/database/database_interface.cpp:418-437 | after the loop every result is placed in order, each entry keeping its artist's object or a new one |
| `DbInterface.DatabaseInterface.UpdateSearchResults` | src/app/src/database/database_interface.cpp:370-444 | the list becomes the search results position by position, one entry per artist, an artist listed before keeping its object, and the dialogs untouched |
| `DbInterface.DatabaseInterface.Search` | src/app/src/database/database_interface.cpp:103-113 | as written: a new search string is stored and split, but the results shown are those of the previous keywords; the same string changes nothing |
| `DbInterface.DatabaseInterface.SearchFixed` | src/app/src/database/database_interface.cpp:103-113 | as intended: a new search string is stored and split, and the results shown are those of its keywords; the same string changes nothing |
| `DbInterface.DatabaseInterface.RequestDownload` | src/app/src/database/database_interface.cpp:176-191 | the dialogs' new state is the download's artist dialog, or unchanged while one is open |
| `DbInterface.DatabaseInterface.EditItem` | src/app/src/database/database_interface.cpp:151-174 | an artist, album or song opens its library dialog with its id, name and tags; anything else closes the dialog |
| `DbInterface.DatabaseInterface.ChangeAlbumArtist` | src/app/src/database/database_interface.cpp:138-149 | the artist choice opens for the album, showing its artist's name |
| `DbInterface.DatabaseInterface.EditOkClicked` | src/app/src/database/database_interface.cpp:244-310 | the dialogs move on as the ok step says, and the Database's state is exactly what the one call made sends |
| `DbInterface.DatabaseInterface.OkBandcamp` | src/app/src/database/database_interface.cpp:250-267 | a Bandcamp ok sends the download, with the artist step applied, and closes the dialog |
| `DbInterface.DatabaseInterface.OkYoutube` | src/app/src/database/database_interface.cpp:269-290 | a YouTube ok records the artist and asks for the album, or sends the download with the album entered |
| `DbInterface.DatabaseInterface.OkLibrary` | src/app/src/database/database_interface.cpp:292-307 | a library ok sends the album's new artist or the item's new details, and closes the dialog |
| `DbInterface.DatabaseInterface.EditCancelClicked` | src/app/src/database/database_interface.cpp:312-319 | cancel drops the download and the edited id and closes every dialog |
| `DbInterface.DatabaseInterface.RemoveItem` | src/app/src/database/database_interface.cpp:193-200 | the item waits for confirmation unless one already waits or an edit is visible |
| `DbInterface.DatabaseInterface.Confirm` | src/app/src/database/database_interface.cpp:214-227 | on ok the waiting artist, album or song is removed through the Database; the confirmation closes either way |
| `DbInterface.DatabaseInterface.OnArtistStringSelected` | src/app/src/database/database_interface.cpp:229-242 | choosing an artist in the artist dialog shows that artist's tags; otherwise nothing changes |
| `DbInterface.DatabaseInterface.DropTail` | src/app/src/database/database_interface.cpp:439-443 | removing from the end leaves exactly the first n entries |

## Left out

- Sockets, TCP framing, HTTP clients, processes (youtube-dl, node, the servers), timers, signals and the file system are outside the model. What they answer is a parameter (a `World`, a `FileSystem`, a `Payload`), and what they are asked to do is returned as a value (an `Action`, a `DbCall`, a flag).
- QDataStream encoding (src/shared/library_serialize.cpp:367-545) is left out as a Qt-owned binary format. So are base64url and QJsonDocument text parsing: JSON is the datatype `JsonConv.Json` with integer numbers.
- `dumpToStringList` (src/shared/library_serialize.cpp:547-596) and `serializeToJson` (src/shared/library_serialize.cpp:148-198) are left out because they only format output.
- `LibraryId::generate` is left out because it draws random bytes. A generated id is a parameter.
- The ENJSON static registration is left out. A message or object is the ordered list of its members' descriptors, given as a parameter.
- The iteration order of QHash is a parameter (`hashOrder`). `LibraryTypes.ItemCollection.Ids` promises the right set of ids but not their order.
- LibraryTypes: ids, revisions and counters are unbounded naturals. The source's quint32 wrap-around after 2^32 ids is not modelled. The JSON reader reduces numbers modulo 2^32. The source casts the double with `(quint32) json.toDouble()` (src/shared/jsonconv.cpp:261), which is undefined behaviour for a number out of range, so the reduction is one choice among the results a compiler may give.
- Floating point is left out: `Audio::position`, `seek` and `timeToDisplayString`, the multi-choice popup's coordinates, and the uploader's column widths.
- Logger: `setLogFile`, installing the message handler, the timestamp and the writing itself are left out. The handler returns the lines it would write.
- AndroidUtil: installing and uninstalling the message handler are calls into Qt and are left out.
- ServerSettings: where the settings file lives is a parameter of the constructor.
- AppDatabase.ApplyChanges: the library's commit is a parameter whose revision behaviour is stated, and LibraryModel.Commit is shown to have it. The sort uses the strict order `ByRevision`, because the source's qSort comparator `<=` (src/app/src/database/database.cpp:328-330) is no strict ordering. Changes with equal revisions are therefore ordered as the model's sort leaves them.
- AppDatabase.Database.OnNetworkReplyFinished: a reply to a request the Database did not send changes nothing. The lookup's default comes from a header that is not part of this model.
- AppDatabase.Database.StartDownload requires that the download is not a YouTube playlist, a case that ends in qFatal in the source.
- DbInterface: the library's artists in name order are a parameter. The locale collation of `artistsByName` is left out.
- DbInterface: the DbArtist, DbAlbum and DbTag objects are left out. So are `fillArtistInfo`, `getOrCreateDbTag` and `removeTag`. The results list records each entry's object by number.
- DbInterface.DatabaseInterface.EditItem and DbInterface.DatabaseInterface.ChangeAlbumArtist model the release build. The Q_ASSERTs that no dialog is open are not preconditions.
- DbInterface.MatchesSearch follows the source: keywords are not lower-cased, so a keyword with an upper-case letter matches nothing (`DbInterface.UpperCaseKeywordMatchesNothing`).
- SelectTagsModel.SelectTagsModel.SetSelectedTagIds keeps the source's Q_ASSERT (src/app/src/selecttagsmodel.cpp:124), that more than one id is given only in multi-select mode, as its precondition.
- ModelAdapter: the row-insertion and row-removal signals of the list model are left out. Signals elsewhere are returned as flags or left out.
- ResultCell.Result.CopyAssign models copy assignment as intended, with the state copied whole.
- OptionCell.Option.MoveAssign requires that the right-hand side is another object. Self-move is not modelled.
- SharedLibrary.Library.CommitTagSetParent requires the source's Q_ASSERT that a non-zero new parent exists (`RequestAsserts`). Without it the source dereferences a null pointer.
- DbLibrary.Library.Commit, DbLibrary.Library.CommitAll and DbLibrary.Library.CommitNext: a TagSetParent whose new parent is non-zero but no tag, or whose tag's old parent is non-zero but no tag, dereferences a null pointer (src/dbcommon/src/library.cpp:328-349). The Q_ASSERTs at lines 331 and 348 that would catch it are compiled out of release builds. The model does not say what happens then. The case is a precondition of a single commit (`DbAsserts`), and the replay of CommitAll stops at it (CommitNext returns `stopped`).
- DbLibrary.Library.Commit computes the accepted case as a value and writes it back with one `Store`. The source updates the collections through pointers one step at a time. The final state is the same; the order of the writes is not modelled here, and SharedLibrary.Library.Commit shows that form.
- TestClient.ParseChangeLine and TestClient.ReadChanges read lines with the corrected parseChange (`ParseChange`). The source reports a bad detail with the text of parts[1] and leaves ArtistAdd's subject and detail uninitialised (src/testclient/main.cpp:99-123). `ParseChangeAsWritten` models that; see the two TestClient rows under Findings.
- UploadWindow.MainWindow.StartNextUpload, UploadWindow.MainWindow.OnUploadClicked and UploadWindow.MainWindow.OnNetworkReplyFinished skip a queued file that does not open (`Next` with `fixed` true). The source still posts such a file with no data (src/uploader/mainwindow.cpp:202-218). `Next` with the flag false models that; see the UploadWindow row under Findings.
- Controller.Controller.AddSearchResultToPlaylist and Controller.Controller.AddLibraryItemToPlaylist model `addFromInternet` and `addFromLibrary` as appending or prepending playlist entries. The network queries they start are returned as a flag.
- Playlist.Playlist.Prepend models the intended insert: the entry is stored once. The source's `m_entries.insert(0, e)` on an empty playlist adds the entry and then inserts it again, so it is listed twice (src/app/src/util/modeladapter.hpp:99-108). Playlist.Playlist.PrependAsWritten models that.
- Controller.Controller.QueueBandcampTrack, Controller.Controller.QueueBandcampAlbum, Controller.Controller.PrependTracks, Controller.Controller.AddSearchResultToPlaylist and Controller.Controller.AddLibraryItemToPlaylist prepend through Playlist.Playlist.Prepend. On an empty playlist the source lists the first entry prepended twice, as Playlist.Playlist.PrependAsWritten states.
- LibraryMessages.FromJson and LibraryMessages.FromJsonAs read every message type by its name. The source refuses `{"id":"MediaUrlRequest","data":{}}` with "No such message ID: MediaUrlRequest", because typeString has no case for the media URL pair (src/shared/library.cpp:589-613). LibraryMessages.FromJsonAsWritten models that, and LibraryMessages.FromJsonMediaUrlRequest shows the two apart on that document.
- ServerCgiScript.Route and ServerCgiScript.Run use the intended ports: a set LIB_SERVER_PORT or DOWNLOAD_SERVER_PORT overrides the default. The source sends to port 0 when the variable is unset and keeps the default when it is set (src/server/cgi/main.cpp:48-51). ServerCgiScript.RouteAsWritten models that, and ServerCgiScript.LibDoPortAsWritten shows the two apart for lib.do.
- Decimal.ToUShort and Decimal.ParseInt do not accept the leading and trailing whitespace QString::toInt skips.
- TestClient.UInt does not accept the leading and trailing whitespace QString::toUInt skips; such a field is reported as no number.
- ServerSettings.AsPort does not accept the leading and trailing whitespace QVariant's conversion to quint16 skips; such a port reads as 0 and makes the settings invalid.
- Text.Lower and Text.LowerChar fold ASCII letters only, where QString::toLower and `QString::compare(..., Qt::CaseInsensitive)` fold all of Unicode. So the search in DbInterface, the keywords of StringModel, the tag order of SelectTagsModel and FileView.FieldCompare treat non-ASCII letters of different case as different: the search "björk" does not find "BJÖRK" in the model, though it does in the source.
- ResultCell.Result.MoveAssign: what a move leaves in rhs's payload is a parameter; the model states only that rhs keeps its tag.
- CgiMain.Route and ServerCgiScript.Route forward the request-changes body as it arrived. The source decodes it from QDataStream and encodes it again, which is not modelled.
- BandcampJson.ParseDuration and BandcampJson.DurationAnySeconds compute minutes*60+seconds without overflow. The source's int can overflow.
- BandcampJson.BandcampSongInfo.constructor starts the duration at 0. The source leaves it uninitialised.
- FileView.SortedFiles compares positions and durations by their difference without 32-bit overflow.
- UploadWindow: the directory walk of `collectAudioFiles` and the file dialogs of the add-file and add-directory buttons are left out; the files picked are a parameter. The tags TagLib reads are a parameter. The JSON and base64 text of the upload message are left out.
- ServerCgiMessages: what youtube-dl prints and what the library server answers are parameters. Installing the logger in `main` is left out.
- TestClient: the library dump, its deserialisation, the socket and the command-line options are left out.
- Sorting.Sort is an insertion sort standing for qSort and std::sort. Its order among elements neither of which sorts before the other is one fixed choice.

## Findings

| source | as written | input that shows it | evidently intended | confidence | as-written member | corrected member |
|---|---|---|---|---|---|---|
| src/dbcommon/src/library.cpp:119-127 | SongRemove does not check that the song has no tags | a song tagged with tag 1, removed | refuse the removal while tags remain, as src/shared/library.cpp:73-82 does | not executed | `DbFindings.SongRemoveLeavesTag` | `LibraryCaseInvariants.RemoveSongKeepsInv` |
| src/dbcommon/src/library.cpp:249-255 | ArtistRemove does not check that the artist has no tags | a tagged artist without albums, removed | refuse the removal while tags remain | not executed | `DbFindings.ArtistRemoveLeavesTag` | `LibraryCaseInvariants.RemoveArtistKeepsInv` |
| src/dbcommon/src/library.cpp:194-203 | AlbumRemove unlinks the album from its artist (line 200) but then erases `m_songs.remove(change.subject)`, the song whose id is the album's, and leaves the album itself in the albums | an empty album of an artist, removed: the album stays, pointing at an artist that no longer lists it | erase the album from the albums and leave the songs alone | not executed | `DbFindings.AlbumRemoveBreaksLinks` | `LibraryCaseInvariants.RemoveAlbumKeepsInv` |
| src/dbcommon/src/library.cpp:322-355 | TagSetParent has no cycle check | tag 1 with child 2; set parent of 1 to 2 | refuse a new parent among the tag's descendants | not executed | `DbFindings.TagSetParentMakesCycle` | `TagCaseInvariants.ReparentKeepsInv` |
| src/dbcommon/src/library.cpp:372-380 | commit(QVector) does not compare a change's revision with the next one | an empty library given one change stamped revision 5 | apply only the change whose revision is next | not executed | `DbFindings.ReplayRestampsGap` | `DbFindings.ReplayGapSkipped` |
| src/shared/library.cpp:532-555 | typeString has no case for MediaUrlRequest and MediaUrlResponse | a MediaUrlRequest message | name every message type | not executed | `LibraryMessages.MediaUrlRequestRefused` | `LibraryMessages.MediaUrlRequestRead` |
| src/app/src/util/modeladapter.hpp:99-108 | insert at the end appends and then inserts as well | insert at index size() of an empty adapter | store the value once | not executed | `ModelAdapter.InsertAtEndTwice` | `ModelAdapter.InsertedOnce` |
| src/app/src/playlist.cpp:132-149 | remove takes an entry out of the list only when it is the current one, yet moves the index back for one before it | remove the first of two entries while the second is current: both stay listed and the first becomes current | take the given entry out wherever it is, the index following the current entry | not executed | `Playlist.Playlist.RemoveAsWritten` | `Playlist.Playlist.Remove` |
| src/app/src/playlist.cpp:106-120 | purging unused icons compares entry URLs with icon data | a requested icon still holding its placeholder, shown by an entry | keep every icon some entry shows | not executed | `Playlist.PurgeDropsUsedIcon` | `Playlist.Purged` |
| src/app/src/stringmodel.cpp:88-98 | the sort comparator answers true for equal keyword lists | any entry compared with itself | a strict weak ordering | not executed | `StringModel.EntryComparisonNotStrict` | `StringModel.SortEntriesSorted` |
| src/app/src/selecttagsmodel.cpp:47-52 | the sort comparator is `<=` on lower-cased names | any tag compared with itself | a strict weak ordering | not executed | `SelectTagsModel.TagComparisonNotStrict` | `SelectTagsModel.SortTagsSorted` |
| src/server/cgi/main.cpp:48-51 | the port override is applied when the variable is missing | no port variable set | use the variable's port only when it is set | not executed | `ServerCgiScript.PortOverrideInverted` | `ServerCgiScript.PortOverride` |
| src/testclient/main.cpp:99-123 | ArtistAdd leaves subject and detail uninitialised | the line "ArtistAdd\tName" | subject and detail 0 | not executed | `TestClient.ArtistAddReadsUninitialised` | `TestClient.ArtistAddZeroed` |
| src/testclient/main.cpp:116-118 | a detail that is no number is reported with the subject's text | the line "AlbumSetArtist\t3\tx" | report the detail's own text | not executed | `TestClient.DetailErrorText` | `TestClient.ParseLineOf` |
| src/uploader/mainwindow.cpp:202-218 | a file that does not open is still posted | a queued entry whose file cannot be opened | skip the entry | not executed | `UploadWindow.NextAsWrittenPostsUnopened` | `UploadWindow.NextSkipsUnopened` |
| src/app/src/database/database_interface.cpp:103-113 | search updates the results before storing the new keywords | one artist, album and song; search "Q" after the empty search | results for the new keywords | not executed | `DbInterface.SearchShowsPreviousKeywords` | `DbInterface.DatabaseInterface.SearchFixed` |
