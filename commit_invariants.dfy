// What one Library::commit does to the whole library
// (src/shared/library.cpp:52-341): it keeps the library consistent and the
// change log numbered 1 .. revision.
module CommitInvariants {

  import opened LibraryTypes
  import opened LibraryModel
  import opened LibraryCaseInvariants
  import opened TagCaseInvariants

  /** A change case that is accepted leaves a consistent library. */
  lemma CommitCaseKeepsInv(s: LibState, r: ChangeRequest, ending: nat)
    requires RequestAsserts(s, r) && CommitCase(s, r, ending).Done? && Inv(s)
    ensures Inv(CommitCase(s, r, ending).next)
  {
    match Group(r.changeType)
    case SongGroup => SongCaseKeepsInv(s, r, ending);
    case AlbumGroup => AlbumCaseKeepsInv(s, r);
    case ArtistGroup => ArtistCaseKeepsInv(s, r);
    case TagGroup => TagCaseKeepsInv(s, r);
  }

  /** Every commit, accepted or not, leaves a consistent library consistent. */
  lemma CommitKeepsInv(s: LibState, r: ChangeRequest, ending: nat)
    requires Inv(s) && RequestAsserts(s, r)
    ensures Inv(Commit(s, r, ending).1)
  {
    if CommitCase(s, r, ending).Done? {
      CommitCaseKeepsInv(s, r, ending);
    }
  }

  /** The log stays numbered 1 .. revision across a commit. */
  lemma CommitKeepsLog(s: LibState, r: ChangeRequest, ending: nat)
    requires LogConsecutive(s)
    ensures LogConsecutive(Commit(s, r, ending).1)
  {
    var (out, n) := Commit(s, r, ending);
    if out.Committed? {
      forall i | 0 <= i < |n.log|
        ensures n.log[i].committedRevision == i + 1
      {
        if i < |s.log| {
          assert n.log[i] == s.log[i];
        }
      }
    }
  }

  /** A new library is consistent and its log is empty. */
  lemma EmptyIsConsistent()
    ensures Inv(EmptyState()) && LogConsecutive(EmptyState())
  {
  }
}
