// The three changes of Library::commit that rewrite the tag hierarchy keep
// it a forest (src/shared/library.cpp:246-320): TagAdd hangs a fresh tag
// under an existing tag or at the root, TagRemove takes out a childless tag,
// TagSetParent moves a tag under a parent whose ancestors do not include it.
// Each part of TagTree is shown on its own.
module TagTreeInvariants {

  import opened LibraryTypes
  import opened LibraryModel
  import TagForest

  /** Tags rewritten with their item lists kept keep every tagging. */
  lemma TagsSameItems<C>(cs: map<nat, C>, tags: map<nat, Tag>, tags': map<nat, Tag>, ctags: C -> seq<nat>, titems: Tag -> seq<nat>)
    requires ManyToMany(cs, tags, ctags, titems) && tags'.Keys == tags.Keys
    requires forall t :: t in tags ==> titems(tags'[t]) == titems(tags[t])
    ensures ManyToMany(cs, tags', ctags, titems)
  {
  }

  /** A fresh tag with no items, the others keeping their item lists, keeps every tagging. */
  lemma TagsGrowUnused<C>(cs: map<nat, C>, tags: map<nat, Tag>, tags': map<nat, Tag>, ctags: C -> seq<nat>, titems: Tag -> seq<nat>, id: nat)
    requires ManyToMany(cs, tags, ctags, titems) && id !in tags && tags'.Keys == tags.Keys + {id}
    requires titems(tags'[id]) == []
    requires forall t :: t in tags ==> titems(tags'[t]) == titems(tags[t])
    ensures ManyToMany(cs, tags', ctags, titems)
  {
  }

  /** Taking out a tag with no items, the others keeping their item lists, keeps every tagging. */
  lemma TagsShrinkUnused<C>(cs: map<nat, C>, tags: map<nat, Tag>, tags': map<nat, Tag>, ctags: C -> seq<nat>, titems: Tag -> seq<nat>, t: nat)
    requires ManyToMany(cs, tags, ctags, titems) && t in tags && titems(tags[t]) == []
    requires tags'.Keys == tags.Keys - {t}
    requires forall x :: x in tags' ==> titems(tags'[x]) == titems(tags[x])
    ensures ManyToMany(cs, tags', ctags, titems)
  {
  }

  // ---------------------------------------------------------------------
  // TagAdd

  /** TagAdd gives the fresh tag empty item lists and leaves those of the others alone. */
  lemma AddTagItemLists(s: LibState, p: nat, name: string)
    ensures var tags, id, n := s.tags.items, s.tags.nextId, AddTag(s, p, name).1.tags.items;
      n.Keys == tags.Keys + {id}
      && n[id].songs == [] && n[id].albums == [] && n[id].artists == []
      && forall x :: x in tags && x != id ==>
           n[x].songs == tags[x].songs && n[x].albums == tags[x].albums && n[x].artists == tags[x].artists
  {
  }

  lemma AddTagParents(s: LibState, p: nat, name: string)
    ensures Parents(AddTag(s, p, name).1.tags.items) == Parents(s.tags.items)[s.tags.nextId := p]
  {
  }

  lemma AddTagForest(s: LibState, p: nat, name: string)
    requires WellNumbered(s.tags) && ForestShape(s.tags.items)
    requires p == 0 || p in s.tags.items
    ensures ForestShape(AddTag(s, p, name).1.tags.items)
  {
    AddTagParents(s, p, name);
    TagForest.AddFreshKeepsAcyclic(Parents(s.tags.items), s.tags.nextId, p);
  }

  lemma AddTagRoots(s: LibState, p: nat, name: string)
    requires WellNumbered(s.tags) && RootsListed(s.tags.items, s.rootTags)
    requires p == 0 || p in s.tags.items
    ensures RootsListed(AddTag(s, p, name).1.tags.items, AddTag(s, p, name).1.rootTags)
  {
  }

  /** A fresh childless tag under an existing tag p, appended to p's children. */
  lemma AddChildTagAgree(tags: map<nat, Tag>, id: nat, nt: Tag)
    requires ChildrenAgree(tags) && id !in tags && nt.children == [] && nt.parent in tags
    ensures ChildrenAgree(tags[id := nt][nt.parent := tags[nt.parent].(children := tags[nt.parent].children + [id])])
  {
    var p := nt.parent;
    var tags' := tags[id := nt][p := tags[p].(children := tags[p].children + [id])];
    forall t, c | t in tags' && c in tags'[t].children
      ensures c in tags' && tags'[c].parent == t
    {
      if t == p && c == id {
      } else {
        assert t != id && c in tags[t].children;
      }
    }
  }

  /** A fresh childless root tag. */
  lemma AddRootTagAgree(tags: map<nat, Tag>, id: nat, nt: Tag)
    requires ChildrenAgree(tags) && id !in tags && nt.children == [] && nt.parent == 0
    ensures ChildrenAgree(tags[id := nt])
  {
  }

  /** The tag map after TagAdd, spelled out. */
  lemma AddTagTags(s: LibState, p: nat, name: string)
    ensures var id, nt := s.tags.nextId, NewTag.(name := name, parent := p);
      var tags1 := s.tags.items[id := nt];
      AddTag(s, p, name).1.tags.items
        == if p in s.tags.items then tags1[p := tags1[p].(children := tags1[p].children + [id])] else tags1
  {
  }

  lemma AddTagChildren(s: LibState, p: nat, name: string)
    requires WellNumbered(s.tags) && ChildrenAgree(s.tags.items)
    requires p == 0 || p in s.tags.items
    ensures ChildrenAgree(AddTag(s, p, name).1.tags.items)
  {
    var nt := NewTag.(name := name, parent := p);
    AddTagTags(s, p, name);
    if p in s.tags.items {
      AddChildTagAgree(s.tags.items, s.tags.nextId, nt);
    } else {
      AddRootTagAgree(s.tags.items, s.tags.nextId, nt);
    }
  }

  // ---------------------------------------------------------------------
  // TagRemove

  /** In a consistent tree a childless tag is nobody's parent, not even its own. */
  lemma ChildlessIsNobodysParent(tags: map<nat, Tag>, t: nat)
    requires ChildrenAgree(tags) && t != 0 && t in tags && tags[t].children == []
    ensures forall x :: x in tags ==> tags[x].parent != t
  {
  }

  /** The tag map and root list after TagRemove, spelled out. */
  lemma RemoveTagState(s: LibState, t: nat)
    requires t in s.tags.items
    ensures var tags, p := s.tags.items, s.tags.items[t].parent;
      var n := RemoveTag(s, t);
      n.tags.nextId == s.tags.nextId
      && (p in tags ==> n.tags.items == tags[p := tags[p].(children := RemoveAll(tags[p].children, t))] - {t}
                        && n.rootTags == s.rootTags)
      && (p !in tags ==> n.tags.items == tags - {t} && n.rootTags == RemoveAll(s.rootTags, t))
  {
  }

  /** TagRemove leaves the item lists of the remaining tags alone. */
  lemma RemoveTagItemLists(s: LibState, t: nat)
    requires t in s.tags.items
    ensures var tags, n := s.tags.items, RemoveTag(s, t).tags.items;
      n.Keys == tags.Keys - {t}
      && forall x :: x in n ==>
           n[x].songs == tags[x].songs && n[x].albums == tags[x].albums && n[x].artists == tags[x].artists
  {
  }

  lemma RemoveTagParents(tags: map<nat, Tag>, t: nat)
    requires t in tags
    ensures var p := tags[t].parent;
      Parents(tags - {t}) == Parents(tags) - {t}
      && (p in tags ==> Parents(tags[p := tags[p].(children := RemoveAll(tags[p].children, t))] - {t}) == Parents(tags) - {t})
  {
  }

  lemma RemoveTagForest(s: LibState, t: nat)
    requires ForestShape(s.tags.items) && ChildrenAgree(s.tags.items)
    requires t != 0 && t in s.tags.items && s.tags.items[t].children == []
    ensures ForestShape(RemoveTag(s, t).tags.items)
  {
    var P := Parents(s.tags.items);
    ChildlessIsNobodysParent(s.tags.items, t);
    assert forall x :: x in P ==> P[x] != t;
    TagForest.RemoveLeafKeepsAcyclic(P, t);
    RemoveTagState(s, t);
    RemoveTagParents(s.tags.items, t);
  }

  /** Keys without t, parents kept: the root list without t still lists exactly the parentless tags. */
  lemma RemoveTagRootsListed(tags: map<nat, Tag>, tags': map<nat, Tag>, roots: seq<nat>, roots': seq<nat>, t: nat)
    requires RootsListed(tags, roots) && t in tags
    requires tags'.Keys == tags.Keys - {t}
    requires forall x :: x in tags' ==> tags'[x].parent == tags[x].parent
    requires roots' == roots || roots' == RemoveAll(roots, t)
    requires roots' == roots ==> tags[t].parent != 0
    ensures RootsListed(tags', roots')
  {
  }

  lemma RemoveTagRoots(s: LibState, t: nat)
    requires RootsListed(s.tags.items, s.rootTags) && ChildrenAgree(s.tags.items) && 0 !in s.tags.items
    requires t != 0 && t in s.tags.items && s.tags.items[t].children == []
    ensures RootsListed(RemoveTag(s, t).tags.items, RemoveTag(s, t).rootTags)
  {
    RemoveTagState(s, t);
    ChildlessIsNobodysParent(s.tags.items, t);
    var n := RemoveTag(s, t);
    RemoveTagRootsListed(s.tags.items, n.tags.items, s.rootTags, n.rootTags, t);
  }

  /** Child lists that follow the removal of t from under p still name their parents. */
  lemma RemovedNameParent(tags: map<nat, Tag>, tags': map<nat, Tag>, t: nat, p: nat)
    requires ChildrenNameParent(tags) && t in tags && p == tags[t].parent
    requires tags'.Keys == tags.Keys - {t}
    requires forall x :: x in tags' ==> tags'[x].parent == tags[x].parent
    requires forall x :: x in tags' && x != p ==> tags'[x].children == tags[x].children
    requires p in tags' ==> tags'[p].children == RemoveAll(tags[p].children, t)
    ensures ChildrenNameParent(tags')
  {
    forall x, c | x in tags' && c in tags'[x].children
      ensures c in tags' && tags'[c].parent == x
    {
      if x == p {
        assert c in RemoveAll(tags[p].children, t);
      } else {
        assert tags'[x].children == tags[x].children;
      }
      assert c in tags[x].children && c != t;
    }
  }

  /** After removing t, which is nobody's parent, every tag with a parent is still listed there. */
  lemma RemovedListsChild(tags: map<nat, Tag>, tags': map<nat, Tag>, t: nat, p: nat)
    requires ParentListsChild(tags) && t in tags && p == tags[t].parent
    requires forall x :: x in tags ==> tags[x].parent != t
    requires tags'.Keys == tags.Keys - {t}
    requires forall x :: x in tags' ==> tags'[x].parent == tags[x].parent
    requires forall x :: x in tags' && x != p ==> tags'[x].children == tags[x].children
    requires p in tags' ==> tags'[p].children == RemoveAll(tags[p].children, t)
    ensures ParentListsChild(tags')
  {
    forall x | x in tags' && tags'[x].parent != 0
      ensures tags'[x].parent in tags' && x in tags'[tags'[x].parent].children
    {
      var q := tags[x].parent;
      assert x in tags[q].children && q != t;
      if q == p {
        assert x in RemoveAll(tags[p].children, t);
      } else {
        assert tags'[q].children == tags[q].children;
      }
    }
  }

  lemma RemovedAgree(tags: map<nat, Tag>, tags': map<nat, Tag>, t: nat, p: nat)
    requires ChildrenAgree(tags) && t in tags && p == tags[t].parent
    requires forall x :: x in tags ==> tags[x].parent != t
    requires tags'.Keys == tags.Keys - {t}
    requires forall x :: x in tags' ==> tags'[x].parent == tags[x].parent
    requires forall x :: x in tags' && x != p ==> tags'[x].children == tags[x].children
    requires p in tags' ==> tags'[p].children == RemoveAll(tags[p].children, t)
    ensures ChildrenAgree(tags')
  {
    RemovedNameParent(tags, tags', t, p);
    RemovedListsChild(tags, tags', t, p);
  }

  lemma RemoveLeafAgree(tags: map<nat, Tag>, t: nat)
    requires ChildrenAgree(tags) && t != 0 && t in tags && tags[t].children == []
    ensures var p := tags[t].parent;
      (p in tags ==> ChildrenAgree(tags[p := tags[p].(children := RemoveAll(tags[p].children, t))] - {t}))
      && (p !in tags ==> ChildrenAgree(tags - {t}))
  {
    ChildlessIsNobodysParent(tags, t);
    var p := tags[t].parent;
    if p in tags {
      RemovedAgree(tags, tags[p := tags[p].(children := RemoveAll(tags[p].children, t))] - {t}, t, p);
    } else {
      RemovedAgree(tags, tags - {t}, t, p);
    }
  }

  lemma RemoveTagChildren(s: LibState, t: nat)
    requires ChildrenAgree(s.tags.items) && t != 0 && t in s.tags.items && s.tags.items[t].children == []
    ensures ChildrenAgree(RemoveTag(s, t).tags.items)
  {
    RemoveTagState(s, t);
    RemoveLeafAgree(s.tags.items, t);
  }

  // ---------------------------------------------------------------------
  // TagSetParent

  /** No chain from d reaches t: walking up from d within the forest never meets t. */
  lemma ChainAvoidsFromNotMeets(tags: map<nat, Tag>, t: nat, d: nat) returns (m: nat)
    requires ForestShape(tags) && t != 0
    requires d == 0 || d in tags
    requires d != 0 ==> !ChainMeets(tags, d, t)
    ensures TagForest.ChainAvoids(Parents(tags), d, t, m)
  {
    if d == 0 {
      m := 0;
      assert TagForest.Walk(Parents(tags), d, 0) == 0;
    } else {
      assert TagForest.ReachesRoot(Parents(tags), d);
      m :| TagForest.Walk(Parents(tags), d, m) == 0;
    }
  }

  /** The parent pointers after TagSetParent: t now points at d, nothing else moved. */
  lemma ReparentParents(s: LibState, t: nat, d: nat)
    requires t in s.tags.items
    ensures Parents(Reparent(s, t, d).tags.items) == Parents(s.tags.items)[t := d]
  {
  }

  lemma ReparentForest(s: LibState, t: nat, d: nat)
    requires ForestShape(s.tags.items) && t != 0 && t in s.tags.items
    requires d == 0 || d in s.tags.items
    requires d != 0 ==> !ChainMeets(s.tags.items, d, t)
    ensures ForestShape(Reparent(s, t, d).tags.items)
  {
    var m := ChainAvoidsFromNotMeets(s.tags.items, t, d);
    TagForest.SetParentKeepsAcyclic(Parents(s.tags.items), t, d, m);
    ReparentParents(s, t, d);
  }

  /** One entry of the tag map after TagSetParent, when t, its old parent o and d differ. */
  lemma ReparentEntry(s: LibState, t: nat, d: nat, x: nat)
    requires t in s.tags.items && x in s.tags.items && 0 !in s.tags.items
    requires var o := s.tags.items[t].parent; o != t && d != t && d != o && (o == 0 || o in s.tags.items)
    requires d == 0 || d in s.tags.items
    ensures var tags, o := s.tags.items, s.tags.items[t].parent;
      Reparent(s, t, d).tags.items[x]
        == if x == t then tags[t].(parent := d)
           else if x == o then tags[o].(children := RemoveAll(tags[o].children, t))
           else if x == d then tags[d].(children := tags[d].children + [t])
           else tags[x]
  {
  }

  /** n is the tag map tags after t moved from its parent o to d: only t, o and d change. */
  ghost predicate Reparented(tags: map<nat, Tag>, n: map<nat, Tag>, t: nat, o: nat, d: nat)
  {
    t in tags && o == tags[t].parent && (o == 0 || o in tags) && (d == 0 || d in tags)
    && n.Keys == tags.Keys
    && n[t] == tags[t].(parent := d)
    && (forall x :: x in tags && x != t ==> n[x].parent == tags[x].parent)
    && (forall x :: x in tags && x != o && x != d ==> n[x].children == tags[x].children)
    && (o != 0 ==> n[o].children == RemoveAll(tags[o].children, t))
    && (d != 0 ==> n[d].children == tags[d].children + [t])
  }

  /** The tag map after TagSetParent, entry by entry. */
  lemma ReparentState(s: LibState, t: nat, d: nat)
    requires t in s.tags.items && 0 !in s.tags.items
    requires var o := s.tags.items[t].parent; o != t && d != t && d != o && (o == 0 || o in s.tags.items)
    requires d == 0 || d in s.tags.items
    ensures Reparented(s.tags.items, Reparent(s, t, d).tags.items, t, s.tags.items[t].parent, d)
  {
    var tags, n := s.tags.items, Reparent(s, t, d).tags.items;
    forall x | x in tags
      ensures n[x] == if x == t then tags[t].(parent := d)
           else if x == tags[t].parent then tags[x].(children := RemoveAll(tags[x].children, t))
           else if x == d then tags[d].(children := tags[d].children + [t])
           else tags[x]
    {
      ReparentEntry(s, t, d, x);
    }
  }

  /** The item lists of every tag survive TagSetParent. */
  lemma ReparentItems(s: LibState, t: nat, d: nat)
    requires t in s.tags.items
    ensures var tags, n := s.tags.items, Reparent(s, t, d).tags.items;
      n.Keys == tags.Keys
      && forall x :: x in tags ==>
           n[x].songs == tags[x].songs && n[x].albums == tags[x].albums && n[x].artists == tags[x].artists
  {
  }

  /** The root list after TagSetParent. */
  lemma ReparentRootList(s: LibState, t: nat, d: nat)
    requires t in s.tags.items
    ensures var o := s.tags.items[t].parent;
      var roots1 := if o == 0 then RemoveAll(s.rootTags, t) else s.rootTags;
      Reparent(s, t, d).rootTags == if d == 0 then roots1 + [t] else roots1
  {
  }

  lemma ReparentRoots(s: LibState, t: nat, d: nat)
    requires RootsListed(s.tags.items, s.rootTags) && 0 !in s.tags.items && t in s.tags.items
    requires var o := s.tags.items[t].parent; o != t && d != t && d != o && (o == 0 || o in s.tags.items)
    requires d == 0 || d in s.tags.items
    ensures RootsListed(Reparent(s, t, d).tags.items, Reparent(s, t, d).rootTags)
  {
    ReparentState(s, t, d);
    ReparentRootList(s, t, d);
  }

  /** A child other than t keeps naming the parent that lists it. */
  lemma KeptChildNamesParent(tags: map<nat, Tag>, n: map<nat, Tag>, t: nat, o: nat, d: nat, x: nat, c: nat)
    requires ChildrenNameParent(tags) && Reparented(tags, n, t, o, d)
    requires x in tags && c in tags[x].children && c != t
    ensures c in n && n[c].parent == x
  {
  }

  /** One child listed after re-parenting t from o to d names its parent. */
  lemma ReparentNameParentAt(tags: map<nat, Tag>, n: map<nat, Tag>, t: nat, o: nat, d: nat, x: nat, c: nat)
    requires ChildrenNameParent(tags) && 0 !in tags && d != o && Reparented(tags, n, t, o, d)
    requires x in n && c in n[x].children
    ensures c in n && n[c].parent == x
  {
    if x == d && c == t {
    } else {
      if x == d {
        assert c in tags[d].children + [t];
      } else if x == o {
        assert c in RemoveAll(tags[o].children, t);
      } else {
        assert n[x].children == tags[x].children;
      }
      KeptChildNamesParent(tags, n, t, o, d, x, c);
    }
  }

  /** Child lists that follow one re-parenting of t from o to d still name their parents. */
  lemma ReparentNameParent(tags: map<nat, Tag>, n: map<nat, Tag>, t: nat, o: nat, d: nat)
    requires ChildrenNameParent(tags) && 0 !in tags && d != o && Reparented(tags, n, t, o, d)
    ensures ChildrenNameParent(n)
  {
    forall x, c | x in n && c in n[x].children
      ensures c in n && n[c].parent == x
    {
      ReparentNameParentAt(tags, n, t, o, d, x, c);
    }
  }

  /** Every tag with a parent is listed by it after re-parenting t from o to d. */
  lemma ReparentListsChild(tags: map<nat, Tag>, n: map<nat, Tag>, t: nat, o: nat, d: nat)
    requires ParentListsChild(tags) && 0 !in tags && d != t && d != o && Reparented(tags, n, t, o, d)
    ensures ParentListsChild(n)
  {
    forall x | x in n && n[x].parent != 0
      ensures n[x].parent in n && x in n[n[x].parent].children
    {
      if x != t {
        var q := tags[x].parent;
        assert x in tags[q].children;
        if q == d {
          assert x in tags[d].children + [t];
        } else if q == o {
          assert x in RemoveAll(tags[o].children, t);
        } else {
          assert n[q].children == tags[q].children;
        }
      }
    }
  }

  lemma ReparentChildren(s: LibState, t: nat, d: nat)
    requires ChildrenAgree(s.tags.items) && 0 !in s.tags.items && t in s.tags.items
    requires var o := s.tags.items[t].parent; o != t && d != t && d != o
    requires d == 0 || d in s.tags.items
    ensures ChildrenAgree(Reparent(s, t, d).tags.items)
  {
    ReparentState(s, t, d);
    ReparentNameParent(s.tags.items, Reparent(s, t, d).tags.items, t, s.tags.items[t].parent, d);
    ReparentListsChild(s.tags.items, Reparent(s, t, d).tags.items, t, s.tags.items[t].parent, d);
  }
}
