// The tag hierarchy seen as a map from each tag id to its parent id (0 is
// "no parent"). A parent lookup that finds no tag yields 0, as the ancestor
// walk of Library::commit does (src/shared/library.cpp:296-302).
module TagForest {

  /** One step up: the parent of id, or 0 when id is not a tag. */
  function Step(p: map<nat, nat>, id: nat): nat
  {
    if id in p then p[id] else 0
  }

  /** The id reached after n steps up, stopping at 0. */
  function Walk(p: map<nat, nat>, id: nat, n: nat): nat
    decreases n
  {
    if n == 0 || id == 0 then id else Walk(p, Step(p, id), n - 1)
  }

  /** Following the parents from id ends at 0. */
  ghost predicate ReachesRoot(p: map<nat, nat>, id: nat)
  {
    exists n: nat :: Walk(p, id, n) == 0
  }

  /** No tag is its own ancestor: every chain of parents ends at 0. */
  ghost predicate Acyclic(p: map<nat, nat>)
  {
    forall t :: t in p ==> ReachesRoot(p, t)
  }

  /** Every parent is 0 or a tag. */
  ghost predicate ParentsClosed(p: map<nat, nat>)
  {
    forall t :: t in p ==> p[t] == 0 || p[t] in p
  }

  /** The chain from id reaches 0 within n steps without passing through t. */
  ghost predicate ChainAvoids(p: map<nat, nat>, id: nat, t: nat, n: nat)
  {
    Walk(p, id, n) == 0 && forall k :: 0 <= k <= n ==> Walk(p, id, k) != t
  }

  /** Walking n + 1 steps is one step followed by n steps. */
  lemma WalkUnfold(p: map<nat, nat>, id: nat, n: nat)
    requires id != 0
    ensures Walk(p, id, n + 1) == Walk(p, Step(p, id), n)
  {
  }

  /** Two parent maps that step alike everywhere but at t walk alike until the chain meets t. */
  lemma {:induction false} WalkSameWhileAvoiding(p: map<nat, nat>, p': map<nat, nat>, t: nat, u: nat, n: nat)
    requires forall x :: x != t ==> Step(p', x) == Step(p, x)
    requires forall k :: 0 <= k < n ==> Walk(p, u, k) != t
    ensures Walk(p', u, n) == Walk(p, u, n)
    decreases n
  {
    if n == 0 || u == 0 {
    } else {
      assert Walk(p, u, 0) == u;
      forall k | 0 <= k < n - 1
        ensures Walk(p, Step(p, u), k) != t
      {
        WalkUnfold(p, u, k);
      }
      WalkSameWhileAvoiding(p, p', t, Step(p, u), n - 1);
    }
  }

  /**
   * Re-parenting t under q keeps u's chain finite when u's old chain was
   * finite and q's chain ends at 0 without passing through t.
   */
  lemma {:induction false} ReachesAfterSet(p: map<nat, nat>, t: nat, q: nat, m: nat, u: nat, n: nat)
    requires t != 0
    requires ChainAvoids(p, q, t, m)
    requires Walk(p, u, n) == 0
    ensures ReachesRoot(p[t := q], u)
    decreases n
  {
    var p' := p[t := q];
    forall x | x != t ensures Step(p', x) == Step(p, x) { }
    if u == 0 {
      assert Walk(p', u, 0) == 0;
    } else if u == t {
      WalkSameWhileAvoiding(p, p', t, q, m);
      WalkUnfold(p', t, m);
      assert Walk(p', u, m + 1) == 0;
    } else {
      assert n != 0;
      WalkUnfold(p, u, n - 1);
      ReachesAfterSet(p, t, q, m, Step(p, u), n - 1);
      var n': nat :| Walk(p', Step(p, u), n') == 0;
      WalkUnfold(p', u, n');
      assert Walk(p', u, n' + 1) == 0;
    }
  }

  /** Setting an existing tag's parent to q keeps the forest acyclic when q's chain avoids the tag. */
  lemma SetParentKeepsAcyclic(p: map<nat, nat>, t: nat, q: nat, m: nat)
    requires Acyclic(p) && t != 0 && t in p
    requires ChainAvoids(p, q, t, m)
    ensures Acyclic(p[t := q])
  {
    var p' := p[t := q];
    forall u | u in p'
      ensures ReachesRoot(p', u)
    {
      var n: nat :| Walk(p, u, n) == 0;
      ReachesAfterSet(p, t, q, m, u, n);
    }
  }

  /** In a closed map every chain from 0 or a tag stays on 0 or tags. */
  lemma {:induction false} WalkStaysInKeys(p: map<nat, nat>, u: nat, n: nat)
    requires ParentsClosed(p)
    requires u == 0 || u in p
    ensures Walk(p, u, n) == 0 || Walk(p, u, n) in p
    decreases n
  {
    if n != 0 && u != 0 {
      WalkStaysInKeys(p, Step(p, u), n - 1);
    }
  }

  /** Adding a fresh tag under 0 or an existing tag keeps the forest acyclic and closed. */
  lemma AddFreshKeepsAcyclic(p: map<nat, nat>, f: nat, q: nat)
    requires Acyclic(p) && ParentsClosed(p)
    requires f != 0 && f !in p
    requires q == 0 || q in p
    ensures Acyclic(p[f := q]) && ParentsClosed(p[f := q])
  {
    var m: nat := 0;
    if q != 0 {
      m :| Walk(p, q, m) == 0;
    }
    forall k | 0 <= k <= m ensures Walk(p, q, k) != f {
      WalkStaysInKeys(p, q, k);
    }
    var p' := p[f := q];
    forall u | u in p'
      ensures ReachesRoot(p', u)
    {
      if u == f {
        assert Walk(p, u, 1) == 0;
        ReachesAfterSet(p, f, q, m, u, 1);
      } else {
        var n: nat :| Walk(p, u, n) == 0;
        ReachesAfterSet(p, f, q, m, u, n);
      }
    }
  }

  /** When no tag names t as its parent, no chain starting elsewhere ever meets t. */
  lemma {:induction false} ChildlessNeverVisited(p: map<nat, nat>, t: nat, u: nat, n: nat)
    requires t != 0 && u != t
    requires forall x :: x in p ==> p[x] != t
    ensures Walk(p, u, n) != t
    decreases n
  {
    if n != 0 && u != 0 {
      ChildlessNeverVisited(p, t, Step(p, u), n - 1);
    }
  }

  /** Removing a tag that is nobody's parent keeps the forest acyclic and closed. */
  lemma RemoveLeafKeepsAcyclic(p: map<nat, nat>, t: nat)
    requires Acyclic(p) && ParentsClosed(p)
    requires t != 0
    requires forall x :: x in p ==> p[x] != t
    ensures Acyclic(p - {t}) && ParentsClosed(p - {t})
  {
    var p' := p - {t};
    forall x | x != t ensures Step(p', x) == Step(p, x) { }
    forall u | u in p'
      ensures ReachesRoot(p', u)
    {
      var n: nat :| Walk(p, u, n) == 0;
      forall k | 0 <= k < n ensures Walk(p, u, k) != t {
        ChildlessNeverVisited(p, t, u, k);
      }
      WalkSameWhileAvoiding(p, p', t, u, n);
    }
  }

  /** A tag that is its own parent walks in place forever. */
  lemma {:induction false} SelfParentStays(p: map<nat, nat>, t: nat, n: nat)
    requires t != 0 && t in p && p[t] == t
    ensures Walk(p, t, n) == t
    decreases n
  {
    if n > 0 {
      SelfParentStays(p, t, n - 1);
    }
  }

  /** In an acyclic forest no tag is its own parent. */
  lemma NoSelfParent(p: map<nat, nat>, t: nat)
    requires Acyclic(p) && t != 0 && t in p
    ensures p[t] != t
  {
    if p[t] == t {
      var n: nat :| Walk(p, t, n) == 0;
      SelfParentStays(p, t, n);
    }
  }

  /** Walking one step further than n is one more parent lookup, as the ancestor loop does it. */
  lemma {:induction false} WalkSnoc(p: map<nat, nat>, id: nat, n: nat)
    requires Walk(p, id, n) != 0
    ensures Walk(p, id, n + 1) == Step(p, Walk(p, id, n))
    decreases n
  {
    if n > 0 {
      WalkSnoc(p, Step(p, id), n - 1);
    }
  }

  /** Once a walk reaches 0 it stays there. */
  lemma {:induction false} WalkStaysAtRoot(p: map<nat, nat>, id: nat, k: nat, j: nat)
    requires Walk(p, id, k) == 0 && k <= j
    ensures Walk(p, id, j) == 0
    decreases k
  {
    if k > 0 && id != 0 {
      WalkStaysAtRoot(p, Step(p, id), k - 1, j - 1);
    }
  }
}
