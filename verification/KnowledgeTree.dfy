/** The knowledge forest: parent-linked nodes, their drafts, and deletion in post-order. */
module KnowledgeTree {
  import opened Text
  import opened SessionRegistry

  datatype Kind = Collection | Document

  datatype Node = Node(parentId: Option<Id>, kbId: Id, name: string, path: Option<string>, kind: Kind,
                       vikingUri: Option<string>, contentUri: Option<string>)

  type Nodes = map<Id, Node>

  // ---- Ancestors ----

  /** The parent of a node, if it is stored. */
  function ParentIn(nodes: Nodes, id: Id): Option<Id> {
    if id in nodes && nodes[id].parentId.Some? && nodes[id].parentId.value in nodes then nodes[id].parentId
    else None
  }

  /** The node `k` steps up from a node. */
  function Ancestor(nodes: Nodes, id: Id, k: nat): Option<Id> {
    if k == 0 then (if id in nodes then Some(id) else None)
    else
      match Ancestor(nodes, id, k - 1)
      case Some(a) => ParentIn(nodes, a)
      case None => None
  }

  /** `id` is `top` or one of its descendants. */
  ghost predicate Under(nodes: Nodes, id: Id, top: Id) {
    exists k: nat :: Ancestor(nodes, id, k) == Some(top)
  }

  ghost function Subtree(nodes: Nodes, top: Id): set<Id> {
    set id | id in nodes && Under(nodes, id, top)
  }

  /** Ranks that drop from every parent to its children. */
  ghost predicate Ranked(nodes: Nodes, rank: map<Id, nat>) {
    && nodes.Keys <= rank.Keys
    && forall id <- nodes :: ParentIn(nodes, id).Some? ==> rank[ParentIn(nodes, id).value] > rank[id]
  }

  /** The stored nodes form a forest. */
  ghost predicate Acyclic(nodes: Nodes) {
    exists rank: map<Id, nat> :: Ranked(nodes, rank)
  }

  function Children(nodes: Nodes, id: Id): set<Id> {
    set c | c in nodes && nodes[c].parentId == Some(id)
  }

  lemma UnderSelf(nodes: Nodes, id: Id)
    requires id in nodes
    ensures Under(nodes, id, id)
  {
    assert Ancestor(nodes, id, 0) == Some(id);
  }

  lemma {:induction false} AncestorAdd(nodes: Nodes, id: Id, i: nat, mid: Id, j: nat)
    requires Ancestor(nodes, id, i) == Some(mid)
    ensures Ancestor(nodes, id, i + j) == Ancestor(nodes, mid, j)
    ensures mid in nodes
  {
    if j > 0 {
      AncestorAdd(nodes, id, i, mid, j - 1);
    }
  }

  lemma UnderTransitive(nodes: Nodes, a: Id, b: Id, c: Id)
    requires Under(nodes, a, b) && Under(nodes, b, c)
    ensures Under(nodes, a, c)
  {
    var i: nat :| Ancestor(nodes, a, i) == Some(b);
    var j: nat :| Ancestor(nodes, b, j) == Some(c);
    AncestorAdd(nodes, a, i, b, j);
  }

  /** Two ancestors of a node lie on one path. */
  lemma AncestorsAreOrdered(nodes: Nodes, id: Id, a: Id, b: Id)
    requires Under(nodes, id, a) && Under(nodes, id, b)
    ensures Under(nodes, a, b) || Under(nodes, b, a)
  {
    var i: nat :| Ancestor(nodes, id, i) == Some(a);
    var j: nat :| Ancestor(nodes, id, j) == Some(b);
    if i <= j {
      AncestorAdd(nodes, id, i, a, j - i);
    } else {
      AncestorAdd(nodes, id, j, b, i - j);
    }
  }

  lemma {:induction false} AncestorRank(nodes: Nodes, rank: map<Id, nat>, id: Id, k: nat, a: Id)
    requires Ranked(nodes, rank) && id in nodes && Ancestor(nodes, id, k) == Some(a)
    ensures a in nodes && rank[a] >= rank[id] + k
  {
    if k > 0 {
      AncestorRank(nodes, rank, id, k - 1, Ancestor(nodes, id, k - 1).value);
    }
  }

  lemma UnderRank(nodes: Nodes, rank: map<Id, nat>, id: Id, a: Id)
    requires Ranked(nodes, rank) && id in nodes && Under(nodes, id, a)
    ensures a in nodes && rank[a] >= rank[id] && (a != id ==> rank[a] > rank[id])
  {
    var k: nat :| Ancestor(nodes, id, k) == Some(a);
    AncestorRank(nodes, rank, id, k, a);
  }

  /** A node below `top` is `top` itself, or its parent is below `top`. */
  lemma UnderSteps(nodes: Nodes, id: Id, top: Id)
    requires id in nodes
    ensures Under(nodes, id, top)
       <==> (id == top || (ParentIn(nodes, id).Some? && Under(nodes, ParentIn(nodes, id).value, top)))
  {
    if Under(nodes, id, top) {
      var k: nat :| Ancestor(nodes, id, k) == Some(top);
      if k > 0 {
        var p := ParentIn(nodes, id);
        assert Ancestor(nodes, id, 0) == Some(id);
        if p.None? {
          NoAncestorAbove(nodes, id, k);
          assert false;
        }
        assert Ancestor(nodes, id, 1) == p;
        AncestorAdd(nodes, id, 1, p.value, k - 1);
      }
    }
    if id == top {
      UnderSelf(nodes, id);
    } else if ParentIn(nodes, id).Some? && Under(nodes, ParentIn(nodes, id).value, top) {
      var p := ParentIn(nodes, id).value;
      assert Ancestor(nodes, id, 0) == Some(id);
      assert Ancestor(nodes, id, 1) == Some(p);
      UnderTransitive(nodes, id, p, top);
    }
  }

  lemma {:induction false} NoAncestorAbove(nodes: Nodes, id: Id, k: nat)
    requires k > 0 && ParentIn(nodes, id).None?
    ensures Ancestor(nodes, id, k).None?
  {
    if k > 1 {
      NoAncestorAbove(nodes, id, k - 1);
    }
  }

  /** A subtree is its top and the subtrees of the children of the top. */
  lemma SubtreeUnfolds(nodes: Nodes, top: Id, id: Id)
    requires top in nodes && id in nodes
    ensures Under(nodes, id, top) <==> id == top || exists c <- Children(nodes, top) :: Under(nodes, id, c)
  {
    if Under(nodes, id, top) {
      var k: nat :| Ancestor(nodes, id, k) == Some(top);
      if k > 0 {
        var c := Ancestor(nodes, id, k - 1).value;
        AncestorAdd(nodes, id, k - 1, c, 0);
        assert c in Children(nodes, top) && Under(nodes, id, c);
      }
    }
    if id == top {
      UnderSelf(nodes, id);
    } else if c :| c in Children(nodes, top) && Under(nodes, id, c) {
      UnderSelf(nodes, top);
      UnderSteps(nodes, c, top);
      UnderTransitive(nodes, id, c, top);
    }
  }

  /** The subtrees of two children of one node have nothing in common. */
  lemma SiblingsAreApart(nodes: Nodes, rank: map<Id, nat>, top: Id, a: Id, b: Id, id: Id)
    requires Ranked(nodes, rank) && top in nodes && id in nodes
    requires a in Children(nodes, top) && b in Children(nodes, top) && a != b
    ensures !(Under(nodes, id, a) && Under(nodes, id, b))
  {
    if Under(nodes, id, a) && Under(nodes, id, b) {
      AncestorsAreOrdered(nodes, id, a, b);
      if Under(nodes, a, b) {
        UnderSteps(nodes, a, b);
        UnderRank(nodes, rank, top, b);
      } else {
        UnderSteps(nodes, b, a);
        UnderRank(nodes, rank, top, a);
      }
      assert false;
    }
  }

  // ---- Taking whole subtrees out ----

  /** With every node in the set, the set contains its children. */
  ghost predicate DownClosed(nodes: Nodes, gone: set<Id>) {
    forall id <- nodes :: ParentIn(nodes, id).Some? && ParentIn(nodes, id).value in gone ==> id in gone
  }

  lemma SubtreeIsDownClosed(nodes: Nodes, top: Id)
    ensures DownClosed(nodes, Subtree(nodes, top))
  {
    forall id | id in nodes && ParentIn(nodes, id).Some? && ParentIn(nodes, id).value in Subtree(nodes, top)
      ensures id in Subtree(nodes, top)
    {
      UnderSteps(nodes, id, top);
    }
  }

  lemma {:induction false} AncestorsSurvive(nodes: Nodes, gone: set<Id>, id: Id, k: nat)
    requires DownClosed(nodes, gone) && id in nodes && id !in gone
    ensures Ancestor(nodes - gone, id, k) == Ancestor(nodes, id, k)
    ensures Ancestor(nodes, id, k).Some? ==> Ancestor(nodes, id, k).value in nodes - gone
  {
    if k > 0 {
      AncestorsSurvive(nodes, gone, id, k - 1);
    }
  }

  /** Taking a down-closed set out does not change who is below whom among the rest. */
  lemma UnderSurvives(nodes: Nodes, gone: set<Id>, id: Id, top: Id)
    requires DownClosed(nodes, gone) && id in nodes && id !in gone
    ensures Under(nodes - gone, id, top) <==> Under(nodes, id, top)
  {
    forall k: nat ensures Ancestor(nodes - gone, id, k) == Ancestor(nodes, id, k) {
      AncestorsSurvive(nodes, gone, id, k);
    }
  }

  lemma RemoveKeepsRank(nodes: Nodes, gone: set<Id>, rank: map<Id, nat>)
    requires Ranked(nodes, rank)
    ensures Ranked(nodes - gone, rank)
  {
    var left := nodes - gone;
    forall id | id in left && ParentIn(left, id).Some? ensures rank[ParentIn(left, id).value] > rank[id] {
      assert ParentIn(nodes, id) == ParentIn(left, id);
    }
  }

  // ---- Moving a node ----

  function Moved(nodes: Nodes, id: Id, parentId: Option<Id>): Nodes
    requires id in nodes
  {
    nodes[id := nodes[id].(parentId := parentId)]
  }

  /** Below another node, a move of `id` changes nothing on a path that does not go above `id`. */
  lemma {:induction false} AncestorOfMoved(nodes: Nodes, id: Id, parentId: Option<Id>, n: Id, k: nat)
    requires id in nodes && n in nodes
    requires forall i: nat | i < k :: Ancestor(nodes, n, i) != Some(id)
    ensures Ancestor(Moved(nodes, id, parentId), n, k) == Ancestor(nodes, n, k)
  {
    if k > 0 {
      AncestorOfMoved(nodes, id, parentId, n, k - 1);
    }
  }

  lemma {:induction false} FirstVisit(nodes: Nodes, n: Id, k: nat, id: Id) returns (first: nat)
    requires Ancestor(nodes, n, k) == Some(id)
    ensures first <= k && Ancestor(nodes, n, first) == Some(id)
    ensures forall i: nat | i < first :: Ancestor(nodes, n, i) != Some(id)
  {
    if i: nat :| i < k && Ancestor(nodes, n, i) == Some(id) {
      first := FirstVisit(nodes, n, i, id);
    } else {
      first := k;
    }
  }

  lemma MoveUnderItselfIsCyclic(nodes: Nodes, id: Id, p: Id)
    requires id in nodes && p in nodes && Under(nodes, p, id)
    ensures !Acyclic(Moved(nodes, id, Some(p)))
  {
    var next := Moved(nodes, id, Some(p));
    var k: nat :| Ancestor(nodes, p, k) == Some(id);
    var first := FirstVisit(nodes, p, k, id);
    AncestorOfMoved(nodes, id, Some(p), p, first);
    assert ParentIn(next, id) == Some(p);
    if rank: map<Id, nat> :| Ranked(next, rank) {
      AncestorRank(next, rank, p, first, id);
      assert false;
    }
  }

  ghost function MaxRank(rank: map<Id, nat>): (m: nat)
    ensures forall id <- rank :: rank[id] <= m
    decreases |rank|
  {
    if rank == map[] then 0
    else
      var id :| id in rank;
      assert rank == (rank - {id})[id := rank[id]];
      var m := MaxRank(rank - {id});
      Max(m, rank[id])
  }

  lemma MoveElsewhereIsAcyclic(nodes: Nodes, id: Id, parentId: Option<Id>, rank: map<Id, nat>)
    requires Ranked(nodes, rank) && id in nodes
    requires !(parentId.Some? && parentId.value in nodes && Under(nodes, parentId.value, id))
    ensures Acyclic(Moved(nodes, id, parentId))
  {
    var next := Moved(nodes, id, parentId);
    var lift := MaxRank(rank) + 1;
    var lifted := map n | n in nodes :: if Under(nodes, n, id) then rank[n] else rank[n] + lift;
    forall n | n in next && ParentIn(next, n).Some? ensures lifted[ParentIn(next, n).value] > lifted[n] {
      var q := ParentIn(next, n).value;
      if n == id {
        UnderSelf(nodes, id);
        assert q == parentId.value;
      } else {
        assert ParentIn(nodes, n) == Some(q);
        UnderSteps(nodes, n, id);
      }
    }
    assert Ranked(next, lifted);
  }

  /** Moving a node keeps the forest a forest exactly when the new parent is not in the subtree
      that is moved. The service does not check this: it stores whatever parent it is given. */
  lemma MoveKeepsForestIff(nodes: Nodes, id: Id, parentId: Option<Id>)
    requires Acyclic(nodes) && id in nodes
    ensures Acyclic(Moved(nodes, id, parentId))
       <==> !(parentId.Some? && parentId.value in nodes && Under(nodes, parentId.value, id))
  {
    if parentId.Some? && parentId.value in nodes && Under(nodes, parentId.value, id) {
      MoveUnderItselfIsCyclic(nodes, id, parentId.value);
    } else {
      var rank: map<Id, nat> :| Ranked(nodes, rank);
      MoveElsewhereIsAcyclic(nodes, id, parentId, rank);
    }
  }

  // ---- What a move does to the subtrees ----

  lemma {:induction false} SameParentsSameAncestors(a: Nodes, b: Nodes, n: Id, k: nat)
    requires a.Keys == b.Keys && forall m: Id :: ParentIn(a, m) == ParentIn(b, m)
    ensures Ancestor(a, n, k) == Ancestor(b, n, k)
  {
    if k > 0 {
      SameParentsSameAncestors(a, b, n, k - 1);
    }
  }

  lemma SameParentsSameSubtrees(a: Nodes, b: Nodes, top: Id)
    requires a.Keys == b.Keys && forall m: Id :: ParentIn(a, m) == ParentIn(b, m)
    ensures Subtree(a, top) == Subtree(b, top)
  {
    hide ParentIn;
    forall n: Id, k: nat ensures Ancestor(a, n, k) == Ancestor(b, n, k) {
      SameParentsSameAncestors(a, b, n, k);
    }
  }

  lemma OutsideIsUnmoved(nodes: Nodes, id: Id, parentId: Option<Id>, n: Id, top: Id)
    requires id in nodes && n in nodes && !Under(nodes, n, id)
    ensures Under(Moved(nodes, id, parentId), n, top) <==> Under(nodes, n, top)
  {
    forall k: nat ensures Ancestor(Moved(nodes, id, parentId), n, k) == Ancestor(nodes, n, k) {
      AncestorOfMoved(nodes, id, parentId, n, k);
    }
  }

  /** The new parent is stored, and is `top` or below it. */
  ghost predicate MovesBelow(nodes: Nodes, parentId: Option<Id>, top: Id) {
    parentId.Some? && parentId.value in nodes && Under(nodes, parentId.value, top)
  }

  lemma {:induction false} InsideIsMoved(nodes: Nodes, rank: map<Id, nat>, id: Id, parentId: Option<Id>,
                                         n: Id, k: nat, top: Id)
    requires Ranked(nodes, rank) && id in nodes && n in nodes && top in nodes
    requires Ancestor(nodes, n, k) == Some(id) && !MovesBelow(nodes, parentId, id)
    ensures Under(Moved(nodes, id, parentId), n, top)
       <==> (Under(nodes, n, top) && Under(nodes, top, id)) || MovesBelow(nodes, parentId, top)
    decreases k
  {
    hide Ranked, Under;
    var next := Moved(nodes, id, parentId);
    UnderSteps(next, n, top);
    UnderSteps(nodes, n, top);
    AncestorIsUnder(nodes, n, k, id);
    if n == id {
      if Under(nodes, id, top) && Under(nodes, top, id) {
        UnderRank(nodes, rank, id, top);
        UnderRank(nodes, rank, top, id);
      }
      UnderSelf(nodes, id);
      if parentId.Some? && parentId.value in nodes {
        OutsideIsUnmoved(nodes, id, parentId, parentId.value, top);
      }
    } else {
      assert Ancestor(nodes, n, 0) == Some(n);
      UnderSteps(nodes, n, id);
      var q := ParentIn(nodes, n).value;
      assert Ancestor(nodes, n, 1) == Some(q);
      assert ParentIn(next, n) == Some(q);
      AncestorAdd(nodes, n, 1, q, k - 1);
      InsideIsMoved(nodes, rank, id, parentId, q, k - 1, top);
    }
  }

  lemma AncestorIsUnder(nodes: Nodes, n: Id, k: nat, top: Id)
    requires Ancestor(nodes, n, k) == Some(top)
    ensures Under(nodes, n, top)
  {
  }

  /** A move takes the subtree of `id` out of every subtree it was in, and grafts it as it is onto
      every subtree its new parent is in. Inside it nothing changes. */
  lemma MoveGrafts(nodes: Nodes, id: Id, parentId: Option<Id>, top: Id)
    requires Acyclic(nodes) && id in nodes && top in nodes && !MovesBelow(nodes, parentId, id)
    ensures Subtree(Moved(nodes, id, parentId), top)
         == if top in Subtree(nodes, id) then Subtree(nodes, top)
            else if MovesBelow(nodes, parentId, top) then Subtree(nodes, top) + Subtree(nodes, id)
            else Subtree(nodes, top) - Subtree(nodes, id)
  {
    hide Ranked, Under;
    var next := Moved(nodes, id, parentId);
    var rank: map<Id, nat> :| Ranked(nodes, rank);
    forall n | n in nodes
      ensures Under(next, n, top)
         <==> if Under(nodes, n, id)
              then (Under(nodes, n, top) && Under(nodes, top, id)) || MovesBelow(nodes, parentId, top)
              else Under(nodes, n, top)
    {
      if Under(nodes, n, id) {
        var k := StepsUp(nodes, n, id);
        InsideIsMoved(nodes, rank, id, parentId, n, k, top);
      } else {
        OutsideIsUnmoved(nodes, id, parentId, n, top);
      }
    }
    if Under(nodes, top, id) {
      forall n | n in nodes && Under(nodes, n, top) ensures Under(nodes, n, id) {
        UnderTransitive(nodes, n, top, id);
      }
      NotBelowInside(nodes, id, parentId, top);
    }
  }

  /** A new parent outside the subtree of `id` is outside every subtree in it. */
  lemma NotBelowInside(nodes: Nodes, id: Id, parentId: Option<Id>, top: Id)
    requires !MovesBelow(nodes, parentId, id) && Under(nodes, top, id)
    ensures !MovesBelow(nodes, parentId, top)
  {
    hide Under;
    if MovesBelow(nodes, parentId, top) {
      UnderTransitive(nodes, parentId.value, top, id);
    }
  }

  lemma StepsUp(nodes: Nodes, n: Id, top: Id) returns (k: nat)
    requires Under(nodes, n, top)
    ensures Ancestor(nodes, n, k) == Some(top)
  {
    k :| Ancestor(nodes, n, k) == Some(top);
  }

  /** Subtrees of nodes neither above nor below each other have nothing in common. */
  lemma SubtreesApart(nodes: Nodes, a: Id, b: Id)
    requires !Under(nodes, a, b) && !Under(nodes, b, a)
    ensures Subtree(nodes, a) !! Subtree(nodes, b)
  {
    forall n | n in nodes && Under(nodes, n, a) ensures !Under(nodes, n, b) {
      if Under(nodes, n, b) {
        AncestorsAreOrdered(nodes, n, a, b);
      }
    }
  }
}
