/** Deleting a knowledge base with all its nodes. */
module KnowledgeBaseService {
  import opened Text
  import opened SessionRegistry
  import opened KnowledgeTree
  import opened KnowledgeTreeService

  /** The nodes of a knowledge base. */
  ghost function BaseNodes(nodes: Nodes, kbId: Id): set<Id> {
    set id | id in nodes && nodes[id].kbId == kbId
  }

  /** A node whose parent, if it is stored, lies outside the base. */
  predicate IsRootOf(nodes: Nodes, kbId: Id, id: Id)
    requires id in nodes
  {
    var p := nodes[id].parentId;
    nodes[id].kbId == kbId && !(p.Some? && p.value != "" && p.value in nodes && nodes[p.value].kbId == kbId)
  }

  /** Children are stored in the base of their parent. */
  ghost predicate BasesAreClosed(nodes: Nodes) {
    forall id <- nodes :: ParentIn(nodes, id).Some? ==> nodes[ParentIn(nodes, id).value].kbId == nodes[id].kbId
  }

  /** No node has the empty string for its identifier; the service takes it for "no parent". */
  ghost predicate IdsAreProper(nodes: Nodes) {
    "" !in nodes
  }

  lemma {:induction false} AncestorSameBase(nodes: Nodes, id: Id, k: nat, a: Id)
    requires BasesAreClosed(nodes) && id in nodes && Ancestor(nodes, id, k) == Some(a)
    ensures a in nodes && nodes[a].kbId == nodes[id].kbId
  {
    if k > 0 {
      AncestorSameBase(nodes, id, k - 1, Ancestor(nodes, id, k - 1).value);
    }
  }

  lemma UnderSameBase(nodes: Nodes, id: Id, a: Id)
    requires BasesAreClosed(nodes) && id in nodes && Under(nodes, id, a)
    ensures a in nodes && nodes[a].kbId == nodes[id].kbId
  {
    var k: nat :| Ancestor(nodes, id, k) == Some(a);
    AncestorSameBase(nodes, id, k, a);
  }

  /** Every node of a base lies below one of its roots. */
  lemma {:induction false} BelowSomeRoot(nodes: Nodes, rank: map<Id, nat>, kbId: Id, id: Id) returns (root: Id)
    requires Ranked(nodes, rank) && BasesAreClosed(nodes) && IdsAreProper(nodes)
    requires id in nodes && nodes[id].kbId == kbId
    ensures root in nodes && IsRootOf(nodes, kbId, root) && Under(nodes, id, root)
    decreases MaxRank(rank) - rank[id]
  {
    if IsRootOf(nodes, kbId, id) {
      root := id;
      UnderSelf(nodes, id);
    } else {
      var p := nodes[id].parentId.value;
      assert ParentIn(nodes, id) == Some(p);
      root := BelowSomeRoot(nodes, rank, kbId, p);
      UnderSteps(nodes, id, root);
    }
  }

  ghost predicate ListsRoots(nodes: Nodes, kbId: Id, roots: seq<Id>) {
    Distinct(roots) && forall id: Id :: id in roots <==> id in nodes && IsRootOf(nodes, kbId, id)
  }

  lemma RootHasNoParent(nodes: Nodes, kbId: Id, root: Id)
    requires BasesAreClosed(nodes) && IdsAreProper(nodes) && root in nodes && IsRootOf(nodes, kbId, root)
    ensures ParentIn(nodes, root).None?
  {
  }

  /** The next root is still there when its turn comes. */
  lemma NextRootIsThere(nodes: Nodes, kbId: Id, roots: seq<Id>, n: nat, gone: set<Id>)
    requires BasesAreClosed(nodes) && IdsAreProper(nodes) && ListsRoots(nodes, kbId, roots)
    requires n < |roots| && GoneWith(nodes, roots, n, gone)
    ensures roots[n] in nodes && roots[n] !in gone && nodes[roots[n]].kbId == kbId
  {
    var root := roots[n];
    assert root in roots;
    RootHasNoParent(nodes, kbId, root);
    forall j | 0 <= j < n ensures !Under(nodes, root, roots[j]) {
      UnderSteps(nodes, root, roots[j]);
    }
  }

  /** The subtrees of the roots are the whole base. */
  lemma RootsCoverBase(nodes: Nodes, rank: map<Id, nat>, kbId: Id, roots: seq<Id>, gone: set<Id>)
    requires Ranked(nodes, rank) && BasesAreClosed(nodes) && IdsAreProper(nodes)
    requires ListsRoots(nodes, kbId, roots) && GoneWith(nodes, roots, |roots|, gone)
    ensures gone == BaseNodes(nodes, kbId)
  {
    forall id | id in nodes ensures id in gone <==> nodes[id].kbId == kbId {
      if id in gone {
        var j :| 0 <= j < |roots| && Under(nodes, id, roots[j]);
        assert roots[j] in roots;
        UnderSameBase(nodes, id, roots[j]);
      }
      if nodes[id].kbId == kbId {
        var root := BelowSomeRoot(nodes, rank, kbId, id);
        var j :| 0 <= j < |roots| && roots[j] == root;
        assert Under(nodes, id, roots[j]);
      }
    }
  }

  /** Nothing below a node of a free base is in use. */
  lemma FreeBaseFreesSubtrees(nodes: Nodes, gone: set<Id>, r: Registry, kbOf: Id -> Id, kbId: Id, top: Id)
    requires BasesAreClosed(nodes) && DownClosed(nodes, gone) && Agrees(r, kbOf) && !HasSessionInKb(r, kbId)
    requires forall id <- nodes :: kbOf(id) == nodes[id].kbId
    requires top in nodes && top !in gone && nodes[top].kbId == kbId
    ensures !InUse(r, Subtree(nodes - gone, top))
  {
    FreeBaseHasFreeNodes(r, kbOf, kbId);
    forall id | id in Subtree(nodes - gone, top) ensures !HasSession(r, id) {
      UnderSurvives(nodes, gone, id, top);
      UnderSameBase(nodes, id, top);
    }
  }

  lemma NeverRefusedWhenSkipped(nodes: Nodes, ids: set<Id>, refused: set<string>)
    ensures !AnyRefused(nodes, ids, refused, true)
  {
  }

  class BaseService {
    const tree: TreeService
    const registry: DocumentSessionRegistry
    var bases: map<Id, string>

    constructor (tree: TreeService, registry: DocumentSessionRegistry, bases: map<Id, string>)
      ensures this.tree == tree && this.registry == registry && this.bases == bases
    {
      this.tree, this.registry, this.bases := tree, registry, bases;
    }

    /** The nodes of the base whose parent is not among them, in whatever order they are found. */
    method FindRoots(kbId: Id) returns (roots: seq<Id>)
      ensures ListsRoots(tree.nodes, kbId, roots)
    {
      roots := [];
      var left := set id | id in tree.nodes && IsRootOf(tree.nodes, kbId, id);
      while left != {}
        invariant Distinct(roots)
        invariant forall id <- roots :: id !in left
        invariant forall id: Id :: id in roots || id in left <==> id in tree.nodes && IsRootOf(tree.nodes, kbId, id)
        decreases |left|
      {
        var id :| id in left;
        roots := roots + [id];
        left := left - {id};
      }
    }

    /** Deletes a knowledge base: first its resources in the engine, then its nodes, root by root.
        Once the lock check has passed and the engine has answered, nothing can fail any more, and
        exactly the nodes and drafts of the base are gone. */
    method Remove(kbId: Id, refused: set<string>, ghost rank: map<Id, nat>, ghost kbOf: Id -> Id)
      returns (outcome: Outcome)
      requires Ranked(tree.nodes, rank) && BasesAreClosed(tree.nodes) && IdsAreProper(tree.nodes)
      requires Agrees(registry.State(), kbOf)
      requires forall id <- tree.nodes :: kbOf(id) == tree.nodes[id].kbId
      modifies this`bases, tree
      ensures outcome == NotFound <==> kbId !in old(bases)
      ensures outcome == Locked <==> kbId in old(bases) && HasSessionInKb(registry.State(), kbId)
      ensures outcome == EngineFailed <==>
                && kbId in old(bases) && !HasSessionInKb(registry.State(), kbId)
                && old(bases)[kbId] != "" && old(bases)[kbId] in refused
      ensures outcome == Done ==>
                var gone := BaseNodes(old(tree.nodes), kbId);
                && tree.nodes == old(tree.nodes) - gone
                && tree.drafts == old(tree.drafts) - gone
                && bases == old(bases) - {kbId}
      ensures outcome != Done ==>
                tree.nodes == old(tree.nodes) && tree.drafts == old(tree.drafts) && bases == old(bases)
    {
      hide *;
      if kbId !in bases {
        return NotFound;
      }
      var locked := registry.HasActiveSessionInKb(kbId);
      if locked {
        return Locked;
      }
      var roots := FindRoots(kbId);
      if bases[kbId] != "" && bases[kbId] in refused {
        return EngineFailed;
      }
      ghost var before := tree.nodes;
      ghost var gone: set<Id> := {};
      NothingGone(tree.nodes, tree.drafts, roots, tree.requests, true, tree.trace);
      for i := 0 to |roots|
        invariant tree.nodes == before - gone && tree.drafts == old(tree.drafts) - gone
        invariant bases == old(bases)
        invariant GoneWith(before, roots, i, gone) && DownClosed(before, gone)
      {
        NextRootIsThere(before, kbId, roots, i, gone);
        RemoveKeepsRank(before, gone, rank);
        FreeBaseFreesSubtrees(before, gone, registry.State(), kbOf, kbId, roots[i]);
        NeverRefusedWhenSkipped(before - gone, Subtree(before - gone, roots[i]), refused);
        var removed;
        ghost var more;
        removed, more := tree.Remove(roots[i], registry, refused, true, rank);
        assert removed == Done;
        NextChildGone(before, roots, i, gone);
        BothDownClosed(before, gone, more);
        assert before - gone - more == before - (gone + more);
        gone := gone + more;
      }
      RootsCoverBase(before, rank, kbId, roots, gone);
      bases := bases - {kbId};
      return Done;
    }
  }
}
