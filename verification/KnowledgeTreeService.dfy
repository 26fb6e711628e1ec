/** Deleting nodes and whole knowledge bases from the store. */
module KnowledgeTreeService {
  import opened Text
  import opened SessionRegistry
  import opened KnowledgeTree

  datatype Outcome = Done | NotFound | Locked | EngineFailed

  /** A delete request that the engine has answered. */
  datatype Deletion = Deletion(uri: string, recursive: bool)

  /** Which nodes and which drafts are stored at one moment. */
  datatype Snapshot = Snapshot(nodes: set<Id>, drafts: set<Id>)

  predicate EndsWithSlash(uri: string) {
    uri != "" && uri[|uri| - 1] == '/'
  }

  predicate DeletesRecursively(node: Node) {
    || node.kind == Collection
    || (node.kind == Document && node.contentUri.Some? && node.contentUri.value != "")
    || (node.vikingUri.Some? && EndsWithSlash(node.vikingUri.value))
  }

  predicate HasResource(node: Node) {
    node.vikingUri.Some? && node.vikingUri.value != ""
  }

  /** The delete requests that belong to a set of nodes. */
  ghost function Deletions(nodes: Nodes, ids: set<Id>): set<Deletion> {
    set id | id in ids && id in nodes && HasResource(nodes[id]) ::
      Deletion(nodes[id].vikingUri.value, DeletesRecursively(nodes[id]))
  }

  /** A resource is deleted without what lies below it only if it is a file that belongs to a document
      without content of its own. */
  lemma OnlyPlainFilesAreDeletedAlone(nodes: Nodes, id: Id)
    requires id in nodes && HasResource(nodes[id])
    ensures var node := nodes[id]; var uri := node.vikingUri.value;
            Deletion(uri, false) in Deletions(nodes, {id})
            <==> node.kind == Document && (node.contentUri.None? || node.contentUri.value == "")
                 && uri[|uri| - 1] != '/'
  {
    assert Deletions(nodes, {id}) == {Deletion(nodes[id].vikingUri.value, DeletesRecursively(nodes[id]))} by {
      assert id in {id};
    }
  }

  ghost function Requests(log: seq<Deletion>): set<Deletion> {
    set d | d in log
  }

  /** A moment during a deletion that started from `nodes` and `drafts`: nobody has lost a parent
      that was stored, and no draft has lost its node. */
  ghost predicate Safe(nodes: Nodes, drafts: set<Id>, s: Snapshot) {
    && s.nodes <= nodes.Keys && s.drafts <= drafts
    && (forall id <- s.nodes :: ParentIn(nodes, id).Some? ==> ParentIn(nodes, id).value in s.nodes)
    && (forall id <- s.drafts :: id in nodes ==> id in s.nodes)
  }

  lemma SafeLater(nodes: Nodes, drafts: set<Id>, gone: set<Id>, s: Snapshot)
    requires DownClosed(nodes, gone) && Safe(nodes - gone, drafts - gone, s)
    ensures Safe(nodes, drafts, s)
  {
    forall id | id in s.nodes && ParentIn(nodes, id).Some? ensures ParentIn(nodes, id).value in s.nodes {
      assert ParentIn(nodes - gone, id) == ParentIn(nodes, id);
    }
  }

  lemma SafeWithout(nodes: Nodes, drafts: set<Id>, gone: set<Id>, draftsGone: set<Id>)
    requires DownClosed(nodes, gone) && gone <= draftsGone
    ensures Safe(nodes, drafts, Snapshot(nodes.Keys - gone, drafts - draftsGone))
  {
  }

  lemma DeletionsAdd(nodes: Nodes, gone: set<Id>, more: set<Id>)
    requires gone !! more
    ensures Deletions(nodes, gone + more) == Deletions(nodes, gone) + Deletions(nodes - gone, more)
  {
    hide DeletesRecursively;
    var left, right := Deletions(nodes, gone + more), Deletions(nodes, gone) + Deletions(nodes - gone, more);
    forall d | d in left ensures d in right {
      var id :| id in gone + more && id in nodes && HasResource(nodes[id])
             && d == Deletion(nodes[id].vikingUri.value, DeletesRecursively(nodes[id]));
      if id in more {
        assert (nodes - gone)[id] == nodes[id];
      }
    }
  }

  lemma RequestsAdd(a: seq<Deletion>, b: seq<Deletion>)
    ensures Requests(a + b) == Requests(a) + Requests(b)
  {
  }

  ghost predicate UnderSome(nodes: Nodes, children: seq<Id>, n: nat, id: Id)
    requires n <= |children|
  {
    exists j | 0 <= j < n :: Under(nodes, id, children[j])
  }

  lemma UnderOneMore(nodes: Nodes, children: seq<Id>, n: nat, id: Id)
    requires n < |children|
    ensures UnderSome(nodes, children, n + 1, id) <==> UnderSome(nodes, children, n, id) || Under(nodes, id, children[n])
  {
    hide Under;
    if UnderSome(nodes, children, n, id) {
      var j :| 0 <= j < n && Under(nodes, id, children[j]);
      assert 0 <= j < n + 1;
    }
  }

  /** What is gone after the first children: their subtrees. */
  ghost predicate GoneWith(nodes: Nodes, children: seq<Id>, n: nat, gone: set<Id>)
    requires n <= |children|
  {
    && gone <= nodes.Keys
    && forall id <- nodes :: id in gone <==> UnderSome(nodes, children, n, id)
  }

  predicate Distinct(ids: seq<Id>) {
    forall i, j | 0 <= i < j < |ids| :: ids[i] != ids[j]
  }

  ghost predicate ListsChildren(nodes: Nodes, id: Id, children: seq<Id>) {
    Distinct(children) && forall c: Id :: c in children <==> c in Children(nodes, id)
  }

  /** The next child is still there when its turn comes. */
  lemma NextChildIsThere(nodes: Nodes, rank: map<Id, nat>, id: Id, children: seq<Id>, n: nat, gone: set<Id>)
    requires Ranked(nodes, rank) && id in nodes && ListsChildren(nodes, id, children)
    requires n < |children| && GoneWith(nodes, children, n, gone)
    ensures children[n] in nodes && children[n] !in gone && rank[children[n]] < rank[id]
  {
    var c := children[n];
    assert c in Children(nodes, id);
    UnderSelf(nodes, c);
    forall j | 0 <= j < n ensures !Under(nodes, c, children[j]) {
      assert children[j] in Children(nodes, id);
      SiblingsAreApart(nodes, rank, id, c, children[j], c);
    }
    assert ParentIn(nodes, c) == Some(id);
  }

  lemma NextChildGone(nodes: Nodes, children: seq<Id>, n: nat, gone: set<Id>)
    requires n < |children| && GoneWith(nodes, children, n, gone) && DownClosed(nodes, gone)
    ensures GoneWith(nodes, children, n + 1, gone + Subtree(nodes - gone, children[n]))
  {
    hide Under, UnderSome, DownClosed;
    var more := Subtree(nodes - gone, children[n]);
    forall id | id in nodes ensures id in gone + more <==> UnderSome(nodes, children, n + 1, id) {
      UnderOneMore(nodes, children, n, id);
      if id !in gone {
        UnderSurvives(nodes, gone, id, children[n]);
      }
    }
  }

  lemma BothDownClosed(nodes: Nodes, gone: set<Id>, more: set<Id>)
    requires DownClosed(nodes, gone) && DownClosed(nodes - gone, more)
    ensures DownClosed(nodes, gone + more)
  {
    forall id | id in nodes && ParentIn(nodes, id).Some? && ParentIn(nodes, id).value in gone + more
      ensures id in gone + more
    {
      if id !in gone {
        assert ParentIn(nodes, id).value !in gone;
        assert ParentIn(nodes - gone, id) == ParentIn(nodes, id);
      }
    }
  }

  /** After all children only the node itself is left of its subtree. */
  lemma AllChildrenGone(nodes: Nodes, rank: map<Id, nat>, id: Id, children: seq<Id>, gone: set<Id>)
    requires Ranked(nodes, rank) && id in nodes && ListsChildren(nodes, id, children)
    requires GoneWith(nodes, children, |children|, gone)
    ensures id !in gone && gone + {id} == Subtree(nodes, id) && DownClosed(nodes, gone + {id})
  {
    forall n | n in nodes ensures n in gone + {id} <==> Under(nodes, n, id) {
      SubtreeUnfolds(nodes, id, n);
      if c :| c in Children(nodes, id) && Under(nodes, n, c) {
        assert c in children;
        var j :| 0 <= j < |children| && children[j] == c;
        assert Under(nodes, n, children[j]);
      }
      if n in gone {
        var j :| 0 <= j < |children| && Under(nodes, n, children[j]);
        assert children[j] in Children(nodes, id);
      }
    }
    if id in gone {
      var j :| 0 <= j < |children| && Under(nodes, id, children[j]);
      assert children[j] in Children(nodes, id);
      assert ParentIn(nodes, children[j]) == Some(id);
      UnderRank(nodes, rank, id, children[j]);
      assert false;
    }
    SubtreeIsDownClosed(nodes, id);
  }

  /** The subtrees of the children are listed without overlap. */
  lemma NextSubtreeApart(nodes: Nodes, rank: map<Id, nat>, id: Id, children: seq<Id>, n: nat, gone: set<Id>)
    requires Ranked(nodes, rank) && id in nodes && ListsChildren(nodes, id, children)
    requires n < |children| && GoneWith(nodes, children, n, gone)
    ensures gone !! Subtree(nodes, children[n])
    ensures GoneWith(nodes, children, n + 1, gone + Subtree(nodes, children[n]))
  {
    var more := Subtree(nodes, children[n]);
    assert children[n] in Children(nodes, id);
    forall m | m in gone ensures m !in more {
      var j :| 0 <= j < n && Under(nodes, m, children[j]);
      assert children[j] in Children(nodes, id);
      SiblingsAreApart(nodes, rank, id, children[j], children[n], m);
    }
    hide Under, UnderSome;
    forall m | m in nodes ensures m in gone + more <==> UnderSome(nodes, children, n + 1, m) {
      UnderOneMore(nodes, children, n, m);
    }
  }

  /** What has gone so far is part of the subtree, and does not include its top. */
  lemma PartOfSubtree(nodes: Nodes, rank: map<Id, nat>, id: Id, children: seq<Id>, n: nat, gone: set<Id>,
                      more: set<Id>)
    requires Ranked(nodes, rank) && id in nodes && ListsChildren(nodes, id, children)
    requires n < |children| && GoneWith(nodes, children, n, gone) && DownClosed(nodes, gone)
    requires more <= Subtree(nodes - gone, children[n])
    ensures gone + more <= Subtree(nodes, id) && id !in gone + more
  {
    forall m | m in gone + more ensures m in Subtree(nodes, id) && m != id {
      var j: nat;
      if m in gone {
        j :| 0 <= j < n && Under(nodes, m, children[j]);
      } else {
        j := n;
        UnderSurvives(nodes, gone, m, children[n]);
      }
      assert children[j] in Children(nodes, id);
      SubtreeUnfolds(nodes, id, m);
      assert ParentIn(nodes, children[j]) == Some(id);
      if m == id {
        UnderRank(nodes, rank, id, children[j]);
      }
    }
  }

  // ---- Lists of identifiers ----

  /** The list holds exactly the given identifiers, each once. */
  ghost predicate Lists(ids: seq<Id>, all: set<Id>) {
    Distinct(ids) && (forall id <- ids :: id in all) && (forall id <- all :: id in ids)
  }

  lemma ListsConcat(a: seq<Id>, x: set<Id>, b: seq<Id>, y: set<Id>)
    requires Lists(a, x) && Lists(b, y) && x !! y
    ensures Lists(a + b, x + y)
  {
    var both := a + b;
    forall i, j | 0 <= i < j < |both| ensures both[i] != both[j] {
      if i < |a| <= j {
        assert a[i] in x && b[j - |a|] in y;
      }
    }
  }

  // ---- Progress of a deletion ----

  ghost predicate TraceSafe(trace: seq<Snapshot>, from: nat, before: Nodes, drafts: set<Id>) {
    from <= |trace| && forall i | from <= i < |trace| :: Safe(before, drafts, trace[i])
  }

  lemma TraceGrows(earlier: seq<Snapshot>, later: seq<Snapshot>, from: nat, before: Nodes, drafts: set<Id>, gone: set<Id>)
    requires TraceSafe(earlier, from, before, drafts) && earlier <= later && DownClosed(before, gone)
    requires TraceSafe(later, |earlier|, before - gone, drafts - gone)
    ensures TraceSafe(later, from, before, drafts)
  {
    hide Safe, DownClosed;
    forall i | from <= i < |later| ensures Safe(before, drafts, later[i]) {
      if i < |earlier| {
        assert later[i] == earlier[i];
      } else {
        SafeLater(before, drafts, gone, later[i]);
      }
    }
  }

  lemma TraceAdds(trace: seq<Snapshot>, from: nat, before: Nodes, drafts: set<Id>, s: Snapshot)
    requires TraceSafe(trace, from, before, drafts) && Safe(before, drafts, s)
    ensures TraceSafe(trace + [s], from, before, drafts)
  {
  }

  /** The engine was asked to delete exactly the resources of the nodes that are gone. */
  ghost predicate LogIs(log: seq<Deletion>, from: nat, skipEngine: bool, before: Nodes, gone: set<Id>) {
    from <= |log| && Requests(log[from..]) == (if skipEngine then {} else Deletions(before, gone))
  }

  lemma LogGrows(earlier: seq<Deletion>, later: seq<Deletion>, from: nat, skipEngine: bool, before: Nodes,
                 gone: set<Id>, more: set<Id>)
    requires LogIs(earlier, from, skipEngine, before, gone) && earlier <= later && gone !! more
    requires LogIs(later, |earlier|, skipEngine, before - gone, more)
    ensures LogIs(later, from, skipEngine, before, gone + more)
  {
    hide Deletions, Requests;
    assert later[from..] == earlier[from..] + later[|earlier|..];
    RequestsAdd(earlier[from..], later[|earlier|..]);
    DeletionsAdd(before, gone, more);
  }

  /** The entry for the node itself, if it has a resource. */
  function OwnRequest(node: Node, skipEngine: bool): seq<Deletion> {
    if !skipEngine && HasResource(node) then [Deletion(node.vikingUri.value, DeletesRecursively(node))] else []
  }

  lemma OwnLog(log: seq<Deletion>, skipEngine: bool, nodes: Nodes, id: Id)
    requires id in nodes
    ensures LogIs(log + OwnRequest(nodes[id], skipEngine), |log|, skipEngine, nodes, {id})
  {
    var own := OwnRequest(nodes[id], skipEngine);
    assert (log + own)[|log|..] == own;
    if !skipEngine && HasResource(nodes[id]) {
      assert Requests(own) == {own[0]};
      assert id in {id};
    }
  }

  /** The engine will refuse to delete the resource of the node. */
  predicate Refused(node: Node, refused: set<string>, skipEngine: bool) {
    !skipEngine && HasResource(node) && node.vikingUri.value in refused
  }

  ghost predicate AnyRefused(nodes: Nodes, ids: set<Id>, refused: set<string>, skipEngine: bool) {
    exists id <- ids :: id in nodes && Refused(nodes[id], refused, skipEngine)
  }

  lemma RefusalInChild(nodes: Nodes, rank: map<Id, nat>, id: Id, children: seq<Id>, n: nat, gone: set<Id>,
                       refused: set<string>, skipEngine: bool)
    requires Ranked(nodes, rank) && id in nodes && ListsChildren(nodes, id, children)
    requires n < |children| && GoneWith(nodes, children, n, gone) && DownClosed(nodes, gone)
    requires !AnyRefused(nodes, gone, refused, skipEngine)
    ensures var more := Subtree(nodes - gone, children[n]);
            && (AnyRefused(nodes - gone, more, refused, skipEngine) ==>
                  AnyRefused(nodes, Subtree(nodes, id), refused, skipEngine))
            && (!AnyRefused(nodes - gone, more, refused, skipEngine) ==>
                  !AnyRefused(nodes, gone + more, refused, skipEngine))
  {
    var more := Subtree(nodes - gone, children[n]);
    PartOfSubtree(nodes, rank, id, children, n, gone, more);
    hide Refused, Under, Ranked, DownClosed, GoneWith, ListsChildren;
    assert forall m <- more :: m in nodes - gone && (nodes - gone)[m] == nodes[m];
    if AnyRefused(nodes - gone, more, refused, skipEngine) {
      var m :| m in more && m in nodes - gone && Refused((nodes - gone)[m], refused, skipEngine);
      assert m in Subtree(nodes, id) && Refused(nodes[m], refused, skipEngine);
    }
  }

  lemma OwnRefusal(nodes: Nodes, id: Id, refused: set<string>, skipEngine: bool, gone: set<Id>)
    requires id in nodes && gone + {id} == Subtree(nodes, id) && !AnyRefused(nodes, gone, refused, skipEngine)
    ensures AnyRefused(nodes, Subtree(nodes, id), refused, skipEngine) <==> Refused(nodes[id], refused, skipEngine)
  {
    hide Under;
    assert id in Subtree(nodes, id);
  }

  lemma NothingGone(nodes: Nodes, drafts: map<Id, string>, children: seq<Id>, log: seq<Deletion>, skipEngine: bool,
                    trace: seq<Snapshot>)
    ensures nodes - {} == nodes && drafts - {} == drafts
    ensures GoneWith(nodes, children, 0, {}) && DownClosed(nodes, {})
    ensures forall refused :: !AnyRefused(nodes, {}, refused, skipEngine)
    ensures LogIs(log, |log|, skipEngine, nodes, {}) && TraceSafe(trace, |trace|, nodes, drafts.Keys)
  {
    assert log[|log|..] == [];
  }

  /** One child done (or half done): what is gone now. */
  lemma ChildDone(nodes: Nodes, rank: map<Id, nat>, id: Id, children: seq<Id>, n: nat, gone: set<Id>, more: set<Id>)
    requires Ranked(nodes, rank) && id in nodes && ListsChildren(nodes, id, children)
    requires n < |children| && GoneWith(nodes, children, n, gone) && DownClosed(nodes, gone)
    requires more <= Subtree(nodes - gone, children[n]) && DownClosed(nodes - gone, more)
    ensures DownClosed(nodes, gone + more) && gone !! more
    ensures gone + more <= Subtree(nodes, id) && id !in gone + more
    ensures more == Subtree(nodes - gone, children[n]) ==> GoneWith(nodes, children, n + 1, gone + more)
    ensures nodes - gone - more == nodes - (gone + more)
  {
    hide Ranked, Under, DownClosed, GoneWith, ListsChildren;
    BothDownClosed(nodes, gone, more);
    PartOfSubtree(nodes, rank, id, children, n, gone, more);
    NextChildGone(nodes, children, n, gone);
  }

  /** Some of the nodes is open in a collaboration session. */
  ghost predicate InUse(r: Registry, ids: set<Id>) {
    exists id <- ids :: HasSession(r, id)
  }

  lemma ListedInUse(r: Registry, ids: seq<Id>, all: set<Id>)
    requires Lists(ids, all)
    ensures InUse(r, all) <==> exists id <- ids :: HasSession(r, id)
  {
    hide HasSession;
    if id :| id in all && HasSession(r, id) {
      assert id in ids;
    }
  }

  // ---- Updates ----

  /** The fields an update may carry; a missing field stays as it is. */
  datatype Update = Update(parentId: Option<Option<Id>>, name: Option<string>, path: Option<Option<string>>,
                           vikingUri: Option<Option<string>>, contentUri: Option<Option<string>>)

  predicate ChangesUri(update: Update, node: Node) {
    || (update.vikingUri.Some? && update.vikingUri.value != node.vikingUri)
    || (update.contentUri.Some? && update.contentUri.value != node.contentUri)
  }

  /** Whether an update is checked against open sessions. Only the first field it carries is
      looked at, in the order parent, name, path. */
  predicate AffectsSubtree(update: Update, node: Node) {
    if update.parentId.Some? then update.parentId.value != node.parentId
    else if update.name.Some? then update.name.value != node.name
    else update.path.Some? && update.path.value != node.path
  }

  /** Whether an update moves or renames the node, or changes its path. */
  predicate MovesOrRenames(update: Update, node: Node) {
    || (update.parentId.Some? && update.parentId.value != node.parentId)
    || (update.name.Some? && update.name.value != node.name)
    || (update.path.Some? && update.path.value != node.path)
  }

  function Updated(node: Node, update: Update): Node {
    node.(parentId := if update.parentId.Some? then update.parentId.value else node.parentId,
          name := if update.name.Some? then update.name.value else node.name,
          path := if update.path.Some? then update.path.value else node.path)
  }

  datatype UpdateOutcome = Stored | UriRefused | SubtreeLocked | NoSuchNode

  /** How the service answers an update. */
  ghost function UpdateOutcomeOf(nodes: Nodes, r: Registry, id: Id, update: Update): UpdateOutcome {
    if id !in nodes then NoSuchNode
    else if ChangesUri(update, nodes[id]) then UriRefused
    else if AffectsSubtree(update, nodes[id]) && InUse(r, Subtree(nodes, id)) then SubtreeLocked
    else Stored
  }

  /** The nodes after an update. */
  ghost function AfterUpdate(nodes: Nodes, r: Registry, id: Id, update: Update): Nodes {
    if UpdateOutcomeOf(nodes, r, id, update) == Stored then nodes[id := Updated(nodes[id], update)] else nodes
  }

  lemma NothingListed(id: Id)
    ensures Lists([], {}) && Lists([id], {id})
  {
  }

  lemma RankKnows(nodes: Nodes, rank: map<Id, nat>, id: Id)
    requires Ranked(nodes, rank) && id in nodes
    ensures id in rank
  {
  }

  class TreeService {
    var nodes: Nodes
    var drafts: map<Id, string>
    var requests: seq<Deletion>
    ghost var trace: seq<Snapshot>

    constructor (nodes: Nodes, drafts: map<Id, string>)
      ensures this.nodes == nodes && this.drafts == drafts && requests == [] && trace == []
    {
      this.nodes, this.drafts, requests, trace := nodes, drafts, [], [];
    }

    /** The children of a node, in whatever order the store returns them. */
    method FindChildren(id: Id) returns (children: seq<Id>)
      ensures ListsChildren(nodes, id, children)
    {
      children := [];
      var left := Children(nodes, id);
      while left != {}
        invariant Distinct(children)
        invariant forall c <- children :: c !in left
        invariant forall c: Id :: c in children || c in left <==> c in Children(nodes, id)
        decreases |left|
      {
        var c :| c in left;
        children := children + [c];
        left := left - {c};
      }
    }

    /** Lists a subtree, every node once. */
    method CollectSubtreeNodeIds(id: Id, ghost rank: map<Id, nat>) returns (ids: seq<Id>)
      requires Ranked(nodes, rank) && id in nodes
      ensures Lists(ids, Subtree(nodes, id))
      decreases rank[id]
    {
      hide *;
      var children := FindChildren(id);
      ids := [id];
      ghost var rest: seq<Id>, gone: set<Id> := [], {};
      NothingGone(nodes, drafts, children, requests, false, trace);
      NothingListed(id);
      RankKnows(nodes, rank, id);
      for i := 0 to |children|
        invariant GoneWith(nodes, children, i, gone)
        invariant ids == [id] + rest && Lists(rest, gone)
      {
        NextChildIsThere(nodes, rank, id, children, i, gone);
        NextSubtreeApart(nodes, rank, id, children, i, gone);
        RankKnows(nodes, rank, children[i]);
        var more := CollectSubtreeNodeIds(children[i], rank);
        ListsConcat(rest, gone, more, Subtree(nodes, children[i]));
        rest, gone := rest + more, gone + Subtree(nodes, children[i]);
        ids := ids + more;
      }
      AllChildrenGone(nodes, rank, id, children, gone);
      ListsConcat([id], {id}, rest, gone);
      assert {id} + gone == gone + {id};
    }

    /** Removes a subtree, children first. A resource the engine refuses to delete stops it. At
        every moment on the way no node has lost its parent and no draft its node. */
    method RemoveNode(id: Id, refused: set<string>, skipEngine: bool, ghost rank: map<Id, nat>)
      returns (outcome: Outcome, ghost gone: set<Id>)
      requires Ranked(nodes, rank)
      modifies this
      ensures nodes == old(nodes) - gone && drafts == old(drafts) - gone
      ensures gone <= Subtree(old(nodes), id) && DownClosed(old(nodes), gone)
      ensures outcome == NotFound <==> id !in old(nodes)
      ensures outcome == Done <==> id in gone
      ensures outcome == Done ==> gone == Subtree(old(nodes), id)
      ensures outcome != Locked
      ensures outcome == EngineFailed ==> AnyRefused(old(nodes), Subtree(old(nodes), id), refused, skipEngine)
      ensures outcome == Done ==> !AnyRefused(old(nodes), Subtree(old(nodes), id), refused, skipEngine)
      ensures old(requests) <= requests && LogIs(requests, |old(requests)|, skipEngine, old(nodes), gone)
      ensures old(trace) <= trace && TraceSafe(trace, |old(trace)|, old(nodes), old(drafts).Keys)
      decreases if id in rank then rank[id] + 1 else 0
    {
      hide *;
      gone := {};
      var children := FindChildren(id);
      ghost var before, draftsBefore := nodes, drafts.Keys;
      NothingGone(nodes, drafts, children, requests, skipEngine, trace);
      if id !in nodes {
        return NotFound, gone;
      }
      var node := nodes[id];
      RankKnows(nodes, rank, id);
      for i := 0 to |children|
        invariant nodes == before - gone && drafts == old(drafts) - gone
        invariant GoneWith(before, children, i, gone) && DownClosed(before, gone)
        invariant !AnyRefused(before, gone, refused, skipEngine)
        invariant old(requests) <= requests && LogIs(requests, |old(requests)|, skipEngine, before, gone)
        invariant old(trace) <= trace && TraceSafe(trace, |old(trace)|, before, draftsBefore)
      {
        NextChildIsThere(before, rank, id, children, i, gone);
        RemoveKeepsRank(before, gone, rank);
        RankKnows(before, rank, children[i]);
        ghost var traced, logged := trace, requests;
        ghost var more;
        outcome, more := RemoveNode(children[i], refused, skipEngine, rank);
        ChildDone(before, rank, id, children, i, gone, more);
        LogGrows(logged, requests, |old(requests)|, skipEngine, before, gone, more);
        RefusalInChild(before, rank, id, children, i, gone, refused, skipEngine);
        assert (old(drafts) - gone).Keys == draftsBefore - gone;
        TraceGrows(traced, trace, |old(trace)|, before, draftsBefore, gone);
        gone := gone + more;
        if outcome != Done {
          return EngineFailed, gone;
        }
      }
      AllChildrenGone(before, rank, id, children, gone);
      OwnRefusal(before, id, refused, skipEngine, gone);
      if Refused(node, refused, skipEngine) {
        return EngineFailed, gone;
      }
      OwnLog(requests, skipEngine, before - gone, id);
      LogGrows(requests, requests + OwnRequest(node, skipEngine), |old(requests)|, skipEngine, before, gone, {id});
      requests := requests + OwnRequest(node, skipEngine);
      drafts := drafts - {id};
      SafeWithout(before, draftsBefore, gone, gone + {id});
      TraceAdds(trace, |old(trace)|, before, draftsBefore, Snapshot(nodes.Keys, drafts.Keys));
      trace := trace + [Snapshot(nodes.Keys, drafts.Keys)];
      nodes := nodes - {id};
      SafeWithout(before, draftsBefore, gone + {id}, gone + {id});
      TraceAdds(trace, |old(trace)|, before, draftsBefore, Snapshot(nodes.Keys, drafts.Keys));
      trace := trace + [Snapshot(nodes.Keys, drafts.Keys)];
      gone := gone + {id};
      return Done, gone;
    }

    /** Deletes a node with everything below it, unless something in there is being edited. */
    method Remove(id: Id, registry: DocumentSessionRegistry, refused: set<string>, skipEngine: bool,
                  ghost rank: map<Id, nat>)
      returns (outcome: Outcome, ghost gone: set<Id>)
      requires Ranked(nodes, rank)
      modifies this
      ensures nodes == old(nodes) - gone && drafts == old(drafts) - gone
      ensures gone <= Subtree(old(nodes), id) && DownClosed(old(nodes), gone)
      ensures outcome == NotFound <==> id !in old(nodes)
      ensures outcome == Locked <==> id in old(nodes) && InUse(registry.State(), Subtree(old(nodes), id))
      ensures outcome == Locked || outcome == NotFound ==> gone == {} && requests == old(requests)
      ensures outcome == Done ==> gone == Subtree(old(nodes), id)
      ensures outcome == EngineFailed ==> AnyRefused(old(nodes), Subtree(old(nodes), id), refused, skipEngine)
      ensures outcome == Done ==> !AnyRefused(old(nodes), Subtree(old(nodes), id), refused, skipEngine)
      ensures old(requests) <= requests && LogIs(requests, |old(requests)|, skipEngine, old(nodes), gone)
      ensures old(trace) <= trace && TraceSafe(trace, |old(trace)|, old(nodes), old(drafts).Keys)
    {
      hide *;
      gone := {};
      NothingGone(nodes, drafts, [], requests, skipEngine, trace);
      if id !in nodes {
        return NotFound, gone;
      }
      var ids := CollectSubtreeNodeIds(id, rank);
      var free := registry.AssertNoActiveSessionInNodes(ids);
      ListedInUse(registry.State(), ids, Subtree(nodes, id));
      if !free {
        return Locked, gone;
      }
      outcome, gone := RemoveNode(id, refused, skipEngine, rank);
    }

    /** Stores an update, unless it changes a URI, or moves or renames something being edited. */
    method ApplyUpdate(id: Id, update: Update, registry: DocumentSessionRegistry, ghost rank: map<Id, nat>)
      returns (outcome: UpdateOutcome)
      requires Ranked(nodes, rank)
      modifies this`nodes
      ensures outcome == UpdateOutcomeOf(old(nodes), registry.State(), id, update)
      ensures nodes == AfterUpdate(old(nodes), registry.State(), id, update)
    {
      hide InUse, Subtree, Ranked, HasSession;
      if id !in nodes {
        return NoSuchNode;
      }
      var node := nodes[id];
      if ChangesUri(update, node) {
        return UriRefused;
      }
      if AffectsSubtree(update, node) {
        var ids := CollectSubtreeNodeIds(id, rank);
        var free := registry.AssertNoActiveSessionInNodes(ids);
        ListedInUse(registry.State(), ids, Subtree(nodes, id));
        if !free {
          return SubtreeLocked;
        }
      }
      nodes := nodes[id := Updated(node, update)];
      return Stored;
    }
  }

  // ---- What the check of open sessions protects ----

  /** The field that decides whether the check takes place is carried along unchanged. */
  predicate CarriesUnchanged(update: Update, node: Node) {
    || update.parentId == Some(node.parentId)
    || (update.parentId.None? && update.name == Some(node.name))
  }

  /** An update that moves or renames a node, or changes its path, while something in the subtree is
      open is stored if and only if a field the check looks at first is carried along unchanged;
      otherwise it is refused. */
  lemma LockCheckMissesIff(nodes: Nodes, r: Registry, id: Id, update: Update)
    requires id in nodes && !ChangesUri(update, nodes[id])
    requires MovesOrRenames(update, nodes[id]) && InUse(r, Subtree(nodes, id))
    ensures UpdateOutcomeOf(nodes, r, id, update) == Stored <==> CarriesUnchanged(update, nodes[id])
    ensures UpdateOutcomeOf(nodes, r, id, update) == SubtreeLocked <==> !CarriesUnchanged(update, nodes[id])
    ensures CarriesUnchanged(update, nodes[id]) ==> PlaceOf(AfterUpdate(nodes, r, id, update)[id]) != PlaceOf(nodes[id])
  {
  }

  /** A document that is open for writing is renamed by an update that carries its parent along. */
  lemma OpenNodeIsRenamed(node: Node)
    requires node.parentId.None? && node.name != "new"
    ensures var nodes, r := map["n" := node], Registered(EMPTY, node.kbId, "n", "c", Write);
            var update := Update(Some(node.parentId), Some("new"), None, None, None);
            && HasWriteSession(r, "n") && InUse(r, Subtree(nodes, "n"))
            && UpdateOutcomeOf(nodes, r, "n", update) == Stored
            && AfterUpdate(nodes, r, "n", update)["n"].name == "new"
  {
    var nodes, r := map["n" := node], Registered(EMPTY, node.kbId, "n", "c", Write);
    assert "c" in SessionsOf(r, "n") && SessionsOf(r, "n")["c"].mode == Write;
    assert Ancestor(nodes, "n", 0) == Some("n");
    assert Under(nodes, "n", "n") && "n" in Subtree(nodes, "n");
    assert HasSession(r, "n");
  }

  datatype Place = Place(parentId: Option<Id>, name: string, path: Option<string>)

  function PlaceOf(node: Node): Place { Place(node.parentId, node.name, node.path) }

  /** Every node in whose subtree something is open stays where it is, under its name. */
  ghost predicate OpenStay(nodes: Nodes, r: Registry, next: Nodes) {
    forall id <- nodes | InUse(r, Subtree(nodes, id)) :: id in next && PlaceOf(next[id]) == PlaceOf(nodes[id])
  }

  datatype TreeStep = Session(call: Call) | Change(id: Id, update: Update)

  ghost function NodesAfter(nodes: Nodes, r: Registry, step: TreeStep): Nodes {
    if step.Change? then AfterUpdate(nodes, r, step.id, step.update) else nodes
  }

  function RegistryAfter(r: Registry, step: TreeStep): Registry {
    if step.Session? then Apply(r, step.call) else r
  }

  ghost predicate OpenAlwaysStay(nodes: Nodes, r: Registry, steps: seq<TreeStep>)
    decreases |steps|
  {
    steps == []
    || (&& OpenStay(nodes, r, NodesAfter(nodes, r, steps[0]))
        && OpenAlwaysStay(NodesAfter(nodes, r, steps[0]), RegistryAfter(r, steps[0]), steps[1..]))
  }

  /** An update of an open subtree that hides a move, a rename or a change of path behind a field it
      carries unchanged. */
  ghost predicate SlipsThrough(nodes: Nodes, r: Registry, step: TreeStep) {
    && step.Change? && step.id in nodes && InUse(r, Subtree(nodes, step.id))
    && !ChangesUri(step.update, nodes[step.id])
    && MovesOrRenames(step.update, nodes[step.id]) && CarriesUnchanged(step.update, nodes[step.id])
  }

  ghost predicate NoneSlipsThrough(nodes: Nodes, r: Registry, steps: seq<TreeStep>)
    decreases |steps|
  {
    steps == []
    || (&& !SlipsThrough(nodes, r, steps[0])
        && NoneSlipsThrough(NodesAfter(nodes, r, steps[0]), RegistryAfter(r, steps[0]), steps[1..]))
  }

  lemma StepKeepsOpenIff(nodes: Nodes, r: Registry, step: TreeStep)
    ensures OpenStay(nodes, r, NodesAfter(nodes, r, step)) <==> !SlipsThrough(nodes, r, step)
  {
    hide InUse, Subtree;
    if step.Change? && step.id in nodes {
      var next := NodesAfter(nodes, r, step);
      assert forall id <- nodes | id != step.id :: id in next && next[id] == nodes[id];
      if InUse(r, Subtree(nodes, step.id)) && MovesOrRenames(step.update, nodes[step.id])
         && !ChangesUri(step.update, nodes[step.id]) {
        LockCheckMissesIff(nodes, r, step.id, step.update);
      }
    }
  }

  /** Over every run of sessions opened and closed and of updates: nodes in whose subtree something is
      open always stay where they are, under their names, if and only if no update slips through. */
  lemma {:induction false} RunKeepsOpenIff(nodes: Nodes, r: Registry, steps: seq<TreeStep>)
    ensures OpenAlwaysStay(nodes, r, steps) <==> NoneSlipsThrough(nodes, r, steps)
    decreases |steps|
  {
    hide OpenStay, SlipsThrough, NodesAfter, RegistryAfter;
    if steps != [] {
      StepKeepsOpenIff(nodes, r, steps[0]);
      RunKeepsOpenIff(NodesAfter(nodes, r, steps[0]), RegistryAfter(r, steps[0]), steps[1..]);
    }
  }

  /** Storing an accepted update keeps the forest a forest exactly when the node is not moved into
      its own subtree. */
  lemma UpdateKeepsForestIff(nodes: Nodes, id: Id, update: Update)
    requires Acyclic(nodes) && id in nodes
    ensures var next := nodes[id := Updated(nodes[id], update)];
            var p := next[id].parentId;
            Acyclic(next) <==> !(p.Some? && p.value in nodes && Under(nodes, p.value, id))
  {
    var next := nodes[id := Updated(nodes[id], update)];
    var moved := Moved(nodes, id, next[id].parentId);
    MoveKeepsForestIff(nodes, id, next[id].parentId);
    assert forall n: Id :: ParentIn(next, n) == ParentIn(moved, n);
    assert next.Keys == moved.Keys;
    assert forall rank: map<Id, nat> :: Ranked(next, rank) <==> Ranked(moved, rank);
    if Acyclic(next) {
      var rank: map<Id, nat> :| Ranked(next, rank);
      assert Ranked(moved, rank);
    }
    if Acyclic(moved) {
      var rank: map<Id, nat> :| Ranked(moved, rank);
      assert Ranked(next, rank);
    }
  }

  /** What a stored update has changed: the fields it carries, to what it carries, and nothing else. A
      refused one has changed nothing. */
  lemma UpdateStoresWhatItCarries(nodes: Nodes, r: Registry, id: Id, update: Update)
    ensures var outcome, next := UpdateOutcomeOf(nodes, r, id, update), AfterUpdate(nodes, r, id, update);
            && (outcome != Stored ==> next == nodes)
            && (outcome == Stored ==>
                  && id in nodes && next.Keys == nodes.Keys
                  && (forall other <- nodes | other != id :: next[other] == nodes[other])
                  && var was, node := nodes[id], next[id];
                     && (update.parentId == Some(node.parentId)
                         || (update.parentId.None? && node.parentId == was.parentId))
                     && (update.name == Some(node.name) || (update.name.None? && node.name == was.name))
                     && (update.path == Some(node.path) || (update.path.None? && node.path == was.path))
                     && (update.vikingUri == Some(node.vikingUri) || update.vikingUri.None?)
                     && (update.contentUri == Some(node.contentUri) || update.contentUri.None?)
                     && node.vikingUri == was.vikingUri && node.contentUri == was.contentUri
                     && node.kbId == was.kbId && node.kind == was.kind)
  {
  }

  /** A stored update that carries a parent outside the subtree of the node moves that whole subtree: it
      leaves every subtree the node was in, and is part of every subtree its new parent is in; all other
      subtrees stay as they are. Without a parent, or with none that is stored, it is nowhere else. */
  lemma UpdateMovesSubtree(nodes: Nodes, r: Registry, id: Id, update: Update, parent: Option<Id>, top: Id)
    requires Acyclic(nodes) && UpdateOutcomeOf(nodes, r, id, update) == Stored
    requires update.parentId == Some(parent)
    requires parent.Some? ==> parent.value !in Subtree(nodes, id)
    requires top in nodes
    ensures var next, moved := AfterUpdate(nodes, r, id, update), Subtree(nodes, id);
            && id in nodes
            && (top in moved ==> Subtree(next, top) == Subtree(nodes, top))
            && (parent.Some? && parent.value in Subtree(nodes, top) ==>
                  Subtree(next, top) == Subtree(nodes, top) + moved)
            && (top !in moved && !(parent.Some? && parent.value in Subtree(nodes, top)) ==>
                  Subtree(next, top) == Subtree(nodes, top) - moved)
            && (!Under(nodes, id, top) && !(parent.Some? && parent.value in Subtree(nodes, top)) ==>
                  Subtree(next, top) == Subtree(nodes, top))
  {
    hide Under, Acyclic;
    var next, moved := AfterUpdate(nodes, r, id, update), Moved(nodes, id, parent);
    assert next.Keys == moved.Keys && forall n: Id :: ParentIn(next, n) == ParentIn(moved, n);
    SameParentsSameSubtrees(next, moved, top);
    MoveGrafts(nodes, id, parent, top);
    if !Under(nodes, id, top) && !Under(nodes, top, id) {
      SubtreesApart(nodes, id, top);
    }
    if Under(nodes, top, id) {
      NotBelowInside(nodes, id, parent, top);
    }
  }

  /** The new parent itself gains exactly the subtree of the node. */
  lemma UpdateGraftsOntoParent(nodes: Nodes, r: Registry, id: Id, update: Update, p: Id)
    requires Acyclic(nodes) && UpdateOutcomeOf(nodes, r, id, update) == Stored
    requires update.parentId == Some(Some(p)) && p in nodes && p !in Subtree(nodes, id)
    ensures Subtree(AfterUpdate(nodes, r, id, update), p) == Subtree(nodes, p) + Subtree(nodes, id)
  {
    hide Subtree, AfterUpdate, Acyclic, UpdateOutcomeOf;
    UpdateMovesSubtree(nodes, r, id, update, Some(p), p);
    assert p in Subtree(nodes, p) by { SelfInSubtree(nodes, p); }
  }

  lemma SelfInSubtree(nodes: Nodes, id: Id)
    requires id in nodes
    ensures id in Subtree(nodes, id)
  {
    UnderSelf(nodes, id);
  }

  /** An update that carries no parent changes no subtree. */
  lemma UpdateWithoutParentMovesNothing(nodes: Nodes, r: Registry, id: Id, update: Update, top: Id)
    requires update.parentId.None?
    ensures Subtree(AfterUpdate(nodes, r, id, update), top) == Subtree(nodes, top)
  {
    hide UpdateOutcomeOf;
    var next := AfterUpdate(nodes, r, id, update);
    if next != nodes {
      UpdateStoresWhatItCarries(nodes, r, id, update);
      SameParentsSameSubtrees(next, nodes, top);
    }
  }
}
