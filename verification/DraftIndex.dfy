/** Drafts, the content stored in the engine, and what a reader sees: saving, loading, warming and
    indexing a document. Every call is one atomic step. */
module DraftIndex {
  import opened Text

  type Id = string
  type Uri = string

  datatype Status = Clean | Dirty | Indexing | Failed

  datatype DocNode = DocNode(vikingUri: Option<Uri>, contentUri: Option<Uri>, draftVersion: nat,
                             indexedVersion: nat, status: Status)

  datatype Draft = Draft(markdown: string, version: nat)

  datatype State = State(nodes: map<Id, DocNode>, drafts: map<Id, Draft>, engine: map<Uri, string>)

  /** The Markdown leaves the engine lists below a directory, in order. */
  type Listing = (map<Uri, string>, Uri) -> seq<Uri>

  // ---- URIs ----

  const DEFAULT_CONTENT_FILE: string := "content.md"

  function Lower(c: char): char {
    if 'A' <= c <= 'Z' then 'a' + (c - 'A') else c
  }

  function LowerAll(s: string): (r: string)
    ensures |r| == |s|
  {
    if s == "" then "" else [Lower(s[0])] + LowerAll(s[1..])
  }

  predicate EndsWith(s: string, suffix: string) {
    |s| >= |suffix| && s[|s| - |suffix|..] == suffix
  }

  predicate Contains(s: string, part: string) {
    |s| >= |part| && (s[..|part|] == part || (s != "" && Contains(s[1..], part)))
  }

  predicate IsDirectory(uri: Uri) {
    EndsWith(uri, "/")
  }

  /** A Markdown file outside any assets directory. */
  predicate IsContentUri(uri: Uri) {
    var u := LowerAll(Trim(uri));
    EndsWith(u, ".md") && !Contains(u, "/assets/")
  }

  /** The URI the content of a node is read from, if it has one. A stored URI that is no content
      URI counts as none. */
  function CurrentContentUri(node: DocNode): Option<Uri> {
    if node.contentUri.Some? && node.contentUri.value != "" then
      if IsContentUri(node.contentUri.value) then node.contentUri else None
    else if node.vikingUri.Some? && node.vikingUri.value != "" && !IsDirectory(node.vikingUri.value)
            && IsContentUri(node.vikingUri.value) then node.vikingUri
    else None
  }

  /** Everything up to the last slash. */
  function ParentUri(uri: Uri): Option<Uri> {
    if uri == "" then None
    else if uri[|uri| - 1] == '/' then Some(uri)
    else ParentUri(uri[..|uri| - 1])
  }

  function ContainerUri(node: DocNode): Option<Uri> {
    if node.vikingUri.Some? && IsDirectory(node.vikingUri.value) then node.vikingUri
    else if CurrentContentUri(node).Some? then ParentUri(CurrentContentUri(node).value)
    else None
  }

  /** Where an index step writes; None if the node has no place in the engine. */
  function IndexUri(node: DocNode): Option<Uri> {
    if CurrentContentUri(node).Some? then CurrentContentUri(node)
    else
      match ContainerUri(node)
      case Some(container) => Some(container + DEFAULT_CONTENT_FILE)
      case None => None
  }

  // ---- What a reader sees ----

  datatype View = Unavailable | Shown(markdown: string)

  function Download(engine: map<Uri, string>, uri: Uri): View {
    if uri in engine then Shown(engine[uri]) else Unavailable
  }

  predicate AllStored(engine: map<Uri, string>, leaves: seq<Uri>) {
    forall leaf <- leaves :: leaf in engine
  }

  /** The contents of the leaves that are not blank, without white space at their ends. */
  function Parts(engine: map<Uri, string>, leaves: seq<Uri>): seq<string>
    requires AllStored(engine, leaves)
  {
    if leaves == [] then []
    else (if IsBlank(engine[leaves[0]]) then [] else [TrimEnd(engine[leaves[0]])]) + Parts(engine, leaves[1..])
  }

  /** A document imported as a directory: its leaves, one after the other. */
  function Imported(engine: map<Uri, string>, node: DocNode, listing: Listing): View {
    if node.vikingUri.None? || !IsDirectory(node.vikingUri.value) then Shown("")
    else
      var leaves := listing(engine, node.vikingUri.value);
      if AllStored(engine, leaves) then Shown(Join(Parts(engine, leaves), "\n\n")) else Unavailable
  }

  function Stored(engine: map<Uri, string>, node: DocNode, listing: Listing): View {
    if CurrentContentUri(node).Some? then Download(engine, CurrentContentUri(node).value)
    else Imported(engine, node, listing)
  }

  /** What a document resolves to: its draft, unless the draft is blank and nothing was indexed. */
  function Resolve(engine: map<Uri, string>, node: DocNode, draft: Option<Draft>, listing: Listing): View {
    match draft
    case None => Stored(engine, node, listing)
    case Some(d) =>
      if !IsBlank(d.markdown) || CurrentContentUri(node).Some? then Shown(d.markdown)
      else
        match Stored(engine, node, listing)
        case Unavailable => Unavailable
        case Shown(text) => if IsBlank(text) then Shown(d.markdown) else Shown(text)
  }

  function DraftOf(s: State, id: Id): Option<Draft> {
    if id in s.drafts then Some(s.drafts[id]) else None
  }

  function ViewOf(s: State, id: Id, listing: Listing): View
    requires id in s.nodes
  {
    Resolve(s.engine, s.nodes[id], DraftOf(s, id), listing)
  }

  // ---- The steps ----

  function VersionOf(s: State, id: Id): nat {
    if id in s.drafts then s.drafts[id].version else 0
  }

  /** One more draft version. */
  function WithDraft(s: State, id: Id, markdown: string): State {
    s.(drafts := s.drafts[id := Draft(markdown, VersionOf(s, id) + 1)])
  }

  function Save(s: State, id: Id, markdown: string): State {
    if id !in s.nodes then s
    else
      s.(drafts := s.drafts[id := Draft(markdown, VersionOf(s, id) + 1)],
         nodes := s.nodes[id := s.nodes[id].(draftVersion := VersionOf(s, id) + 1, status := Dirty)])
  }

  function KeepDraft(s: State, id: Id, markdown: string): State {
    var t := WithDraft(s, id, markdown);
    if id in s.nodes then t.(nodes := s.nodes[id := s.nodes[id].(draftVersion := t.drafts[id].version)]) else t
  }

  /** The first reading of an indexed document keeps what was read as its first draft. */
  function Load(s: State, id: Id, listing: Listing): State {
    if id !in s.nodes || id in s.drafts || CurrentContentUri(s.nodes[id]).None? then s
    else
      match ViewOf(s, id, listing)
      case Unavailable => s
      case Shown(text) => if IsBlank(text) then s else KeepDraft(s, id, text)
  }

  function Warm(s: State, id: Id, uri: Uri): State {
    match Download(s.engine, uri)
    case Unavailable => s
    case Shown(text) => if IsBlank(text) then s else KeepDraft(s, id, text)
  }

  /** The URI of a confirmed leaf; the service takes an empty one for none. */
  type Leaf = uri: Uri | uri != "" witness DEFAULT_CONTENT_FILE

  /** How the engine answers an index step. A write to a URI it does not know is injected instead,
      under a leaf that has to be confirmed. */
  datatype WriteOutcome = Written | Injected(leaf: Leaf) | Unconfirmed(at: Uri) | Busy | Rejected

  datatype Answer = Answer(write: WriteOutcome, vectors: Option<nat>, statsFail: bool)

  function IndexVersion(s: State, id: Id): nat
    requires id in s.nodes
  {
    if id in s.drafts then s.drafts[id].version else s.nodes[id].draftVersion
  }

  predicate HasVectors(answer: Answer) {
    answer.vectors.Some? && answer.vectors.value > 0
  }

  /** The fields of a node that a synchronisation carries; a field it does not carry stays as it is
      stored by then. */
  datatype IndexState = IndexState(contentUri: Option<Uri>, status: Option<Status>, draftVersion: Option<nat>,
                                   indexedVersion: Option<nat>)

  function Merged(node: DocNode, state: IndexState): DocNode {
    node.(contentUri := if state.contentUri.Some? then state.contentUri else node.contentUri,
          status := if state.status.Some? then state.status.value else node.status,
          draftVersion := if state.draftVersion.Some? then state.draftVersion.value else node.draftVersion,
          indexedVersion := if state.indexedVersion.Some? then state.indexedVersion.value else node.indexedVersion)
  }

  /** The fields of both, the later one's where both carry one. */
  function Over(earlier: IndexState, later: IndexState): IndexState {
    IndexState(
      if later.contentUri.Some? then later.contentUri else earlier.contentUri,
      if later.status.Some? then later.status else earlier.status,
      if later.draftVersion.Some? then later.draftVersion else earlier.draftVersion,
      if later.indexedVersion.Some? then later.indexedVersion else earlier.indexedVersion)
  }

  /** No field is carried by both. */
  predicate Apart(a: IndexState, b: IndexState) {
    && (a.contentUri.None? || b.contentUri.None?) && (a.status.None? || b.status.None?)
    && (a.draftVersion.None? || b.draftVersion.None?) && (a.indexedVersion.None? || b.indexedVersion.None?)
  }

  /** Two synchronisations are one that carries the fields of both, the later one winning; so no
      field is lost that the later one does not carry, and without a common field order is
      immaterial. */
  lemma SyncsMerge(node: DocNode, earlier: IndexState, later: IndexState)
    ensures Merged(Merged(node, earlier), later) == Merged(node, Over(earlier, later))
    ensures Apart(earlier, later) ==> Merged(Merged(node, earlier), later) == Merged(Merged(node, later), earlier)
  {
  }

  /** The node after its content has reached the engine. */
  function IndexedNode(node: DocNode, uri: Uri, version: nat, answer: Answer): DocNode {
    var done := node.(
      contentUri := Some(uri), draftVersion := version,
      status := if HasVectors(answer) then Clean else Indexing,
      indexedVersion := if HasVectors(answer) then version else node.indexedVersion);
    if answer.statsFail then done.(status := Failed) else done
  }

  function Index(s: State, id: Id, answer: Answer, listing: Listing): State {
    if id !in s.nodes || ViewOf(s, id, listing).Unavailable? || IndexUri(s.nodes[id]).None? then s
    else
      var node, text := s.nodes[id], ViewOf(s, id, listing).markdown;
      var uri, version := IndexUri(node).value, IndexVersion(s, id);
      match answer.write
      case Written =>
        s.(nodes := s.nodes[id := IndexedNode(node, uri, version, answer)], engine := s.engine[uri := text])
      case Injected(leaf) =>
        s.(nodes := s.nodes[id := IndexedNode(node, leaf, version, answer)], engine := s.engine[leaf := text])
      case Unconfirmed(leaf) =>
        s.(nodes := s.nodes[id := node.(draftVersion := version, status := Failed)], engine := s.engine[leaf := text])
      case Busy =>
        s.(nodes := s.nodes[id := node.(contentUri := Some(uri), draftVersion := version, status := Indexing)])
      case Rejected =>
        s.(nodes := s.nodes[id := node.(draftVersion := version, status := Failed)])
  }

  datatype Call =
    | SaveCall(id: Id, markdown: string)
    | LoadCall(id: Id)
    | WarmCall(id: Id, uri: Uri)
    | IndexCall(id: Id, answer: Answer)

  function Apply(s: State, call: Call, listing: Listing): State {
    match call
    case SaveCall(id, markdown) => Save(s, id, markdown)
    case LoadCall(id) => Load(s, id, listing)
    case WarmCall(id, uri) => Warm(s, id, uri)
    case IndexCall(id, answer) => Index(s, id, answer, listing)
  }

  function Run(s: State, calls: seq<Call>, listing: Listing): State
    decreases |calls|
  {
    if calls == [] then s else Run(Apply(s, calls[0], listing), calls[1..], listing)
  }

  // ---- The service as it runs ----

  class DocumentService {
    var nodes: map<Id, DocNode>
    var drafts: map<Id, Draft>
    var engine: map<Uri, string>
    const listing: Listing

    ghost function StateNow(): State
      reads this
    {
      State(nodes, drafts, engine)
    }

    constructor (s: State, listing: Listing)
      ensures StateNow() == s && this.listing == listing
    {
      nodes, drafts, engine := s.nodes, s.drafts, s.engine;
      this.listing := listing;
    }

    /** Overwrites the draft of a node, one version up. */
    method SaveMarkdown(id: Id, markdown: string) returns (draft: Draft)
      modifies this`drafts
      ensures StateNow() == WithDraft(old(StateNow()), id, markdown)
      ensures draft == drafts[id]
    {
      var nextVersion := (if id in drafts then drafts[id].version else 0) + 1;
      draft := Draft(markdown, nextVersion);
      drafts := drafts[id := draft];
    }

    /** The imported leaves, downloaded one by one. */
    method LoadImportedDirectory(node: DocNode) returns (view: View)
      ensures view == Imported(engine, node, listing)
    {
      hide IsDirectory, IsBlank, TrimEnd, Join;
      if node.vikingUri.None? || !IsDirectory(node.vikingUri.value) {
        return Shown("");
      }
      var leaves := listing(engine, node.vikingUri.value);
      var parts: seq<string> := [];
      for i := 0 to |leaves|
        invariant AllStored(engine, leaves[..i])
        invariant parts == Parts(engine, leaves[..i])
      {
        if leaves[i] !in engine {
          return Unavailable;
        }
        PartsAppend(engine, leaves[..i], leaves[i]);
        assert leaves[..i + 1] == leaves[..i] + [leaves[i]];
        var content := engine[leaves[i]];
        if !IsBlank(content) {
          parts := parts + [TrimEnd(content)];
        }
      }
      assert leaves[..|leaves|] == leaves;
      return Shown(Join(parts, "\n\n"));
    }

    method ResolveDocumentMarkdown(node: DocNode, draft: Option<Draft>) returns (view: View)
      ensures view == Resolve(engine, node, draft, listing)
    {
      var contentUri := CurrentContentUri(node);
      if draft.Some? && (!IsBlank(draft.value.markdown) || contentUri.Some?) {
        return Shown(draft.value.markdown);
      }
      if contentUri.Some? {
        view := Download(engine, contentUri.value);
      } else {
        view := LoadImportedDirectory(node);
      }
      if draft.Some? && view.Shown? && IsBlank(view.markdown) {
        view := Shown(draft.value.markdown);
      }
    }

    method SaveMarkdownContent(id: Id, markdown: string)
      modifies this
      ensures StateNow() == Save(old(StateNow()), id, markdown)
    {
      if id !in nodes {
        return;
      }
      var draft := SaveMarkdown(id, markdown);
      var _ := SyncIndexState(id, IndexState(None, Some(Dirty), Some(draft.version), None));
      assert nodes == old(nodes)[id := nodes[id]];
    }

    method LoadContent(id: Id) returns (view: View)
      modifies this
      ensures StateNow() == Load(old(StateNow()), id, listing)
      ensures id in nodes ==> view == ViewOf(old(StateNow()), id, listing)
    {
      hide Resolve, CurrentContentUri, IsBlank;
      if id !in nodes {
        return Unavailable;
      }
      var node := nodes[id];
      var draft := if id in drafts then Some(drafts[id]) else None;
      view := ResolveDocumentMarkdown(node, draft);
      if draft.None? && CurrentContentUri(node).Some? && view.Shown? && !IsBlank(view.markdown) {
        var kept := SaveMarkdown(id, view.markdown);
        var _ := SyncIndexState(id, IndexState(None, None, Some(kept.version), None));
        assert nodes == old(nodes)[id := nodes[id]];
      }
    }

    method WarmDraft(id: Id, uri: Uri)
      modifies this
      ensures StateNow() == Warm(old(StateNow()), id, uri)
    {
      var view := Download(engine, uri);
      if view.Unavailable? || IsBlank(view.markdown) {
        return;
      }
      var draft := SaveMarkdown(id, view.markdown);
      var _ := SyncIndexState(id, IndexState(None, None, Some(draft.version), None));
      assert nodes == if id in nodes then old(nodes)[id := nodes[id]] else old(nodes);
    }

    method IndexContent(id: Id, answer: Answer)
      modifies this
      ensures StateNow() == Index(old(StateNow()), id, answer, listing)
    {
      hide IndexUri, Resolve;
      if id !in nodes {
        return;
      }
      var node := nodes[id];
      var draft := if id in drafts then Some(drafts[id]) else None;
      var view := ResolveDocumentMarkdown(node, draft);
      var contentUri := IndexUri(node);
      if view.Unavailable? || contentUri.None? {
        return;
      }
      var draftVersion := if draft.Some? then draft.value.version else node.draftVersion;
      var _ := SyncIndexState(id, IndexState(None, Some(Indexing), Some(draftVersion), None));
      assert nodes == old(nodes)[id := nodes[id]];
      match answer.write {
        case Written =>
          engine := engine[contentUri.value := view.markdown];
          FinishIndex(id, contentUri.value, node.indexedVersion, draftVersion, answer);
        case Injected(leaf) =>
          engine := engine[leaf := view.markdown];
          FinishIndex(id, leaf, node.indexedVersion, draftVersion, answer);
        case Unconfirmed(leaf) =>
          engine := engine[leaf := view.markdown];
          var _ := SyncIndexState(id, IndexState(None, Some(Failed), None, None));
        case Busy =>
          var _ := SyncIndexState(id, IndexState(contentUri, Some(Indexing), Some(draftVersion), None));
        case Rejected =>
          var _ := SyncIndexState(id, IndexState(None, Some(Failed), None, None));
      }
      assert nodes == old(nodes)[id := nodes[id]];
    }

    /** Reads the node again and stores it with the fields that are given: those change, whatever
        was stored by then, and nothing else of this or any other node does. */
    method SyncIndexState(id: Id, state: IndexState) returns (found: bool)
      modifies this`nodes
      ensures found <==> id in old(nodes)
      ensures nodes == if found then old(nodes)[id := Merged(old(nodes)[id], state)] else old(nodes)
    {
      if id !in nodes {
        return false;
      }
      var node := nodes[id];
      if state.contentUri.Some? {
        node := node.(contentUri := state.contentUri);
      }
      if state.status.Some? {
        node := node.(status := state.status.value);
      }
      if state.draftVersion.Some? {
        node := node.(draftVersion := state.draftVersion.value);
      }
      if state.indexedVersion.Some? {
        node := node.(indexedVersion := state.indexedVersion.value);
      }
      nodes := nodes[id := node];
      found := true;
    }

    /** The second write of an index step, and the statistics that may still fail after it. */
    method FinishIndex(id: Id, uri: Uri, indexedBefore: nat, draftVersion: nat, answer: Answer)
      requires id in nodes && nodes[id].indexedVersion == indexedBefore
      modifies this`nodes
      ensures nodes == old(nodes)[id := IndexedNode(old(nodes)[id], uri, draftVersion, answer)]
    {
      var hasVectors := answer.vectors.Some? && answer.vectors.value > 0;
      var _ := SyncIndexState(id, IndexState(
        Some(uri), Some(if hasVectors then Clean else Indexing), Some(draftVersion),
        Some(if hasVectors then draftVersion else indexedBefore)));
      assert nodes == old(nodes)[id := nodes[id]];
      if answer.statsFail {
        var _ := SyncIndexState(id, IndexState(None, Some(Failed), None, None));
        assert nodes == old(nodes)[id := nodes[id]];
      }
    }
  }

  lemma {:induction false} PartsAppend(engine: map<Uri, string>, leaves: seq<Uri>, leaf: Uri)
    requires AllStored(engine, leaves) && leaf in engine
    ensures AllStored(engine, leaves + [leaf])
    ensures Parts(engine, leaves + [leaf])
         == Parts(engine, leaves) + (if IsBlank(engine[leaf]) then [] else [TrimEnd(engine[leaf])])
  {
    hide IsBlank, TrimEnd;
    if leaves == [] {
      assert leaves + [leaf] == [leaf];
    } else {
      assert (leaves + [leaf])[1..] == leaves[1..] + [leaf];
      PartsAppend(engine, leaves[1..], leaf);
    }
  }

  // ---- Every run ----

  /** A node knows the version of its draft, and never claims to have indexed a later one. */
  ghost predicate NodeInv(node: DocNode, draft: Option<Draft>) {
    && node.draftVersion == (if draft.Some? then draft.value.version else 0)
    && node.indexedVersion <= node.draftVersion
  }

  ghost predicate Inv(s: State) {
    forall id <- s.nodes :: NodeInv(s.nodes[id], DraftOf(s, id))
  }

  lemma ApplyKeepsInv(s: State, call: Call, listing: Listing)
    requires Inv(s)
    ensures Inv(Apply(s, call, listing))
  {
    hide CurrentContentUri, IndexUri, Resolve, IsBlank;
    var t := Apply(s, call, listing);
    forall id | id in t.nodes ensures NodeInv(t.nodes[id], DraftOf(t, id)) {
      assert NodeInv(s.nodes[id], DraftOf(s, id));
    }
  }

  /** Whether a call writes the draft of a node. */
  ghost predicate WritesDraft(s: State, call: Call, listing: Listing, id: Id) {
    Apply(s, call, listing).drafts != s.drafts && call.id == id
  }

  lemma ApplyCountsVersions(s: State, call: Call, listing: Listing, id: Id)
    ensures VersionOf(Apply(s, call, listing), id)
         == VersionOf(s, id) + (if WritesDraft(s, call, listing, id) then 1 else 0)
    ensures !WritesDraft(s, call, listing, id) ==> DraftOf(Apply(s, call, listing), id) == DraftOf(s, id)
  {
    hide CurrentContentUri, IndexUri, Resolve, IsBlank;
    var t := Apply(s, call, listing);
    if t.drafts != s.drafts {
      assert t.drafts[call.id].version == VersionOf(s, call.id) + 1;
    }
  }

  ghost function DraftWrites(s: State, calls: seq<Call>, listing: Listing, id: Id): nat
    decreases |calls|
  {
    if calls == [] then 0
    else
      (if WritesDraft(s, calls[0], listing, id) then 1 else 0)
      + DraftWrites(Apply(s, calls[0], listing), calls[1..], listing, id)
  }

  /** Over every run: nodes and drafts keep agreeing, and the version of a draft has gone up by
      exactly the number of times it was written. */
  lemma {:induction false} RunKeepsInv(s: State, calls: seq<Call>, listing: Listing, id: Id)
    requires Inv(s)
    ensures Inv(Run(s, calls, listing))
    ensures VersionOf(Run(s, calls, listing), id) == VersionOf(s, id) + DraftWrites(s, calls, listing, id)
    decreases |calls|
  {
    if calls != [] {
      hide Inv, Apply, WritesDraft, VersionOf;
      ApplyKeepsInv(s, calls[0], listing);
      ApplyCountsVersions(s, calls[0], listing, id);
      RunKeepsInv(Apply(s, calls[0], listing), calls[1..], listing, id);
    }
  }

  // ---- The text of a draft ----

  function TextOf(s: State, id: Id): Option<string> {
    if id in s.drafts then Some(s.drafts[id].markdown) else None
  }

  /** The content stored under a URI, unless it is blank. */
  function ContentAt(engine: map<Uri, string>, uri: Uri): Option<string> {
    if uri in engine && !IsBlank(engine[uri]) then Some(engine[uri]) else None
  }

  /** The text that a call gives the draft of a node: the one saved, the content a first reading has
      found, or the content warmed; None if the call does not write it. */
  function TextWritten(s: State, call: Call, id: Id): Option<string> {
    if call.id != id then None
    else
      match call
      case SaveCall(_, markdown) => if id in s.nodes then Some(markdown) else None
      case LoadCall(_) =>
        if id in s.nodes && id !in s.drafts && CurrentContentUri(s.nodes[id]).Some?
        then ContentAt(s.engine, CurrentContentUri(s.nodes[id]).value) else None
      case WarmCall(_, uri) => ContentAt(s.engine, uri)
      case IndexCall(_, _) => None
  }

  /** The text the last call that wrote the draft has given it; `before` if none did. */
  function LastWritten(s: State, calls: seq<Call>, listing: Listing, id: Id, before: Option<string>): Option<string>
    decreases |calls|
  {
    if calls == [] then before
    else
      var written := TextWritten(s, calls[0], id);
      LastWritten(Apply(s, calls[0], listing), calls[1..], listing, id, if written.Some? then written else before)
  }

  /** Every call gives a draft exactly the text it is to write, and writes one exactly then. Reading
      and saving leave the engine alone, and of the nodes all but versions and status. */
  lemma ApplyWritesText(s: State, call: Call, listing: Listing, id: Id)
    ensures var t, written := Apply(s, call, listing), TextWritten(s, call, id);
            && TextOf(t, id) == (if written.Some? then written else TextOf(s, id))
            && (written.Some? <==> WritesDraft(s, call, listing, id))
            && (!call.IndexCall? ==> t.engine == s.engine)
            && (id in s.nodes && !(call.IndexCall? && call.id == id) ==>
                  && id in t.nodes && t.nodes[id].vikingUri == s.nodes[id].vikingUri
                  && t.nodes[id].contentUri == s.nodes[id].contentUri
                  && t.nodes[id].indexedVersion == s.nodes[id].indexedVersion
                  && t.nodes[id].status == if call.SaveCall? && call.id == id then Dirty else s.nodes[id].status)
  {
    hide CurrentContentUri, IndexUri, Imported, IsBlank;
    var t := Apply(s, call, listing);
    if TextWritten(s, call, id).Some? {
      assert t.drafts[id].version == VersionOf(s, id) + 1;
    }
  }

  /** In every run a draft holds the text of the last call that wrote it. */
  lemma {:induction false} RunKeepsLastText(s: State, calls: seq<Call>, listing: Listing, id: Id)
    ensures TextOf(Run(s, calls, listing), id) == LastWritten(s, calls, listing, id, TextOf(s, id))
    decreases |calls|
  {
    if calls != [] {
      hide Apply, TextWritten, TextOf;
      ApplyWritesText(s, calls[0], listing, id);
      RunKeepsLastText(Apply(s, calls[0], listing), calls[1..], listing, id);
    }
  }

  lemma {:induction false} NothingWritten(s: State, calls: seq<Call>, listing: Listing, id: Id, before: Option<string>)
    requires LastWritten(s, calls, listing, id, None).None?
    ensures LastWritten(s, calls, listing, id, before) == before
    decreases |calls|
  {
    if calls != [] {
      hide Apply, TextWritten;
      var rest, written := Apply(s, calls[0], listing), TextWritten(s, calls[0], id);
      if written.Some? {
        SomethingWritten(rest, calls[1..], listing, id, written);
        assert false;
      } else {
        NothingWritten(rest, calls[1..], listing, id, before);
      }
    }
  }

  lemma {:induction false} SomethingWritten(s: State, calls: seq<Call>, listing: Listing, id: Id, before: Option<string>)
    requires before.Some?
    ensures LastWritten(s, calls, listing, id, before).Some?
    decreases |calls|
  {
    if calls != [] {
      hide Apply, TextWritten;
      var written := TextWritten(s, calls[0], id);
      SomethingWritten(Apply(s, calls[0], listing), calls[1..], listing, id, if written.Some? then written else before);
    }
  }

  predicate Indexes(calls: seq<Call>, id: Id) {
    exists call <- calls :: call.IndexCall? && call.id == id
  }

  predicate Saves(calls: seq<Call>, id: Id) {
    exists call <- calls :: call.SaveCall? && call.id == id
  }

  /** Until it is indexed, a node keeps its place in the engine, and it is dirty from its first save
      on; reading does not change its status. */
  lemma {:induction false} RunUntilIndexed(s: State, calls: seq<Call>, listing: Listing, id: Id)
    requires id in s.nodes && !Indexes(calls, id)
    ensures var t := Run(s, calls, listing);
            && id in t.nodes
            && t.nodes[id].vikingUri == s.nodes[id].vikingUri && t.nodes[id].contentUri == s.nodes[id].contentUri
            && t.nodes[id].indexedVersion == s.nodes[id].indexedVersion
            && t.nodes[id].status == if Saves(calls, id) then Dirty else s.nodes[id].status
    decreases |calls|
  {
    if calls != [] {
      hide Apply, TextWritten, TextOf;
      var call, rest := calls[0], calls[1..];
      ApplyWritesText(s, call, listing, id);
      assert call in calls && forall c <- rest :: c in calls;
      assert Saves(calls, id) <==> (call.SaveCall? && call.id == id) || Saves(rest, id) by {
        assert calls == [call] + rest;
      }
      RunUntilIndexed(Apply(s, call, listing), rest, listing, id);
    }
  }

  /** A reader sees what was saved last: whatever was stored before and whatever else happens
      afterwards, until the draft is written again. Until it is indexed the document stays dirty. */
  lemma SavedIsShown(s: State, id: Id, markdown: string, after: seq<Call>, listing: Listing)
    requires id in s.nodes && !IsBlank(markdown)
    requires LastWritten(Apply(s, SaveCall(id, markdown), listing), after, listing, id, None).None?
    ensures var t := Run(s, [SaveCall(id, markdown)] + after, listing);
            && id in t.nodes && ViewOf(t, id, listing) == Shown(markdown)
            && (!Indexes(after, id) ==> t.nodes[id].status == Dirty)
  {
    hide Run, Apply, IsBlank, CurrentContentUri, LastWritten, Imported, Indexes;
    var call := SaveCall(id, markdown);
    var u := Apply(s, call, listing);
    var calls := [call] + after;
    assert calls[0] == call && calls[1..] == after;
    assert Run(s, calls, listing) == Run(u, after, listing) by { RunOfFirst(s, calls, listing); }
    ApplyWritesText(s, call, listing, id);
    NothingWritten(u, after, listing, id, Some(markdown));
    RunKeepsLastText(u, after, listing, id);
    ApplyKeepsNodes(s, call, listing);
    RunKeepsNodes(u, after, listing);
    assert id in Run(u, after, listing).nodes.Keys;
    if !Indexes(after, id) {
      RunUntilIndexed(u, after, listing, id);
    }
  }

  lemma RunOfFirst(s: State, calls: seq<Call>, listing: Listing)
    requires calls != []
    ensures Run(s, calls, listing) == Run(Apply(s, calls[0], listing), calls[1..], listing)
  {
  }

  // ---- A clean index step ----

  /** Where a successful index step has put the content. */
  function WrittenUri(node: DocNode, answer: Answer): Option<Uri> {
    match answer.write
    case Written => IndexUri(node)
    case Injected(leaf) => Some(leaf)
    case _ => None
  }

  /** The blank draft of a document that has never been indexed, but has imported content: the
      reader sees the imported content, and would see the blank draft once a content URI is set. */
  predicate BlankDraftHidesImport(s: State, id: Id, listing: Listing)
    requires id in s.nodes
  {
    && id in s.drafts && IsBlank(s.drafts[id].markdown)
    && CurrentContentUri(s.nodes[id]).None?
    && match Stored(s.engine, s.nodes[id], listing) { case Shown(text) => !IsBlank(text) case Unavailable => false }
  }

  lemma ContentUriDecides(node: DocNode)
    requires node.contentUri.Some? && node.contentUri.value != ""
    ensures CurrentContentUri(node) == if IsContentUri(node.contentUri.value) then node.contentUri else None
  {
  }

  lemma EmptyIsNoContentUri()
    ensures !IsContentUri("")
  {
    hide LowerAll;
    TrimOfTrimmed("");
    assert |LowerAll("")| == 0;
  }

  /** The URI an index step sets is not empty. */
  lemma IndexUriIsThere(node: DocNode)
    requires IndexUri(node).Some?
    ensures IndexUri(node).value != ""
  {
    hide IsContentUri, IsDirectory, ParentUri;
    EmptyIsNoContentUri();
    if CurrentContentUri(node).None? {
      assert |IndexUri(node).value| >= |DEFAULT_CONTENT_FILE|;
    }
  }

  /** What a reader gets of a document without a readable content URI. */
  function Unindexed(engine: map<Uri, string>, node: DocNode, draft: Option<Draft>, listing: Listing): View {
    Resolve(engine, node.(contentUri := None, vikingUri := DirectoryOf(node)), draft, listing)
  }

  function DirectoryOf(node: DocNode): Option<Uri> {
    if node.vikingUri.Some? && IsDirectory(node.vikingUri.value) then node.vikingUri else None
  }

  lemma UnindexedIs(engine: map<Uri, string>, node: DocNode, draft: Option<Draft>, listing: Listing)
    requires CurrentContentUri(node).None?
    ensures Resolve(engine, node, draft, listing) == Unindexed(engine, node, draft, listing)
  {
    hide IsContentUri, IsBlank, IsDirectory, Join;
  }

  /** When an index step ends clean, the engine holds what the reader saw before the step, and the
      node and its draft agree that their version is the indexed one. If the URI that was written is
      one that content is read from, the reader's view stays the same exactly when no blank draft
      had been hiding imported content. If it is not, the content just written is not read: the
      reader gets what an unindexed document shows, and keeps a draft that is not blank. */
  lemma CleanIndexKeepsView(s: State, id: Id, answer: Answer, listing: Listing)
    requires Inv(s) && id in s.nodes
    requires ViewOf(s, id, listing).Shown? && IndexUri(s.nodes[id]).Some? && WrittenUri(s.nodes[id], answer).Some?
    requires HasVectors(answer) && !answer.statsFail
    ensures var t, uri := Index(s, id, answer, listing), WrittenUri(s.nodes[id], answer).value;
            && id in t.nodes
            && var node := t.nodes[id];
            && node.status == Clean
            && node.indexedVersion == node.draftVersion == VersionOf(t, id)
            && node.contentUri == Some(uri) && uri in t.engine
            && ViewOf(s, id, listing) == Shown(t.engine[uri])
            && (IsContentUri(uri) ==>
                  (ViewOf(t, id, listing) == ViewOf(s, id, listing) <==> !BlankDraftHidesImport(s, id, listing)))
            && (!IsContentUri(uri) ==>
                  && ViewOf(t, id, listing) == Unindexed(t.engine, s.nodes[id], DraftOf(s, id), listing)
                  && (id in s.drafts && !IsBlank(s.drafts[id].markdown) ==>
                        ViewOf(t, id, listing) == ViewOf(s, id, listing)))
  {
    hide IsContentUri, IsBlank, IndexUri, Imported, IsDirectory;
    var t := Index(s, id, answer, listing);
    IndexUriIsThere(s.nodes[id]);
    ContentUriDecides(t.nodes[id]);
    assert NodeInv(s.nodes[id], DraftOf(s, id));
    assert DraftOf(t, id) == DraftOf(s, id);
    if CurrentContentUri(t.nodes[id]).None? {
      UnindexedIs(t.engine, t.nodes[id], DraftOf(s, id), listing);
      assert DirectoryOf(t.nodes[id]) == DirectoryOf(s.nodes[id]);
      SameDirectorySameView(t.engine, t.nodes[id], s.nodes[id], DraftOf(s, id), listing);
    }
  }

  lemma SameDirectorySameView(engine: map<Uri, string>, a: DocNode, b: DocNode, draft: Option<Draft>, listing: Listing)
    requires DirectoryOf(a) == DirectoryOf(b)
    ensures Unindexed(engine, a, draft, listing) == Unindexed(engine, b, draft, listing)
  {
    hide IsContentUri, IsBlank, IsDirectory, Join;
  }

  // ---- An imported directory ----

  /** The engine lists these leaves. */
  function Listed(leaves: seq<Uri>): Listing {
    (_, _) => leaves
  }

  /** A document imported as a directory shows its leaves in the order of the listing: a leaf without the
      white space at its end, an empty line between two leaves, and nothing for a blank one. It cannot
      be shown if the content of any leaf is missing. */
  lemma ImportShowsLeavesInOrder(engine: map<Uri, string>, node: DocNode, a: seq<Uri>, b: seq<Uri>, leaf: Uri)
    requires node.vikingUri.Some? && IsDirectory(node.vikingUri.value)
    ensures Imported(engine, node, Listed([])) == Shown("")
    ensures Imported(engine, node, Listed([leaf]))
         == if leaf !in engine then Unavailable
            else Shown(if IsBlank(engine[leaf]) then "" else TrimEnd(engine[leaf]))
    ensures var first, second, both := Imported(engine, node, Listed(a)), Imported(engine, node, Listed(b)),
                                       Imported(engine, node, Listed(a + b));
            if first.Unavailable? || second.Unavailable? then both.Unavailable?
            else if first.markdown == "" then both == second
            else if second.markdown == "" then both == first
            else both == Shown(first.markdown + "\n\n" + second.markdown)
  {
    hide IsDirectory, IsBlank, TrimEnd, Join, Parts;
    EmptyParts(engine);
    ImportOfOneLeaf(engine, node, leaf);
    StoredOfBoth(engine, a, b);
    if AllStored(engine, a) && AllStored(engine, b) {
      PartsConcat(engine, a, b);
      PartsAreThere(engine, a);
      PartsAreThere(engine, b);
      JoinOfBoth(Parts(engine, a), Parts(engine, b));
    }
  }

  lemma ImportOfOneLeaf(engine: map<Uri, string>, node: DocNode, leaf: Uri)
    requires node.vikingUri.Some? && IsDirectory(node.vikingUri.value)
    ensures Imported(engine, node, Listed([leaf]))
         == if leaf !in engine then Unavailable
            else Shown(if IsBlank(engine[leaf]) then "" else TrimEnd(engine[leaf]))
  {
    hide IsDirectory, IsBlank, TrimEnd, Join, Parts;
    assert leaf in [leaf];
    if leaf in engine {
      EmptyParts(engine);
      PartsAppend(engine, [], leaf);
      assert [] + [leaf] == [leaf];
      var parts := if IsBlank(engine[leaf]) then [] else [TrimEnd(engine[leaf])];
      assert [] + parts == parts;
      OnePart(parts);
    } else {
      assert !AllStored(engine, [leaf]);
    }
  }

  lemma EmptyParts(engine: map<Uri, string>)
    ensures AllStored(engine, []) && Parts(engine, []) == [] && Join([], "\n\n") == ""
  {
  }

  lemma OnePart(parts: seq<string>)
    requires |parts| <= 1
    ensures Join(parts, "\n\n") == if parts == [] then "" else parts[0]
  {
  }

  lemma StoredOfBoth(engine: map<Uri, string>, a: seq<Uri>, b: seq<Uri>)
    ensures AllStored(engine, a + b) <==> AllStored(engine, a) && AllStored(engine, b)
  {
    assert (forall leaf <- a :: leaf in a + b) && forall leaf <- b :: leaf in a + b;
  }

  lemma {:induction false} PartsAreThere(engine: map<Uri, string>, leaves: seq<Uri>)
    requires AllStored(engine, leaves)
    ensures forall part <- Parts(engine, leaves) :: part != ""
  {
    if leaves != [] {
      PartsAreThere(engine, leaves[1..]);
      if !IsBlank(engine[leaves[0]]) && TrimEnd(engine[leaves[0]]) == "" {
        BlankIsAllSpace(engine[leaves[0]]);
      }
    }
  }

  lemma JoinOfBoth(a: seq<string>, b: seq<string>)
    requires (forall part <- a :: part != "") && forall part <- b :: part != ""
    ensures var first, second, both := Join(a, "\n\n"), Join(b, "\n\n"), Join(a + b, "\n\n");
            if first == "" then both == second else if second == "" then both == first
            else both == first + "\n\n" + second
  {
    JoinIsThere(a);
    JoinIsThere(b);
    hide Join;
    if a == [] {
      assert a + b == b;
    } else if b == [] {
      assert a + b == a;
    } else {
      JoinConcat(a, b, "\n\n");
    }
  }

  lemma JoinIsThere(parts: seq<string>)
    requires forall part <- parts :: part != ""
    ensures Join(parts, "\n\n") == "" <==> parts == []
  {
    if parts != [] {
      assert parts[0] in parts;
    }
  }

  // ---- Where the content is ----

  /** A document imported as a single file is read from that file and indexed into it; once a content
      URI is set it is read from and indexed into that. */
  lemma FilesAreReadWhereIndexed(engine: map<Uri, string>, node: DocNode, listing: Listing, uri: Uri)
    requires IsContentUri(uri) && uri != "" && !IsDirectory(uri)
    requires node.contentUri == Some(uri) || (node.contentUri.None? && node.vikingUri == Some(uri))
    ensures IndexUri(node) == Some(uri)
    ensures Resolve(engine, node, None, listing) == if uri in engine then Shown(engine[uri]) else Unavailable
  {
    hide IsContentUri, IsDirectory;
  }

  /** Case does not matter for whether a URI is one that content is read from. */
  lemma ContentUriInAnyCase(a: Uri, b: Uri)
    requires LowerAll(a) == LowerAll(b) && Trimmed(a) && Trimmed(b)
    ensures IsContentUri(a) == IsContentUri(b)
  {
    hide LowerAll, Contains, Trim;
    TrimOfTrimmed(a);
    TrimOfTrimmed(b);
  }

  // ---- Content written where it is not read ----

  lemma PartsStep(engine: map<Uri, string>, leaves: seq<Uri>)
    requires leaves != [] && AllStored(engine, leaves)
    ensures leaves[0] in engine && AllStored(engine, leaves[1..])
    ensures Parts(engine, leaves)
         == (if IsBlank(engine[leaves[0]]) then [] else [TrimEnd(engine[leaves[0]])]) + Parts(engine, leaves[1..])
  {
    hide IsBlank, TrimEnd;
  }

  lemma {:induction false} PartsConcat(engine: map<Uri, string>, a: seq<Uri>, b: seq<Uri>)
    requires AllStored(engine, a) && AllStored(engine, b)
    ensures AllStored(engine, a + b) && Parts(engine, a + b) == Parts(engine, a) + Parts(engine, b)
  {
    hide *;
    StoredOfBoth(engine, a, b);
    if a == [] {
      assert a + b == b;
      EmptyParts(engine);
    } else {
      assert (a + b)[1..] == a[1..] + b && (a + b)[0] == a[0];
      PartsStep(engine, a);
      PartsStep(engine, a + b);
      PartsConcat(engine, a[1..], b);
    }
  }

  lemma {:induction false} PartsElsewhere(engine: map<Uri, string>, leaves: seq<Uri>, uri: Uri, text: string)
    requires AllStored(engine, leaves) && uri !in leaves
    ensures AllStored(engine[uri := text], leaves) && Parts(engine[uri := text], leaves) == Parts(engine, leaves)
  {
    hide IsBlank, TrimEnd;
    if leaves != [] {
      PartsElsewhere(engine, leaves[1..], uri, text);
    }
  }

  function Total(parts: seq<string>): nat {
    if parts == [] then 0 else |parts[0]| + 2 + Total(parts[1..])
  }

  lemma {:induction false} TotalConcat(a: seq<string>, b: seq<string>)
    ensures Total(a + b) == Total(a) + Total(b)
  {
    if a == [] {
      assert a + b == b;
    } else {
      assert (a + b)[1..] == a[1..] + b;
      TotalConcat(a[1..], b);
    }
  }

  lemma {:induction false} JoinLength(parts: seq<string>)
    requires parts != []
    ensures |Join(parts, "\n\n")| == Total(parts) - 2
  {
    if |parts| > 1 {
      JoinLength(parts[1..]);
    }
  }

  lemma JoinGrows(a: seq<string>, part: string, b: seq<string>)
    requires a + b != []
    ensures |Join(a + [part] + b, "\n\n")| > |Join(a + b, "\n\n")|
  {
    hide Join;
    JoinLength(a + b);
    JoinLength(a + [part] + b);
    TotalConcat(a, b);
    TotalConcat(a + [part], b);
    TotalConcat(a, [part]);
    assert Total([part]) == |part| + 2 by { assert [part][1..] == []; }
  }

  /** The leaves of a directory after one more file was written: the old ones in their order, and the
      new one somewhere among them. */
  ghost predicate ListsOneMore(before: seq<Uri>, after: seq<Uri>, uri: Uri) {
    uri !in before && exists k | 0 <= k <= |before| :: after == before[..k] + [uri] + before[k..]
  }

  lemma PartsOfOneMore(engine: map<Uri, string>, a: seq<Uri>, b: seq<Uri>, uri: Uri, text: string)
    requires AllStored(engine, a) && AllStored(engine, b) && uri !in a && uri !in b
    ensures var e := engine[uri := text];
            && AllStored(e, a + [uri] + b)
            && Parts(e, a + [uri] + b)
               == Parts(engine, a) + (if IsBlank(text) then [] else [TrimEnd(text)]) + Parts(engine, b)
  {
    hide IsBlank, TrimEnd;
    var e := engine[uri := text];
    PartsElsewhere(engine, a, uri, text);
    PartsElsewhere(engine, b, uri, text);
    assert Parts(e, [uri]) == if IsBlank(text) then [] else [TrimEnd(text)] by { assert [uri][1..] == []; }
    PartsConcat(e, a, [uri]);
    PartsConcat(e, a + [uri], b);
  }

  lemma ImportedWithOneMore(engine: map<Uri, string>, node: DocNode, uri: Uri, text: string, listing: Listing)
    requires node.vikingUri.Some? && IsDirectory(node.vikingUri.value)
    requires Imported(engine, node, listing).Shown?
    requires ListsOneMore(listing(engine, node.vikingUri.value), listing(engine[uri := text], node.vikingUri.value), uri)
    ensures Imported(engine[uri := text], node, listing).Shown?
    ensures IsBlank(text) ==> Imported(engine[uri := text], node, listing) == Imported(engine, node, listing)
    ensures !IsBlank(text) && !IsBlank(Imported(engine, node, listing).markdown) ==>
              |Imported(engine[uri := text], node, listing).markdown| > |Imported(engine, node, listing).markdown|
  {
    hide IsBlank, TrimEnd, Join, IsDirectory, Parts;
    var e := engine[uri := text];
    var before := listing(engine, node.vikingUri.value);
    var k :| 0 <= k <= |before| && listing(e, node.vikingUri.value) == before[..k] + [uri] + before[k..];
    var a, b := before[..k], before[k..];
    assert before == a + b;
    PartsConcat(engine, a, b);
    PartsOfOneMore(engine, a, b, uri, text);
    var pa, pb := Parts(engine, a), Parts(engine, b);
    assert pa + [] + pb == pa + pb;
    if !IsBlank(text) && !IsBlank(Join(pa + pb, "\n\n")) {
      if pa + pb == [] {
        NothingJoined();
      }
      JoinGrows(pa, TrimEnd(text), pb);
    }
  }

  lemma NothingJoined()
    ensures IsBlank(Join([], "\n\n"))
  {
    TrimOfTrimmed("");
  }

  /** An imported directory whose content file is not one that content is read from, as any below
      /assets/: if the file is listed with the others from then on, indexing keeps the reader's view
      exactly when a draft that is not blank is shown, or there is nothing to show. */
  lemma UnreadableWriteKeepsViewIff(s: State, id: Id, answer: Answer, listing: Listing)
    requires Inv(s) && id in s.nodes
    requires ViewOf(s, id, listing).Shown? && IndexUri(s.nodes[id]).Some? && WrittenUri(s.nodes[id], answer).Some?
    requires HasVectors(answer) && !answer.statsFail
    requires CurrentContentUri(s.nodes[id]).None? && !IsContentUri(WrittenUri(s.nodes[id], answer).value)
    requires var node, t := s.nodes[id], Index(s, id, answer, listing);
             && node.vikingUri.Some? && IsDirectory(node.vikingUri.value)
             && ListsOneMore(listing(s.engine, node.vikingUri.value), listing(t.engine, node.vikingUri.value),
                             WrittenUri(node, answer).value)
    ensures ViewOf(Index(s, id, answer, listing), id, listing) == ViewOf(s, id, listing)
       <==> (id in s.drafts && !IsBlank(s.drafts[id].markdown)) || IsBlank(ViewOf(s, id, listing).markdown)
  {
    hide IsContentUri, IsBlank, IndexUri, Imported, IsDirectory, Index, Inv, HasVectors, ListsOneMore;
    var node, t, uri := s.nodes[id], Index(s, id, answer, listing), WrittenUri(s.nodes[id], answer).value;
    var text := ViewOf(s, id, listing).markdown;
    CleanIndexKeepsView(s, id, answer, listing);
    IndexedEngine(s, id, answer, listing);
    UnindexedIs(s.engine, node, DraftOf(s, id), listing);
    UnindexedOfDirectory(s.engine, node, DraftOf(s, id), listing);
    UnindexedOfDirectory(t.engine, node, DraftOf(s, id), listing);
    if Imported(s.engine, node, listing).Shown? {
      ImportedWithOneMore(s.engine, node, uri, text, listing);
    }
  }

  lemma IndexedEngine(s: State, id: Id, answer: Answer, listing: Listing)
    requires id in s.nodes && ViewOf(s, id, listing).Shown? && IndexUri(s.nodes[id]).Some?
    requires WrittenUri(s.nodes[id], answer).Some?
    ensures Index(s, id, answer, listing).engine
         == s.engine[WrittenUri(s.nodes[id], answer).value := ViewOf(s, id, listing).markdown]
  {
    hide Resolve, IndexUri;
  }

  lemma UnindexedOfDirectory(engine: map<Uri, string>, node: DocNode, draft: Option<Draft>, listing: Listing)
    requires node.vikingUri.Some? && IsDirectory(node.vikingUri.value)
    ensures Unindexed(engine, node, draft, listing)
         == match draft
            case None => Imported(engine, node, listing)
            case Some(d) =>
              if !IsBlank(d.markdown) then Shown(d.markdown)
              else match Imported(engine, node, listing)
                   case Unavailable => Unavailable
                   case Shown(text) => if IsBlank(text) then Shown(d.markdown) else Shown(text)
  {
    hide IsContentUri, IsBlank, IsDirectory, Join;
  }

  /** An index step whose content is refused, or written where it cannot be confirmed, leaves the
      node failed and otherwise as it was, for the next try; the reader keeps the view, unless the
      unconfirmed leaf is one of an imported directory. */
  lemma FailedIndexKeepsView(s: State, id: Id, answer: Answer, listing: Listing)
    requires Inv(s) && id in s.nodes && ViewOf(s, id, listing).Shown? && IndexUri(s.nodes[id]).Some?
    requires answer.write.Rejected? || answer.write.Unconfirmed?
    ensures var t := Apply(s, IndexCall(id, answer), listing);
            && t.nodes == s.nodes[id := s.nodes[id].(status := Failed)] && t.drafts == s.drafts
            && t.engine == (if answer.write.Rejected? then s.engine
                            else s.engine[answer.write.at := ViewOf(s, id, listing).markdown])
            && (answer.write.Rejected? || CurrentContentUri(s.nodes[id]).Some?
                || (id in s.drafts && !IsBlank(s.drafts[id].markdown)) ==>
                  ViewOf(t, id, listing) == ViewOf(s, id, listing))
  {
    hide IsContentUri, IsBlank, IndexUri, IsDirectory, Join;
    assert NodeInv(s.nodes[id], DraftOf(s, id));
    assert s.nodes[id].(draftVersion := IndexVersion(s, id)) == s.nodes[id];
  }

  // ---- A busy engine ----

  /** While the engine is busy the node already points at the URI of its content to be. The reader
      keeps the view exactly when the node had a content URI before, or the new one is none that
      content is read from, or there is a draft that does not hide an import, or there is no draft
      and the engine already stores the very text under that URI. */
  lemma BusyKeepsViewIff(s: State, id: Id, answer: Answer, listing: Listing)
    requires id in s.nodes && ViewOf(s, id, listing).Shown? && answer.write.Busy?
    requires IndexUri(s.nodes[id]).Some?
    ensures var t, uri := Index(s, id, answer, listing), IndexUri(s.nodes[id]).value;
            && id in t.nodes
            && (ViewOf(t, id, listing) == ViewOf(s, id, listing) <==>
                  || CurrentContentUri(s.nodes[id]).Some?
                  || !IsContentUri(uri)
                  || (id in s.drafts && !BlankDraftHidesImport(s, id, listing))
                  || (id !in s.drafts && uri in s.engine && s.engine[uri] == ViewOf(s, id, listing).markdown))
            && (CurrentContentUri(s.nodes[id]).None? && IsContentUri(uri) && id !in s.drafts && uri !in s.engine ==>
                  ViewOf(t, id, listing) == Unavailable)
  {
    hide IsContentUri, IsBlank, ContainerUri, Imported, IsDirectory;
    var t := Index(s, id, answer, listing);
    IndexUriIsThere(s.nodes[id]);
    ContentUriDecides(t.nodes[id]);
    assert DraftOf(t, id) == DraftOf(s, id);
    ImportIsOfDirectory(s.engine, s.nodes[id], t.nodes[id], listing);
  }

  lemma ImportIsOfDirectory(engine: map<Uri, string>, a: DocNode, b: DocNode, listing: Listing)
    requires a.vikingUri == b.vikingUri
    ensures Imported(engine, a, listing) == Imported(engine, b, listing)
  {
  }

  /** An index step ends clean only if it wrote the content and found vectors for it. */
  lemma CleanOnlyWhenIndexed(s: State, id: Id, answer: Answer, listing: Listing)
    requires id in s.nodes && s.nodes[id].status != Clean
    ensures var t := Index(s, id, answer, listing);
            && id in t.nodes
            && (t.nodes[id].status == Clean <==>
                  && ViewOf(s, id, listing).Shown? && IndexUri(s.nodes[id]).Some?
                  && WrittenUri(s.nodes[id], answer).Some? && HasVectors(answer) && !answer.statsFail)
  {
    hide Resolve, IndexUri;
  }

  /** The URI an index call may write to. */
  predicate WritesTo(s: State, call: Call, uri: Uri) {
    && call.IndexCall? && call.id in s.nodes
    && match call.answer.write
       case Written => IndexUri(s.nodes[call.id]) == Some(uri)
       case Injected(leaf) => leaf == uri
       case Unconfirmed(leaf) => leaf == uri
       case _ => false
  }

  /** A step on one document leaves the view of every other document alone, if that view comes from
      a draft, or from a URI the step does not write to. */
  lemma OthersKeepTheirView(s: State, call: Call, listing: Listing, other: Id)
    requires other in s.nodes && other != call.id
    requires
      || (other in s.drafts && !IsBlank(s.drafts[other].markdown))
      || (&& CurrentContentUri(s.nodes[other]).Some?
          && !WritesTo(s, call, CurrentContentUri(s.nodes[other]).value))
    ensures var t := Apply(s, call, listing);
            other in t.nodes && ViewOf(t, other, listing) == ViewOf(s, other, listing)
  {
    hide CurrentContentUri, IndexUri, IsBlank, Imported;
    var t := Apply(s, call, listing);
    assert t.nodes[other] == s.nodes[other] && DraftOf(t, other) == DraftOf(s, other);
  }

  // ---- From the beginning ----

  /** Nodes as they are created: nothing was written and nothing indexed. */
  predicate IsFresh(s: State) {
    s.drafts == map[] && forall id <- s.nodes :: s.nodes[id].draftVersion == 0 && s.nodes[id].indexedVersion == 0
  }

  /** In every run over fresh nodes, nodes and drafts agree, and the version of a draft is the number
      of times it was written. */
  lemma FreshRunCountsWrites(s: State, calls: seq<Call>, listing: Listing, id: Id)
    requires IsFresh(s)
    ensures Inv(Run(s, calls, listing))
    ensures VersionOf(Run(s, calls, listing), id) == DraftWrites(s, calls, listing, id)
  {
    hide Run, DraftWrites;
    assert Inv(s);
    RunKeepsInv(s, calls, listing, id);
  }

  // ---- An index step that is interrupted ----

  /** The state after the first write of an index step, which records the draft it is about. */
  function IndexBegun(s: State, id: Id): State
    requires id in s.nodes
  {
    s.(nodes := s.nodes[id := Merged(s.nodes[id], IndexState(None, Some(Indexing), Some(IndexVersion(s, id)), None))])
  }

  /** The rest of an index step whose content `text` is written to `uri`, with what the first part
      knew: `version`, and the version indexed before. */
  function IndexEnded(s: State, id: Id, uri: Uri, text: string, version: nat, before: nat, answer: Answer): State
    requires id in s.nodes
  {
    var state := IndexState(
      Some(uri), Some(if answer.statsFail then Failed else if HasVectors(answer) then Clean else Indexing),
      Some(version), Some(if HasVectors(answer) then version else before));
    s.(nodes := s.nodes[id := Merged(s.nodes[id], state)], engine := s.engine[uri := text])
  }

  /** Without anything in between, the two parts are the index step. */
  lemma PartsAreIndex(s: State, id: Id, answer: Answer, listing: Listing)
    requires id in s.nodes && ViewOf(s, id, listing).Shown? && IndexUri(s.nodes[id]).Some?
    requires WrittenUri(s.nodes[id], answer).Some?
    ensures Index(s, id, answer, listing)
         == IndexEnded(IndexBegun(s, id), id, WrittenUri(s.nodes[id], answer).value, ViewOf(s, id, listing).markdown,
                       IndexVersion(s, id), s.nodes[id].indexedVersion, answer)
  {
    hide Resolve, IndexUri;
    assert Index(s, id, answer, listing).nodes
        == IndexEnded(IndexBegun(s, id), id, WrittenUri(s.nodes[id], answer).value, ViewOf(s, id, listing).markdown,
                      IndexVersion(s, id), s.nodes[id].indexedVersion, answer).nodes;
  }

  lemma {:induction false} RunKeepsNodes(s: State, calls: seq<Call>, listing: Listing)
    ensures Run(s, calls, listing).nodes.Keys == s.nodes.Keys
    decreases |calls|
  {
    if calls != [] {
      ApplyKeepsNodes(s, calls[0], listing);
      hide Apply;
      RunKeepsNodes(Apply(s, calls[0], listing), calls[1..], listing);
    }
  }

  lemma ApplyKeepsNodes(s: State, call: Call, listing: Listing)
    ensures Apply(s, call, listing).nodes.Keys == s.nodes.Keys
  {
    hide Resolve, IndexUri, CurrentContentUri, IsBlank;
  }

  /** Whatever happens between the two writes of an index step: afterwards the node knows the version
      of its draft if and only if the draft was not written in between. If it was, an index step that
      finds vectors calls content clean that is older than the draft. */
  lemma InterruptedIndexAgreesIff(s: State, id: Id, uri: Uri, text: string, answer: Answer, calls: seq<Call>,
                                  listing: Listing)
    requires Inv(s) && id in s.nodes
    ensures var begun := IndexBegun(s, id);
            var meanwhile := Run(begun, calls, listing);
            && id in meanwhile.nodes
            && var t := IndexEnded(meanwhile, id, uri, text, IndexVersion(s, id), s.nodes[id].indexedVersion, answer);
            && (t.nodes[id].draftVersion == VersionOf(t, id) <==> DraftWrites(begun, calls, listing, id) == 0)
            && (DraftWrites(begun, calls, listing, id) > 0 && HasVectors(answer) && !answer.statsFail ==>
                  t.nodes[id].status == Clean && t.nodes[id].indexedVersion < VersionOf(t, id))
  {
    hide Run, DraftWrites, Resolve, IndexUri;
    var begun := IndexBegun(s, id);
    assert NodeInv(s.nodes[id], DraftOf(s, id));
    assert Inv(begun) by {
      forall n | n in begun.nodes ensures NodeInv(begun.nodes[n], DraftOf(begun, n)) {
        assert NodeInv(s.nodes[n], DraftOf(s, n));
      }
    }
    RunKeepsNodes(begun, calls, listing);
    assert id in Run(begun, calls, listing).nodes.Keys;
    RunKeepsInv(begun, calls, listing, id);
  }

  // ---- The losses at concrete documents ----

  lemma {:induction false} LowerStays(s: string)
    requires forall i | 0 <= i < |s| :: !('A' <= s[i] <= 'Z')
    ensures LowerAll(s) == s
  {
    if s != "" {
      LowerStays(s[1..]);
      assert [s[0]] + s[1..] == s;
    }
  }

  lemma {:induction false} ContainsEnds(s: string, part: string)
    requires part != "" && Contains(s, part)
    ensures exists i | 0 <= i && i + |part| <= |s| :: s[i] == part[0] && s[i + |part| - 1] == part[|part| - 1]
  {
    if s[..|part|] == part {
      assert s[0] == part[0] && s[0 + |part| - 1] == s[..|part|][|part| - 1];
    } else {
      ContainsEnds(s[1..], part);
      var i :| 0 <= i && i + |part| <= |s| - 1 && s[1..][i] == part[0] && s[1..][i + |part| - 1] == part[|part| - 1];
      assert s[i + 1] == part[0] && s[(i + 1) + |part| - 1] == part[|part| - 1];
    }
  }

  /** A document imported as the directory "/", with one leaf. */
  const IMPORTED := State(map["n" := DocNode(Some("/"), None, 0, 0, Clean)], map[], map["/a.md" := "t"])

  /** The directory "/" lists the one leaf it was imported with. */
  function OneLeaf(engine: map<Uri, string>, uri: Uri): seq<Uri> { ["/a.md"] }

  lemma RootContentUri()
    ensures IsDirectory("/") && IsContentUri("/content.md")
    ensures IndexUri(IMPORTED.nodes["n"]) == Some("/content.md")
  {
    hide IsContentUri, IsDirectory, IndexUri;
    RootFileIsContent();
    assert "" + "/" == "/" && "/" + DEFAULT_CONTENT_FILE == "/content.md";
    DirectoryIndexUri(IMPORTED.nodes["n"], "");
  }

  lemma DirectoryIndexUri(node: DocNode, name: string)
    requires node.contentUri.None? && node.vikingUri == Some(name + "/")
    ensures IsDirectory(name + "/") && IndexUri(node) == Some(name + "/" + DEFAULT_CONTENT_FILE)
  {
    hide IsContentUri;
    assert (name + "/")[|name|..] == "/";
  }

  lemma RootFileIsContent()
    ensures IsContentUri("/content.md")
  {
    hide LowerAll, Contains, Trim;
    var u := "/content.md";
    TrimOfTrimmed(u);
    LowerStays(u);
    assert u[|u| - 3..] == ".md";
    NotInAssets(u);
  }

  lemma NotInAssets(u: Uri)
    requires u == "/content.md"
    ensures !Contains(u, "/assets/")
  {
    hide Contains;
    if Contains(u, "/assets/") {
      ContainsEnds(u, "/assets/");
    }
  }

  lemma ImportedIs(engine: map<Uri, string>, node: DocNode)
    requires node.vikingUri == Some("/") && "/a.md" in engine && engine["/a.md"] == "t"
    ensures Imported(engine, node, OneLeaf) == Shown("t") && !IsBlank("t")
  {
    TrimOfTrimmed("t");
    assert "/"[|"/"| - 1..] == "/";
    assert ["/a.md"][1..] == [];
    assert Parts(engine, ["/a.md"]) == ["t"];
  }

  /** A blank draft is saved for an imported document, whose reader goes on seeing the import; a clean
      index step then shows the blank draft instead. */
  lemma BlankDraftHidesImportWitness(answer: Answer)
    requires answer == Answer(Written, Some(1), false)
    ensures var s := Run(IMPORTED, [SaveCall("n", " ")], OneLeaf);
            var t := Run(IMPORTED, [SaveCall("n", " "), IndexCall("n", answer)], OneLeaf);
            && IsFresh(IMPORTED) && "n" in t.nodes && t.nodes["n"].status == Clean
            && ViewOf(s, "n", OneLeaf) == Shown("t") && ViewOf(t, "n", OneLeaf) == Shown(" ")
  {
    hide IsContentUri, Imported, IndexUri;
    var s := Save(IMPORTED, "n", " ");
    var t := Index(s, "n", answer, OneLeaf);
    RunOfTwo(IMPORTED, SaveCall("n", " "), IndexCall("n", answer), OneLeaf);
    RootContentUri();
    BlankIsAllSpace(" ");
    ImportedIs(s.engine, s.nodes["n"]);
    assert IndexUri(s.nodes["n"]) == IndexUri(IMPORTED.nodes["n"]) by { SameIndexUri(s.nodes["n"], IMPORTED.nodes["n"]); }
    assert CurrentContentUri(s.nodes["n"]).None?;
    assert ViewOf(s, "n", OneLeaf) == Shown("t");
  }

  lemma RunOfTwo(s: State, first: Call, second: Call, listing: Listing)
    ensures Run(s, [first], listing) == Apply(s, first, listing)
    ensures Run(s, [first, second], listing) == Apply(Apply(s, first, listing), second, listing)
  {
    hide Apply;
    assert [first][1..] == [] && [first, second][1..] == [second] && [second][1..] == [];
    assert Run(Apply(s, first, listing), [second], listing) == Apply(Apply(s, first, listing), second, listing);
  }

  lemma SameIndexUri(a: DocNode, b: DocNode)
    requires a.vikingUri == b.vikingUri && a.contentUri == b.contentUri
    ensures IndexUri(a) == IndexUri(b)
  {
  }

  /** An index step finds the engine busy; the imported document can no longer be read. */
  lemma BusyHidesImportWitness(answer: Answer)
    requires answer.write.Busy?
    ensures var t := Run(IMPORTED, [IndexCall("n", answer)], OneLeaf);
            && "n" in t.nodes
            && ViewOf(IMPORTED, "n", OneLeaf) == Shown("t") && ViewOf(t, "n", OneLeaf) == Unavailable
  {
    hide IsContentUri, Imported, IndexUri;
    RunOfTwo(IMPORTED, IndexCall("n", answer), IndexCall("n", answer), OneLeaf);
    RootContentUri();
    ImportedIs(IMPORTED.engine, IMPORTED.nodes["n"]);
    assert CurrentContentUri(IMPORTED.nodes["n"]).None?;
    BusyKeepsViewIff(IMPORTED, "n", answer, OneLeaf);
  }

  /** The same document below an assets directory. */
  const IN_ASSETS := State(map["n" := DocNode(Some("/assets/"), None, 0, 0, Clean)], map[], map["/assets/a.md" := "t"])

  /** The directory lists its leaf, and the content file once it was written. */
  function AssetsLeaves(engine: map<Uri, string>, uri: Uri): seq<Uri> {
    if "/assets/content.md" in engine then ["/assets/a.md", "/assets/content.md"] else ["/assets/a.md"]
  }

  lemma AssetsUris()
    ensures IsDirectory("/assets/") && !IsContentUri("/assets/content.md")
    ensures IndexUri(IN_ASSETS.nodes["n"]) == Some("/assets/content.md")
  {
    hide IsContentUri, IsDirectory, IndexUri;
    AssetsFileIsNoContent();
    AssetsFile();
    DirectoryIndexUri(IN_ASSETS.nodes["n"], "/assets");
  }

  lemma AssetsFile()
    ensures "/assets" + "/" == "/assets/" && "/assets/" + DEFAULT_CONTENT_FILE == "/assets/content.md"
  {
  }

  lemma AssetsFileIsNoContent()
    ensures !IsContentUri("/assets/content.md")
  {
    hide LowerAll, Trim;
    var u := "/assets/content.md";
    TrimOfTrimmed(u);
    LowerStays(u);
    assert u[..8] == "/assets/";
  }

  lemma AssetsImport(engine: map<Uri, string>, node: DocNode)
    requires node.vikingUri == Some("/assets/") && engine == IN_ASSETS.engine
    ensures Imported(engine, node, AssetsLeaves) == Shown("t") && !IsBlank("t")
  {
    TrimOfTrimmed("t");
    assert "/assets/"[|"/assets/"| - 1..] == "/";
    assert ["/assets/a.md"][1..] == [];
    assert Parts(engine, ["/assets/a.md"]) == ["t"];
  }

  /** Indexing an imported document below an assets directory ends clean, and its reader sees the text
      twice over: the file that was written is not read as the content, but as one more leaf. */
  lemma UnreadableWriteWitness(answer: Answer)
    requires answer == Answer(Injected("/assets/content.md"), Some(1), false)
    ensures var t := Run(IN_ASSETS, [IndexCall("n", answer)], AssetsLeaves);
            && IsFresh(IN_ASSETS) && "n" in t.nodes && t.nodes["n"].status == Clean
            && !BlankDraftHidesImport(IN_ASSETS, "n", AssetsLeaves)
            && ViewOf(IN_ASSETS, "n", AssetsLeaves) == Shown("t")
            && ViewOf(t, "n", AssetsLeaves) != Shown("t")
  {
    hide IsContentUri, Imported, IndexUri;
    var s, t := IN_ASSETS, Index(IN_ASSETS, "n", answer, AssetsLeaves);
    RunOfTwo(s, IndexCall("n", answer), IndexCall("n", answer), AssetsLeaves);
    AssetsUris();
    AssetsImport(s.engine, s.nodes["n"]);
    assert CurrentContentUri(s.nodes["n"]).None?;
    IndexedEngine(s, "n", answer, AssetsLeaves);
    var before := ["/assets/a.md"];
    assert ["/assets/a.md", "/assets/content.md"] == before[..1] + ["/assets/content.md"] + before[1..];
    assert ListsOneMore(before, AssetsLeaves(t.engine, "/assets/"), "/assets/content.md");
    UnreadableWriteKeepsViewIff(s, "n", answer, AssetsLeaves);
    CleanIndexKeepsView(s, "n", answer, AssetsLeaves);
  }
}
