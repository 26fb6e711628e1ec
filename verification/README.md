# A verified model of the OpenViking Admin document and collaboration services

This project models, in Dafny, the parts of the server and of the command line tool that carry
algorithms, protocols and state, and proves what they keep.

* **Markdown codec** (`Text`, `DocumentTypes`, `LineRecognizers`, `InlineParser`, `InlineText`,
  `InlineRenderer`, `InlineRoundTrip`, `BlockParser`, `BlockRenderer`, `BlockProgress`,
  `FenceSafety`, `ListForest`, `ListRoundTrip`, `TableRoundTrip`, `BlockRoundTrip`,
  `DocumentRoundTrip`, `TidyDocuments`, `LineEndings`, `Spellings`, `InlineMarks`, `DocumentParser`,
  `DocumentRenderer`). The parser and the
  printer are written twice: as functions on lines, about which the round trips are proved, and as
  the loops of the source, over objects with identifiers, stacks and children lists changed in
  place, which are proved to compute those functions. The regular expressions are hand-written
  recognisers over code points, with the white space and line terminators of the language.
* **Collaboration sessions and deletion** (`SessionRegistry`, `KnowledgeTree`,
  `KnowledgeTreeService`, `KnowledgeBaseService`). The registry with its two indexes, the gateway
  that fills it, and post-order deletion of a parent-linked forest with a trace of every moment in
  between.
* **Drafts, indexing and assets** (`DraftIndex`, `AssetDedup`). Drafts, node state and engine
  content as one machine with the view a reader gets and the text every draft holds; uploads with the
  cache that speeds them up.
* **Protocols as steps** (`McpQueue`, `LineBreaks`, `SseFraming`, `DataSourcePool`, `TaskWorker`,
  `StatsSync`). Each stretch of code between two awaits is one step; the theorems hold for every
  interleaving of steps. Beside what a run never does stands what it gets done: which events are handed
  out, who is served, what is retried.
* **Configuration files** (`TomlConfig`, `MarkedSection`). The line filter and the splice of the
  setup command, with the exact condition under which the last write wins.

`dafny verify dfyconfig.toml` checks the whole project.

## Where the code falls short of what it is for

The model follows the code. Where a law fails, a lemma gives an input, and another the exact
condition.

* Bold and italic together are printed as `***x***`, which the scanner reads differently
  (`InlineRoundTrip.StyledRunComesBackIff`).
* Text with backslashes, brackets or parentheses gains backslashes that are never taken off again
  (`InlineRoundTrip.PlainTextComesBackIff`, `InlineRoundTrip.ParenthesisGainsBackslash`).
* A numbered item that starts at 0 loses its start (`ListRoundTrip.ListComesBackIff`).
* An unclosed fence swallows what follows a blank line (`BlockProgress.BlankLineSeparatesIff`,
  `BlockProgress.OpenFenceSwallows`).
* A list item takes every line directly below it that is longer than the item is indented, since the
  whole line is measured and not its indentation: a heading, quote, fence or rule there is lost
  (`Spellings.ItemSwallowsIff`, `Spellings.HeadingBelowItemIsLost`).
* `docs/DOCUMENT_COLLABORATION.md:333` has every move, rename and path change checked against open
  sessions; the code looks only at the first field an update carries
  (`KnowledgeTreeService.LockCheckMissesIff`, `KnowledgeTreeService.OpenNodeIsRenamed`), and it does not check that a move keeps the forest a
  forest (`KnowledgeTree.MoveKeepsForestIff`).
* A busy engine makes the node point at content that is not there yet
  (`DraftIndex.BusyKeepsViewIff`, `DraftIndex.BusyHidesImportWitness`), and a blank draft hides
  imported content once a content URI is set (`DraftIndex.CleanIndexKeepsView`,
  `DraftIndex.BlankDraftHidesImportWitness`).
* A document imported as a directory whose URI contains `/assets/` is indexed into a file that is not
  accepted as its content: the step ends clean, and the reader sees the text once more as one of the
  leaves (`DraftIndex.UnreadableWriteKeepsViewIff`, `DraftIndex.UnreadableWriteWitness`).
* A save between the two writes of an index step is lost from the node, which then calls older content
  clean (`DraftIndex.InterruptedIndexAgreesIff`).
* A node registered under a base other than its own leaves a stale lock
  (`SessionRegistry.RunAgreesIff`, `SessionRegistry.ForeignBaseLeavesStaleLock`).
* A failed release of a tenant context revives a statistics chain without its id
  (`StatsSync.FailedReleaseDoublesTheChain`).
* Rewriting a TOML file takes one CR off every kept line that ends in CR CR LF, each time
  (`TomlConfig.StrayCRCounterexample`), and stray markers break the other rewrite
  (`MarkedSection.LastWriteWinsIff`).

## Model

| member | source | states |
|---|---|---|
| TidyDocuments.TidyDocumentRoundTrip | apps/server/src/document/document-markdown-renderer.ts:26-74 | Every document built from inline runs whose markers do not run together, one-line headings, list items and paragraphs, quotes, fenced code, tables, images and rules is parsed back from its printed Markdown to its canonical form; no hypothesis runs the scanner on a text and compares the result |
| DocumentRoundTrip.DocumentRoundTrip | apps/server/src/document/document-markdown-parser.ts:39-128 | The same for every document whose single texts survive: printing and parsing a whole document loses nothing but empty paragraphs, and makes list numbers, heading levels and table widths explicit |
| DocumentRoundTrip.CanonicalDocumentRoundTrip | apps/server/src/document/document-markdown-renderer.ts:26-49 | A non-empty document that is already canonical comes back unchanged |
| DocumentRoundTrip.ChunkThenRest | apps/server/src/document/document-markdown-renderer.ts:46-48 | Chunks printed with a blank line between them are parsed one after the other |
| DocumentRoundTrip.BlockReads | apps/server/src/document/document-markdown-renderer.ts:51-74 | Each kind of block is read from its own printed chunk, whatever follows after a blank line |
| TidyDocuments.ComesBackIsFaithful | apps/server/src/document/document-markdown-renderer.ts:202-230 | Inline items of the structural kind survive their own printing and scanning |
| BlockProgress.BlankLineSeparatesIff | apps/server/src/document/document-markdown-parser.ts:53-128 | A text joined by a blank line with any other parses to its own blocks followed by those of the other, if and only if it does not end inside a code fence |
| BlockProgress.OpenFenceSwallows | apps/server/src/document/document-markdown-parser.ts:130-153 | The exception is real: an unclosed fence takes a heading behind the blank line for code |
| BlockProgress.NextBlockStops | apps/server/src/document/document-markdown-parser.ts:75-128 | The next block does not depend on anything behind a blank line |
| BlockProgress.RangesPartitionLines | apps/server/src/document/document-markdown-parser.ts:53-73 | Blocks take adjacent, disjoint, non-empty line ranges, and every line that is not blank lies in exactly one of them |
| BlockParser.NextBlock | apps/server/src/document/document-markdown-parser.ts:75-128 | Every step takes at least one line and never more than there are, also in the paragraph case, which is reached only by lines that start no other block |
| LineEndings.MixedLineEndingsReadAlike | apps/server/src/document/document-markdown-parser.ts:807-809 | A file parses to the same blocks whatever of its line feeds have a carriage return in front of them |
| LineEndings.LineEndingsReadAlike | apps/server/src/document/document-markdown-parser.ts:39-51 | It parses to the same blocks with CR LF throughout, and with a lone CR for each line feed |
| Spellings.ParagraphEndsAtBlocks | apps/server/src/document/document-markdown-parser.ts:227-254 | A paragraph goes on over exactly the lines from which a paragraph or a table would begin, so the test that ends it and the dispatch on the next block agree on every text |
| Spellings.ParagraphJoinsLines | apps/server/src/document/document-markdown-parser.ts:227-254 | Its lines are joined by single spaces, without the white space around them |
| Spellings.TableEndsAtBlocks | apps/server/src/document/document-markdown-parser.ts:256-317 | A table goes on over exactly the lines with a bar from which a paragraph, a table or an image would begin |
| Spellings.BarsAreOptional | apps/server/src/document/document-markdown-parser.ts:781-784 | The bars at both ends of a row may be left out, and white space around it does not matter |
| Spellings.DashesAlign | apps/server/src/document/document-markdown-parser.ts:774-799 | A cell of dashes is an alignment if and only if there are three of them at least, and its colons say which |
| Spellings.FenceIsRead | apps/server/src/document/document-markdown-parser.ts:130-153 | A fence of three or more backticks or tildes, indented at will, takes all lines as they are up to the first that repeats its marker as often, or all there are |
| Spellings.RuleIsRead | apps/server/src/document/document-markdown-parser.ts:746-748 | Three or more stars, dashes or underscores with any white space around and between them are a rule |
| Spellings.ClosedHeadingIsRead | apps/server/src/document/document-markdown-parser.ts:690-697 | A heading of one to six hash signs loses the hash signs that close it |
| Spellings.QuoteIsRead | apps/server/src/document/document-markdown-parser.ts:202-225 | A quote takes all lines with the sign, indented or not, and their text without the sign and at most one white space character, and ends at the first line without |
| Spellings.BulletIsRead | apps/server/src/document/document-markdown-parser.ts:699-716 | A dash, a star or a plus sign starts a bullet item, at a depth at which a tab counts for four |
| Spellings.TaskIsRead | apps/server/src/document/document-markdown-parser.ts:699-707 | A box behind the sign makes it a task, done for a small or a capital x |
| Spellings.NumberIsRead | apps/server/src/document/document-markdown-parser.ts:718-730 | One to nine digits with a point or a parenthesis start a numbered item |
| Spellings.ItemTakesLines | apps/server/src/document/document-markdown-parser.ts:319-342 | An item takes all lines that go on from it, joined by single spaces |
| Spellings.ItemSwallowsIff | apps/server/src/document/document-markdown-parser.ts:319-342 | The line directly below an item becomes part of its text if and only if the whole line is longer than the item is indented: below an unindented item, every line |
| Spellings.HeadingBelowItemIsLost | apps/server/src/document/document-markdown-parser.ts:333-338 | A concrete document in which a heading directly below an item is lost |
| Spellings.FileNameIsLastSegment | apps/server/src/document/document-markdown-parser.ts:819-826 | The name of an image is the last segment of its path that is not empty, without query and fragment |
| InlineParser.ParseInlineContent | apps/server/src/document/document-markdown-parser.ts:418-458 | The scanning loop ends for every text and computes the recursive scanner |
| InlineParser.HitAt | apps/server/src/document/document-markdown-parser.ts:622-650 | A match covers at least one character of the text and captures strictly less than it covers, which is what ends the recursion |
| InlineParser.FindNext | apps/server/src/document/document-markdown-parser.ts:569-620 | The reported match lies inside the text and its capture is shorter than the text |
| InlineText.SearchIsLeftmost | apps/server/src/document/document-markdown-parser.ts:622-650 | The match found for a pattern is at the leftmost place where the pattern matches at all |
| InlineText.ScanOnlyRemoves | apps/server/src/document/document-markdown-parser.ts:418-458 | For every text, the plain text of the result is a subsequence of the text: nothing is invented or moved |
| InlineText.RestyleKeepsText | apps/server/src/document/document-markdown-parser.ts:475-502 | Putting bold, italic or strike-through on items never changes their plain text |
| InlineText.LabelKeepsText | apps/server/src/document/document-markdown-parser.ts:504-526 | A link label keeps the plain text of what it is made from |
| InlineText.MarkupFreeText | apps/server/src/document/document-markdown-parser.ts:418-466 | A text without any delimiter becomes one unstyled run equal to it, and the empty text becomes nothing |
| InlineMarks.BoldIsRead | apps/server/src/document/document-markdown-parser.ts:592-599 | Two stars or two underscores make bold whatever is read between them, and the rest is read as if it stood alone |
| InlineMarks.ItalicIsRead | apps/server/src/document/document-markdown-parser.ts:600-607 | The same for one star or one underscore and italic |
| InlineMarks.StrikeIsRead | apps/server/src/document/document-markdown-parser.ts:589-591 | The same for two tildes and strike-through |
| InlineMarks.CodeIsVerbatim | apps/server/src/document/document-markdown-parser.ts:586-588 | Code is taken as it stands, with all marks in it |
| InlineMarks.LinkIsRead | apps/server/src/document/document-markdown-parser.ts:577-585 | A link has its target without the white space and the angle brackets around it, and its label read as a text of its own |
| InlineMarks.ImageStaysText | apps/server/src/document/document-markdown-parser.ts:577-585 | An image inside a text is no link and stays what it is written as |
| InlineMarks.OneKindPerPlace | apps/server/src/document/document-markdown-parser.ts:569-620 | At no place of any text do two patterns match, so the order in which they are tried never decides |
| InlineMarks.MarkAddsStyle | apps/server/src/document/document-markdown-parser.ts:475-502 | A mark adds its style to every run it covers, in links as well, and changes nothing else |
| InlineMarks.LabelKeepsStyles | apps/server/src/document/document-markdown-parser.ts:504-526 | A label keeps its styled runs, and a link inside it becomes its text |
| InlineRoundTrip.InlineRoundTrip | apps/server/src/document/document-markdown-renderer.ts:202-230 | Printing and scanning inverts itself on plain, bold, italic, struck, code and link items in every sequence in which neighbouring markers do not run together |
| InlineRoundTrip.StyledRunComesBackIff | apps/server/src/document/document-markdown-renderer.ts:366-387 | A run of markup-free text in any of the three text styles comes back if and only if it is not bold and italic at once |
| InlineRoundTrip.PlainTextComesBackIff | apps/server/src/document/document-markdown-renderer.ts:389-391 | Unstyled text without delimiters comes back if and only if it holds no character that the printer escapes, since the parser takes no backslash off again |
| InlineRoundTrip.BoldItalicLeavesStar | apps/server/src/document/document-markdown-parser.ts:569-620 | What goes wrong with bold and italic together: a star is left over at the end |
| FenceSafety.NoLineClosesFence | apps/server/src/document/document-markdown-renderer.ts:296-305 | No line of any code text is a closing line for the fence made for it |
| FenceSafety.OpeningFence | apps/server/src/document/document-markdown-parser.ts:671-682 | The printed opening line is recognised, with its length and its language tag |
| FenceSafety.FenceRoundTrip | apps/server/src/document/document-markdown-parser.ts:130-153 | From the printed lines and whatever follows, the parser collects exactly the original code and tag and stops right after the closing fence |
| InlineRenderer.LongestRunBoundsStretches | apps/server/src/document/document-markdown-renderer.ts:296-305 | The longest run of backticks bounds every stretch of backticks in the text |
| ListRoundTrip.NestedListRoundTrip | apps/server/src/document/document-markdown-renderer.ts:147-180 | For every forest of bullet, check and numbered items with texts that can stand on a list line, the indentation parser inverts the two-space printer: shape of the forest, kinds, checked flags, numbers and texts |
| ListRoundTrip.LineMatches | apps/server/src/document/document-markdown-parser.ts:699-730 | The printed line of an item is recognised as that item at that indentation |
| ListRoundTrip.CollectsAll | apps/server/src/document/document-markdown-parser.ts:319-342 | Printed item lines are collected one by one, none of them as the continuation of another |
| ListRoundTrip.ListComesBackIff | apps/server/src/document/document-markdown-parser.ts:362-373 | A printed list is parsed back to the very same list if and only if every numbered item carries a positive number of its own; a start of 0 is dropped |
| ListRoundTrip.CanonIsIdentityIff | apps/server/src/document/document-markdown-parser.ts:362-373 | The form in which a list comes back is the list itself under the same condition |
| ListRoundTrip.ItemsAreCounted | apps/server/src/document/document-markdown-renderer.ts:145-180 | A numbered item without a number is read back with its place among the numbered items beside it, counted from 1; one with a positive number keeps it |
| ListForest.ForestParentsAreNearest | apps/server/src/document/document-markdown-parser.ts:155-200 | For any run of items with any indents, the parent of an item is the nearest earlier one with a strictly smaller indent, and it is a root if there is none |
| ListForest.ForestKeepsLineOrder | apps/server/src/document/document-markdown-parser.ts:155-200 | Reading the forest parents first gives the items in line order, each once |
| ListForest.ForestSize | apps/server/src/document/document-markdown-parser.ts:155-200 | The forest has as many blocks as there are items |
| ListForest.KidsOfOneMore | apps/server/src/document/document-markdown-parser.ts:188-195 | One item more adds one child, at the end, to its own parent and changes nobody else |
| DocumentParser.ParseList | apps/server/src/document/document-markdown-parser.ts:155-200 | The loop with its stack of objects builds, through in-place changes of the children lists, the forest of the nearest-smaller relation and numbers its objects in line order |
| DocumentParser.StackIncreases | apps/server/src/document/document-markdown-parser.ts:181-195 | The indents on the stack increase strictly |
| DocumentParser.TopIsParent | apps/server/src/document/document-markdown-parser.ts:181-195 | When popping stops, the top of the stack is the parent of the new item |
| DocumentParser.CollectListContinuation | apps/server/src/document/document-markdown-parser.ts:319-342 | Collects exactly the lines that continue an item and joins them to it |
| TableRoundTrip.TableReads | apps/server/src/document/document-markdown-renderer.ts:110-140 | A table with clean cells comes back from its printed lines, ragged rows filled up to the full width and every column aligned as the header says |
| TableRoundTrip.RowReads | apps/server/src/document/document-markdown-parser.ts:781-784 | A printed row is split into its cells, each between two spaces |
| BlockRoundTrip.HeadingTextComesBackIff | apps/server/src/document/document-markdown-parser.ts:690-697 | A one-line heading text is read back if and only if it is one character or does not end in a hash sign |
| BlockRoundTrip.HeadingReads | apps/server/src/document/document-markdown-renderer.ts:76-79 | A printed heading is read as that heading, its level brought into 1 to 6 |
| BlockRoundTrip.ParagraphReads | apps/server/src/document/document-markdown-parser.ts:227-254 | A printed one-line paragraph is read as that paragraph |
| BlockRoundTrip.QuoteReads | apps/server/src/document/document-markdown-renderer.ts:81-87 | A printed quote of several lines is read as that quote |
| BlockRoundTrip.CodeReads | apps/server/src/document/document-markdown-renderer.ts:89-95 | A printed code block is read as that code block |
| BlockRoundTrip.ImageReads | apps/server/src/document/document-markdown-renderer.ts:97-108 | A printed image is read as an image with that target, its caption or name, and the file name of the target |
| BlockRoundTrip.ImageShowsCaptionOrName | apps/server/src/document/document-markdown-renderer.ts:97-108 | An image is printed with its caption, or with its name if it has none, and read back so |
| BlockRoundTrip.RuleReads | apps/server/src/document/document-markdown-parser.ts:746-748 | A printed rule is read as a rule |
| DocumentParser.Parse | apps/server/src/document/document-markdown-parser.ts:39-51 | Parsing builds fresh objects that spell out the blocks of the document, never none, with identifiers 1, 2, 3, ... in preorder; what those blocks are is the subject of the round trips and spellings |
| DocumentParser.IdsCountUp | apps/server/src/document/document-markdown-parser.ts:828-837 | Identifiers read in preorder count up without a gap |
| DocumentParser.ParseBlocks | apps/server/src/document/document-markdown-parser.ts:53-73 | The main loop ends and delivers the blocks of all lines |
| DocumentParser.ParseNextBlock | apps/server/src/document/document-markdown-parser.ts:75-128 | One step delivers the objects and the next line of the block that the tests pick |
| DocumentParser.ParseCodeBlock | apps/server/src/document/document-markdown-parser.ts:130-153 | The loop to the closing fence delivers the code block and stops behind the fence, or at the end |
| DocumentParser.ParseBlockquote | apps/server/src/document/document-markdown-parser.ts:202-225 | The loop over quote lines delivers the quote |
| DocumentParser.ParseParagraph | apps/server/src/document/document-markdown-parser.ts:227-254 | The loop over paragraph lines delivers the paragraph |
| DocumentParser.ParseTable | apps/server/src/document/document-markdown-parser.ts:256-317 | Reading, padding and aligning rows in place delivers the table |
| DocumentParser.PadRow | apps/server/src/document/document-markdown-parser.ts:279-287 | A row is filled up with empty cells to the width of the table |
| DocumentParser.AlignRow | apps/server/src/document/document-markdown-parser.ts:289-296 | Every cell gets the alignment of its column, left where there is none |
| DocumentRenderer.RenderDocument | apps/server/src/document/document-markdown-renderer.ts:26-49 | The loop over blocks gives the printed document |
| DocumentRenderer.RenderListItems | apps/server/src/document/document-markdown-renderer.ts:147-167 | The loop over items with its running number gives the lines of the list |
| DocumentRenderer.CollectConsecutiveListItems | apps/server/src/document/document-markdown-renderer.ts:182-200 | Collects the longest run of items of one kind |
| DocumentRenderer.ListRunIsMaximal | apps/server/src/document/document-markdown-renderer.ts:182-200 | The items that share a chunk are all of one kind, and the block behind them is of another |
| SessionRegistry.RunAgrees | apps/server/src/common/document-session-registry.ts:23-104 | Over every run in which each node is registered under its own base, a base lists exactly its nodes with a live session |
| SessionRegistry.RunAgreesIff | apps/server/src/common/document-session-registry.ts:23-104 | The two indexes agree throughout a run if and only if every call names the own base of its node, or is an unregistration that does not end its last session |
| SessionRegistry.RunFromEmptyAgrees | apps/server/src/common/document-session-registry.ts:17-21 | The first of these from an empty registry |
| SessionRegistry.FreeBaseHasFreeNodes | apps/server/src/common/document-session-registry.ts:68-92 | When the check of a base passes, no check of any set of its nodes can fail |
| SessionRegistry.ForeignBaseLeavesStaleLock | apps/server/src/common/document-session-registry.ts:38-51 | Registering a node under two bases leaves one base locked with no session open, so that premise is needed |
| SessionRegistry.GatewayRunKeepsInv | apps/server/src/document/document-collab.gateway.ts:356-393 | Over every run of connections and disconnections, repeated and in any order, the sessions of the registry are exactly the open documents, each with its base and mode |
| SessionRegistry.IdleGatewayRunKeepsInv | apps/server/src/document/document-collab.gateway.ts:356-393 | The same from a gateway with nothing registered |
| SessionRegistry.RegisteredIffConnected | apps/server/src/document/document-collab.gateway.ts:356-393 | After every run a document is registered if and only if the last event of its connection has connected it |
| SessionRegistry.OpenDocumentsHaveSessions | apps/server/src/document/document-collab.gateway.ts:356-393 | From a gateway with nothing registered, a document has its session, with its base and mode, if and only if its last event has connected it |
| SessionRegistry.DocumentSessionRegistry.Register | apps/server/src/common/document-session-registry.ts:23-36 | Adds the session to both indexes and changes nothing else |
| SessionRegistry.DocumentSessionRegistry.Unregister | apps/server/src/common/document-session-registry.ts:38-51 | Removes the session, and the node from the base index exactly when it was the last one |
| SessionRegistry.DocumentSessionRegistry.RemoveKbNode | apps/server/src/common/document-session-registry.ts:94-104 | Takes the node out of its base, and the base out of the index when it was the last |
| SessionRegistry.DocumentSessionRegistry.HasActiveWriteSession | apps/server/src/common/document-session-registry.ts:57-66 | Answers whether some session of the node may write |
| SessionRegistry.DocumentSessionRegistry.AssertNoActiveSessionInNodes | apps/server/src/common/document-session-registry.ts:83-92 | Passes if and only if none of the nodes has a session |
| KnowledgeTree.SiblingsAreApart | apps/server/src/knowledge-tree/knowledge-tree.service.ts:409-421 | The subtrees of two children of a node have nothing in common |
| KnowledgeTree.SubtreeUnfolds | apps/server/src/knowledge-tree/knowledge-tree.service.ts:409-421 | A subtree is its top and the subtrees of the children of the top |
| KnowledgeTree.MoveKeepsForestIff | apps/server/src/knowledge-tree/knowledge-tree.service.ts:281-308 | Moving a node keeps the forest a forest if and only if the new parent is not in the moved subtree |
| KnowledgeTree.MoveGrafts | apps/server/src/knowledge-tree/knowledge-tree.service.ts:306-307 | A move outside its own subtree takes that subtree out of every subtree it was in and adds it whole to every subtree its new parent is in; inside it nothing changes |
| KnowledgeTreeService.TreeService.CollectSubtreeNodeIds | apps/server/src/knowledge-tree/knowledge-tree.service.ts:409-421 | Lists exactly the nodes of the subtree, each once |
| KnowledgeTreeService.TreeService.RemoveNode | apps/server/src/knowledge-tree/knowledge-tree.service.ts:423-447 | Removes exactly the subtree with its drafts, asks the engine to delete exactly its resources, and at every moment no surviving node has lost a parent and no draft its node; a refusal by the engine stops it in such a moment |
| KnowledgeTreeService.TreeService.Remove | apps/server/src/knowledge-tree/knowledge-tree.service.ts:367-381 | Refuses if and only if something in the subtree is open; otherwise removes the subtree and nothing else |
| KnowledgeTreeService.OnlyPlainFilesAreDeletedAlone | apps/server/src/knowledge-tree/knowledge-tree.service.ts:467-477 | A resource is deleted without what lies below it if and only if it is a file of a document that has no content of its own |
| KnowledgeTreeService.TreeService.ApplyUpdate | apps/server/src/knowledge-tree/knowledge-tree.service.ts:281-308 | Answers not found, URI refused, locked or stored by the order of the checks, and changes the store only in the last case, only at this node |
| KnowledgeTreeService.UpdateMovesSubtree | apps/server/src/knowledge-tree/knowledge-tree.service.ts:281-308 | A stored update with a parent outside the subtree of its node moves that whole subtree: every subtree of the forest is afterwards what it was, with the moved one added where the new parent is and taken out everywhere else |
| KnowledgeTreeService.UpdateGraftsOntoParent | apps/server/src/knowledge-tree/knowledge-tree.service.ts:281-308 | The subtree of the new parent is then its old one and the moved one |
| KnowledgeTreeService.UpdateWithoutParentMovesNothing | apps/server/src/knowledge-tree/knowledge-tree.service.ts:281-308 | An update that carries no parent changes no subtree |
| KnowledgeTreeService.UpdateStoresWhatItCarries | apps/server/src/knowledge-tree/knowledge-tree.service.ts:281-308 | The fields an update carries are the stored ones, all others stay, no other node changes, and a refused update changes nothing |
| KnowledgeTreeService.UpdateKeepsForestIff | apps/server/src/knowledge-tree/knowledge-tree.service.ts:281-308 | An accepted update keeps the forest a forest if and only if it does not move the node into its own subtree |
| KnowledgeTreeService.LockCheckMissesIff | apps/server/src/knowledge-tree/knowledge-tree.service.ts:281-308 | With something in the subtree open, an update that moves, renames or changes the path is stored if and only if a field looked at first is carried along unchanged; otherwise it is refused |
| KnowledgeTreeService.RunKeepsOpenIff | apps/server/src/knowledge-tree/knowledge-tree.service.ts:302-305 | Over every run of sessions and updates, nodes in whose subtree something is open stay where they are, under their names, if and only if no such update occurs |
| KnowledgeTreeService.OpenNodeIsRenamed | apps/server/src/knowledge-tree/knowledge-tree.service.ts:383-400 | A document open for writing is renamed by an update that carries its parent along |
| KnowledgeBaseService.RootsCoverBase | apps/server/src/knowledge-base/knowledge-base.service.ts:155-159 | The subtrees of the chosen roots together are the whole base |
| KnowledgeBaseService.BaseService.FindRoots | apps/server/src/knowledge-base/knowledge-base.service.ts:155-159 | Finds exactly the nodes of the base whose parent is not among them |
| KnowledgeBaseService.BaseService.Remove | apps/server/src/knowledge-base/knowledge-base.service.ts:142-173 | Says exactly when it fails; once the lock check has passed and the engine has answered, no check of a root can fail, and exactly the nodes and drafts of the base are gone |
| DraftIndex.RunKeepsInv | apps/server/src/document/document.service.ts:149-395 | Over every run of atomic save, load, warm and index steps: the node knows the version of its draft, the indexed version never exceeds it, and a draft version rises by one per write |
| DraftIndex.FreshRunCountsWrites | apps/server/src/document/document-draft.repository.ts:49-71 | From freshly created nodes, the version of a draft is the number of times it was written |
| DraftIndex.RunKeepsLastText | apps/server/src/document/document-draft.repository.ts:49-71 | In every run a draft holds the text of the last call that wrote it: the one saved, read first or warmed |
| DraftIndex.SavedIsShown | apps/server/src/document/document.service.ts:244-272 | After a save a reader sees what was saved, until the draft is written again, whatever else happens; and the document is dirty until it is indexed |
| DraftIndex.ApplyWritesText | apps/server/src/document/document.service.ts:149-198 | A call writes a draft exactly when it has a text to write, and that text; reading and saving leave the engine and the place of a node alone, and only a save makes it dirty |
| DraftIndex.FailedIndexKeepsView | apps/server/src/document/document.service.ts:287-395 | A refused or unconfirmed index step leaves the node failed and otherwise as it was, and keeps the view unless the leaf is one of an imported directory |
| DraftIndex.ImportShowsLeavesInOrder | apps/server/src/document/document.service.ts:673-720 | An imported directory shows its leaves in order, each without white space at its end, with an empty line in between and without the blank ones, or nothing if one is missing |
| DraftIndex.FilesAreReadWhereIndexed | apps/server/src/document/document.service.ts:1026-1053 | A document with a content URI, or imported as a single file, is read from where it is indexed into |
| DraftIndex.ContentUriInAnyCase | apps/server/src/document/document.service.ts:1055-1064 | Case does not matter for whether a URI is one that content is read from |
| DraftIndex.CleanIndexKeepsView | apps/server/src/document/document.service.ts:287-395 | When an index step ends clean, the engine holds what the reader saw and the versions are equal. If the URI written is one content is read from, the view stays the same if and only if no blank draft hid imported content; if it is not, the reader gets what an unindexed document shows, and keeps a draft that is not blank |
| DraftIndex.UnreadableWriteKeepsViewIff | apps/server/src/document/document.service.ts:1026-1064 | For an imported directory whose content file is none that content is read from, and is listed with the others once written: indexing keeps the view if and only if a draft that is not blank is shown, or there is nothing to show |
| DraftIndex.UnreadableWriteWitness | apps/server/src/document/document.service.ts:1055-1064 | An imported document below an assets directory is indexed, ends clean, and its reader no longer sees its text as it was |
| DraftIndex.BlankDraftHidesImportWitness | apps/server/src/document/document.service.ts:644-663 | Saving a blank draft for an imported document and indexing it shows the blank draft instead of the import |
| DraftIndex.BusyKeepsViewIff | apps/server/src/document/document.service.ts:360-382 | While the engine is busy the view is kept if and only if the node had a content URI before, or the new one is none that content is read from, or there is a draft that hides no imported content, or there is no draft and the engine already stores that very text there; without draft and file nothing can be read |
| DraftIndex.BusyHidesImportWitness | apps/server/src/document/document.service.ts:360-382 | An imported document becomes unreadable when an index step finds the engine busy |
| DraftIndex.InterruptedIndexAgreesIff | apps/server/src/document/document.service.ts:311-348 | Whatever happens between the two node writes of an index step, the node afterwards knows the version of its draft if and only if the draft was not written in between; if it was, content older than the draft is called clean |
| DraftIndex.PartsAreIndex | apps/server/src/document/document.service.ts:311-348 | Without anything in between, the two parts are the atomic index step |
| DraftIndex.CleanOnlyWhenIndexed | apps/server/src/document/document.service.ts:350-395 | An index step ends clean only if the content was written and has vectors |
| DraftIndex.OthersKeepTheirView | apps/server/src/document/document.service.ts:149-395 | A step on one document leaves every other view alone that comes from a draft or from a URI the step does not write |
| DraftIndex.DocumentService.SaveMarkdown | apps/server/src/document/document-draft.repository.ts:49-71 | Overwrites the one draft of a node, one version up, or creates it with version 1 |
| DraftIndex.DocumentService.ResolveDocumentMarkdown | apps/server/src/document/document.service.ts:644-720 | Gives the draft, the indexed content or the joined imported leaves, as the reader sees them |
| DraftIndex.DocumentService.SaveMarkdownContent | apps/server/src/document/document.service.ts:244-285 | Overwrites the draft with the text given, one version up, and marks the node dirty at that version |
| DraftIndex.DocumentService.LoadContent | apps/server/src/document/document.service.ts:149-198 | Gives the view, and keeps a first reading of indexed content as draft |
| DraftIndex.DocumentService.WarmDraft | apps/server/src/document/document.service.ts:401-428 | Keeps downloaded content that is not blank as one more draft version, and touches nothing else of the node |
| DraftIndex.DocumentService.IndexContent | apps/server/src/document/document.service.ts:287-395 | Writes node state and engine content in the order of the code, on all its outcomes |
| DraftIndex.SyncsMerge | apps/server/src/knowledge-tree/knowledge-tree.service.ts:340-365 | A synchronisation reads the node again and merges the fields it carries, so two of them are one that carries the fields of both, the later one winning, and no field is lost that the later one does not carry |
| AssetDedup.UploadIsDeduplicated | apps/server/src/document/document.service.ts:445-522 | If some asset of the node has the hash, nothing is stored and such an asset is returned; otherwise the file is stored unless the engine refuses; the cache makes no difference, whatever has expired in it |
| AssetDedup.SameBytesSamePath | apps/server/src/document/document.service.ts:463-489 | With an injective hash, uploading stored bytes again returns exactly their stored path |
| AssetDedup.RunKeepsInv | apps/server/src/document/document.service.ts:445-522 | In every run with expiry at any moment, no two assets of a node share a hash and every cache entry names a stored asset with its hash |
| AssetDedup.RunFromStartKeepsInv | apps/server/src/document/document.service.ts:445-522 | The same from an empty engine and an empty cache |
| AssetDedup.ListingFinds | apps/server/src/document/document.service.ts:951-984 | The listing of a node has a hash if and only if a stored asset has it |
| AssetDedup.RepeatedUploadIsCached | apps/server/src/document/document.service.ts:456-489 | Uploading the same bytes again within the time to live is answered from the cache without the engine, and what is cached for other nodes stays until it expires |
| AssetDedup.ExpiredCacheIsRebuilt | apps/server/src/document/document.service.ts:919-949 | When the entries of a node have expired, an upload leaves all that its listing shows in the cache |
| AssetDedup.AssetService.UploadAsset | apps/server/src/document/document.service.ts:445-522 | Cache, listing, engine and cache again, in this order |
| AssetDedup.AssetService.FindDuplicateAssetByHash | apps/server/src/document/document.service.ts:919-949 | Answers from the cache, or rebuilds the bucket of the node from the listing and answers from that |
| AssetDedup.DedupStore.CleanupExpired | apps/server/src/document/in-memory-document-asset-dedup.store.ts:59-69 | Drops exactly the expired buckets and counts them |
| AssetDedup.DedupStore.Set | apps/server/src/document/in-memory-document-asset-dedup.store.ts:28-32 | Adds the entry to the live bucket of the node and renews its expiry |
| AssetDedup.DedupStore.Get | apps/server/src/document/in-memory-document-asset-dedup.store.ts:23-26 | Answers from the bucket of the node after expired buckets are gone |
| AssetDedup.DedupStore.ReplaceAll | apps/server/src/document/in-memory-document-asset-dedup.store.ts:49-57 | Replaces the bucket of the node and renews its expiry |
| McpQueue.RunDeliversInOrder | apps/server/src/mcp/mcp-session.service.ts:91-141 | Over every interleaving of enqueuing, reading, marking and cleaning: each session gets its events in enqueue order, none twice, none expired when read, and an event is overtaken only if it had expired |
| McpQueue.RunFromStartDeliversInOrder | apps/server/src/mcp/mcp-session.service.ts:91-141 | The same from an empty event table |
| McpQueue.CleanupIsInvisible | apps/server/src/mcp/mcp-session.service.ts:131-141 | Removing all cleanups from a run changes nothing any stream reads or hands out |
| McpQueue.FindsTheOldest | apps/server/src/mcp/mcp-session.service.ts:103-116 | A poll reads all pending events of the session, or the fifty oldest |
| McpQueue.NextKeepsInv | apps/server/src/mcp/mcp-sse.service.ts:66-90 | Every step, with the guard against a second poll in flight, keeps the invariant |
| McpQueue.RoundsDeliver | apps/server/src/mcp/mcp-sse.service.ts:66-90 | Progress: with every poll that succeeds at least fifty older events of the session are handed out or the event itself, so it is handed out within as many polls as that takes, if it has not expired by then, whatever else happens and however many polls fail |
| McpQueue.RoundProgress | apps/server/src/mcp/mcp-sse.service.ts:66-90 | One poll leaves the stream ready for the next; if its batch was marked, every event that was live and waiting has been handed out, unless fifty older ones of its session were |
| McpQueue.EnqueuedIsDelivered | apps/server/src/mcp/mcp-session.service.ts:91-129 | An event reaches a subscriber with its kind and payload if there are polls enough within ten minutes |
| McpQueue.MarkEnds | apps/server/src/mcp/mcp-session.service.ts:103-129 | A poll that marks its batch hands out exactly that; one that fails to leaves table and deliveries as they are and lets the next poll in |
| McpQueue.KeptIs | apps/server/src/mcp/mcp-session.service.ts:131-141 | A cleanup keeps exactly the rows that are not stale |
| McpQueue.McpSessionService.EnqueueEvent | apps/server/src/mcp/mcp-session.service.ts:91-101 | Appends an undelivered event with its expiry |
| McpQueue.McpSessionService.FindPending | apps/server/src/mcp/mcp-session.service.ts:103-116 | The loop gives the first fifty pending events |
| McpQueue.McpSessionService.PullPendingEvents | apps/server/src/mcp/mcp-session.service.ts:103-129 | Returns that batch and marks exactly it as delivered |
| McpQueue.McpSessionService.CleanupExpiredRecords | apps/server/src/mcp/mcp-session.service.ts:131-136 | Keeps exactly the events that are neither expired nor delivered long ago, in order |
| SseFraming.FramesComeBackIff | apps/server/src/mcp/mcp-sse.service.ts:130-140 | Parsing the concatenated frames of any events by section 9.2.6 of the WHATWG HTML standard gives back types, ids and data with CRLF read as LF, if and only if types and ids are single-line, ids free of NUL, and no data has a lone CR |
| SseFraming.FormatSseEvent | apps/server/src/mcp/mcp-sse.service.ts:130-140 | Pushes the lines of a frame and joins them |
| SseFraming.InterpretFrame | apps/server/src/mcp/mcp-sse.service.ts:130-140 | One frame is read as one message with its joined data lines |
| DataSourcePool.RunKeepsInv | apps/server/src/common/dynamic-datasource.service.ts:35-131 | In every interleaving at the awaits: at most one initialisation per tenant is in flight, pool and times of last use hold the same tenants, a caller is given only a data source made for its tenant, and eviction drops a tenant only if every earlier serving lies at least the limit before the round began |
| DataSourcePool.RunFromStartKeepsInv | apps/server/src/common/dynamic-datasource.service.ts:21-28 | The same from an empty pool |
| DataSourcePool.ArrivingCallerShares | apps/server/src/common/dynamic-datasource.service.ts:52-55 | A caller that arrives during an initialisation starts nothing and ends with its outcome, however the run goes on |
| DataSourcePool.FailureDoesNotStick | apps/server/src/common/dynamic-datasource.service.ts:57-65 | After a failed initialisation has been cleared, the next request starts a new one |
| DataSourcePool.PooledIsServed | apps/server/src/common/dynamic-datasource.service.ts:39-47 | A request for a tenant with a live data source in the pool is given that one at once and for good; nothing is started or dropped, and the tenant counts as used just now |
| DataSourcePool.InitialisedOnlyWhenNeeded | apps/server/src/common/dynamic-datasource.service.ts:35-65 | In every run from the empty pool a tenant is initialised exactly as often as its initialisations failed and its live data source was evicted or lost, and once more if it has one or one is in the making |
| DataSourcePool.WaitingCallerIsAnswered | apps/server/src/common/dynamic-datasource.service.ts:52-65 | When an initialisation ends its data source is pooled if it succeeded, and every caller that waits for it is given its outcome, whatever happens in between |
| DataSourcePool.EvictsIffIdle | apps/server/src/common/dynamic-datasource.service.ts:109-131 | A visit of the eviction takes a tenant out exactly when it was not used for the limit before the round, and touches nothing else |
| DataSourcePool.DynamicDataSourceService.GetTenantDataSource | apps/server/src/common/dynamic-datasource.service.ts:35-58 | The part up to the first await: hit, join or start |
| DataSourcePool.DynamicDataSourceService.EvictIdleTenants | apps/server/src/common/dynamic-datasource.service.ts:109-131 | One round drops exactly the tenants idle for at least the limit, nothing for a limit of zero or less, and counts them |
| TaskWorker.RunKeepsInv | apps/server/src/import-task/task-worker.service.ts:138-167 | In every interleaving the counter is the number of calls of processTask that have not ended, between 0 and 5, and at most one poll waits for its tasks |
| TaskWorker.RunFromStartKeepsInv | apps/server/src/import-task/task-worker.service.ts:77-78 | The same from an idle worker |
| TaskWorker.PollStartsTheOldest | apps/server/src/import-task/task-worker.service.ts:146-162 | A poll starts as many tasks as there are free places, none younger than one it leaves, in stable order, and loses none |
| TaskWorker.PollRound | apps/server/src/import-task/task-worker.service.ts:138-167 | A poll with a free place reads the pending tasks, starts the oldest and lets the next poll in; if reading fails nothing has changed |
| TaskWorker.BusyWorkerWaits | apps/server/src/import-task/task-worker.service.ts:138-145 | A worker that is reading or full ignores the timer, and the end of a task frees its place and no other |
| TaskWorker.TaskWorkerService.Poll | apps/server/src/import-task/task-worker.service.ts:138-145 | Starts a fetch unless one is waiting or all places are taken |
| TaskWorker.TaskWorkerService.PollFetched | apps/server/src/import-task/task-worker.service.ts:146-167 | Sorts, slices and starts, and lets the next poll in, also after a failed fetch |
| TaskWorker.TaskWorkerService.TaskFinished | apps/server/src/import-task/task-worker.service.ts:302-304 | Gives the place back |
| StatsSync.RunKeepsOneChainIff | apps/server/src/import-task/task-worker.service.ts:418-503 | A task has at most one live chain, and its id is in the set exactly while it has one, throughout a run, if and only if no release of a stopped chain fails with delays left or with a new chain under way |
| StatsSync.RunFromStartKeepsOneChainIff | apps/server/src/import-task/task-worker.service.ts:80 | The same from the start, with nothing scheduled |
| StatsSync.NextKeepsOneChainIff | apps/server/src/import-task/task-worker.service.ts:453-503 | The same for one step |
| StatsSync.FailedReleaseDoublesTheChain | apps/server/src/import-task/task-worker.service.ts:440-446 | A concrete run in which a failed release leaves a task with two live chains |
| StatsSync.RunKeepsAttempts | apps/server/src/import-task/task-worker.service.ts:428-447 | Whatever fails, a chain fires at most five times, each time after the delay of its number |
| StatsSync.ChainsEnd | apps/server/src/import-task/task-worker.service.ts:428-503 | Without new scheduling every chain comes to its end within the steps it has left |
| StatsSync.ChainsFromStartEnd | apps/server/src/import-task/task-worker.service.ts:428-503 | Both from the start: after any run every chain has fired at most five times and, unless tasks are scheduled again, ends within the steps it has left |
| StatsSync.ScheduledTaskIsTried | apps/server/src/import-task/task-worker.service.ts:418-503 | A scheduled task is tried after each of the five delays while its attempts fail, and can be scheduled again afterwards; an attempt that stops ends it at once |
| StatsSync.StatsScheduler.ScheduleDelayedStatsSync | apps/server/src/import-task/task-worker.service.ts:418-426 | Starts a chain unless the id is in the set |
| StatsSync.StatsScheduler.ScheduleDelayedStatsSyncAttempt | apps/server/src/import-task/task-worker.service.ts:428-447 | Sets the timer of an attempt, or gives up and frees the id |
| TomlConfig.LastWriteWinsIff | packages/ova-cli/src/setup-support.ts:526-533 | Writing one URL and then another equals writing the second at once if and only if no line kept by the first cleaning ends in a CR and none is one of the removed headers |
| TomlConfig.LastWriteWinsIffKept | packages/ova-cli/src/setup-support.ts:526-571 | The same condition on the input: of its kept lines none but the last visible one ends in a CR, and that one, trimmed, is no header of ours |
| TomlConfig.OrdinaryIsSettled | packages/ova-cli/src/setup-support.ts:554-571 | That condition holds for every text whose CRs all stand before an LF and that has no other line terminators |
| TomlConfig.StrayCRCounterexample | packages/ova-cli/src/setup-support.ts:554-571 | A concrete text with a stray CR for which the law fails |
| TomlConfig.KeptIsOutside | packages/ova-cli/src/setup-support.ts:554-571 | The filter keeps, in order, exactly the lines whose last header is not one of ours |
| TomlConfig.OurSectionsAre | packages/ova-cli/src/setup-support.ts:573-581 | A header is one of ours if and only if its name is that of the server, old or new, or of a subsection, however many brackets, blanks and comments it is written with |
| TomlConfig.WrittenHolds | packages/ova-cli/src/setup-support.ts:526-533 | The written file has the kept lines in order, up to white space at the end, then the new section, and under the condition exactly one header of ours |
| TomlConfig.UrlComesBack | packages/ova-cli/src/setup-support.ts:535-542 | The quoted URL read back as a JSON or TOML string is the URL |
| TomlConfig.RemoveOpenVikingTomlSections | packages/ova-cli/src/setup-support.ts:554-571 | The loop with its flag computes that filter |
| TomlConfig.UpsertTomlMcpConfig | packages/ova-cli/src/setup-support.ts:526-533 | Writes the new content; a missing file counts as empty |
| MarkedSection.LastWriteWinsIff | packages/ova-cli/src/setup-support.ts:742-763 | Writing a marked section twice equals writing the second at once if and only if the file is missing, or has a start marker with the first end marker behind it, or has no marker and is blank or starts with visible text |
| MarkedSection.UpdateIsFramed | packages/ova-cli/src/setup-support.ts:752-758 | Rewriting keeps the text before and behind the section, each trimmed |
| MarkedSection.StrayEndAppendsAgain | packages/ova-cli/src/setup-support.ts:760-762 | With a stray end marker the second write appends again |
| MarkedSection.StrayStartDropsText | packages/ova-cli/src/setup-support.ts:750-758 | With a stray start marker the second write drops the text behind it |
| MarkedSection.UpsertMarkedSection | packages/ova-cli/src/setup-support.ts:742-763 | Writes the new content and says whether the file was created, updated or appended to |

## Left out

- Unknown block types and custom inline content: their printed form is a fallback that is not meant to come back.
- Block properties that neither the parser nor the printer looks at (colours, column widths, preview sizes), and identifiers as strings: an identifier is its number.
- An ordered start is a natural number of any size in the parser model; in the round trip it has at most nine digits, which the item pattern demands.
- The regular-expression engine: each pattern is a recogniser, and its optional parts that cannot change a match are folded away. Strings are sequences of code points, not of UTF-16 units.
- TableRoundTrip.TableReads: an empty table and a header without columns have no printed form that could be read as a table.
- BlockNote and Yjs conversion, Hocuspocus and the WebSocket upgrade: foreign libraries; the model stops at blocks and Markdown text.
- The engine's HTTP client, retries and timeouts: the engine is a map from URI to content, with success, busy and failure as answers given to a step.
- TypeORM, SQL, tenant routing and schema switching: tables are maps or sequences, for a single tenant.
- DraftIndex.DocumentService.IndexContent: one atomic step, as are all calls in `DraftIndex.RunKeepsInv`; what a call between its two node writes does is the subject of `DraftIndex.InterruptedIndexAgreesIff` alone. Permission checks and the statistics of the base are not modelled.
- DraftIndex.UnreadableWriteKeepsViewIff: how the engine lists a directory is a parameter; the premise that the new file is listed among the old ones is what the leaf filter of the code lets through, since it looks at the path inside the directory only.
- DraftIndex.DocumentService.SaveMarkdownContent: starts behind the optional refusal while a write session is open, which is `SessionRegistry.DocumentSessionRegistry.HasActiveWriteSession`.
- DraftIndex.DocumentService.WarmDraft: the content URI is the one the caller passes; that it is the node's own is the caller's business.
- AssetDedup.AssetService.UploadAsset: one atomic step. Parallel uploads of one request can store the same bytes twice. The Redis store, file names and content types are not modelled; an expired bucket is kept until an operation sweeps it, as in the code.
- KnowledgeTreeService.TreeService.RemoveNode: `refused` is the set of URIs the engine refuses to delete for a reason other than "not found". The forest is required to be acyclic, without which the recursion of the code does not end.
- SessionRegistry.GatewayRunKeepsInv: the socket of a new connection is required not to be in use on the same node by another context, as sockets have identifiers of their own.
- Deletion of a subtree or a base is a sequence of moments with no other operation on the tree in between; the code awaits between them.
- KnowledgeBaseService.BaseService.Remove: children are required to lie in the base of their parent, nodes to be registered under their own base, and no identifier to be the empty string.
- McpQueue.RunDeliversInOrder: creation times follow the order of enqueuing without ties; a database update that takes effect but reports a failure is not modelled, and neither are the rows of the session table.
- The idle timer, heartbeats and closing of an MCP stream: plumbing around the poll that is modelled.
- DataSourcePool.RunKeepsInv: no shutdown of the module. The end of a data source is one step that may come at any time, which covers the awaited destruction after an eviction.
- TaskWorker.PollStartsTheOldest: speaks of the tasks a poll has read. That a task counts as pending until its status is written, the cancel and retry races and the limit per tenant, which the code never enforces, are not modelled.
- StatsSync.RunKeepsOneChainIff: what an attempt synchronises is not modelled, only how it ends.
- MarkedSection.LastWriteWinsIff: the section is required to start with the start marker and to have its first end marker at its end, as the rendered section has unless a name put into it contains the marker.
- TomlConfig.UpsertTomlMcpConfig: creating the directory and the file encoding; lone surrogates in a URL, which are no code points.
- The JSON variant of the configuration, skills, credentials and all other commands of the tool: easy members or plumbing.
- Logging, auditing, statistics of bases, dashboards, the web client, migrations and authentication: plumbing.
