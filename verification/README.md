# InboxIQ: models and proofs

InboxIQ is a bank's support inbox: an admin console, a knowledge graph, a model-assisted
reviewer and the tooling around them. This project models the parts of it that carry state
or hard promises, and proves what they keep. Each part has its own group of files.

**The point quadtree behind the graph view** (`quad_*.dfy`, `quadtree.dfy`). Nodes are heap
objects whose child arrays and `next` links are overwritten in place; a ghost tree says what
they hold. Coordinates are reals. Adding, growing the extent, removing with collapse, the
nearest search and both force passes are proved against the multiset of data, for any run of
operations. Every slot update is one step of a context (`Ctx`): what lies outside the slot is
described once and need not be searched again.

**Conversation threading in the console** (`threading_*.dfy`). The turns of a conversation
are paired, themed, grouped, merged into request units and laid out as exchanges. Each stage
has a specification of its own; the theorems say that no message is lost or doubled end to
end, that every request shows its turns in the order of the conversation, that a ticket stays
together however topics interleave, and that the Detailed view shows one request.

**The Concept layer and guidance** (`concept_*.dfy`). The Cypher statements of a build are
steps on a property graph. The layer they leave has a closed form read off the graph without
Concepts, so a rebuild is idempotent, and the guidance rows and their "hers" mark follow.

**The Markdown converter's block loop** (`markdown_*.dfy`). One index moved by eight branches
and five inner loops, proved against a recursive reading of the lines.

**Loading the workbook** (`loader_*.dfy`), **the Service Desk** (`service_*.dfy`), **the case
reviewer** (`review_*.dfy`) and **the synthetic workbook** (`workbook_generator.dfy`): what a
second load still changes, who gets a case and when the clock is broken, what is kept of any
answer a model may give, and which sheets fit together whatever the random generator answers.

`options.dfy` and `texts.dfy` hold what several parts share. `dafny verify dfyconfig.toml`
checks the whole project.

## How to read it

A method that changes state says in its `ensures` what the new state is, in terms of a
function of the old one; what the source promises is then proved about those functions.
Where a predicate is a loop's invariant (`Placed`, `Merged`, `Laid`, `Holds`), the lemmas that
take it apart and put it together (`...Parts`, `...Whole`, `...Push`) are the only places that
open it: method bodies begin with `hide *` and get every fact from a lemma.

Where code and its own comments or documents differ, the model follows the code:

- `concepts.py:110-112` says Concept nodes are left alone by the cleaning. All their incoming
  edges are deleted first, so the orphan sweep deletes them all (`ConceptLayer.SweptClean`).
- `concepts.py:26-28` says a build only adds. It also deletes every Concept an earlier build
  made: an earlier node survives exactly when it is no Concept (`ConceptLayer.Graph.Build`), so
  a build only adds exactly when there was none.
- The reported number of concepts counts policy types and KYC whether or not a record has
  them, and what a chunk without an id speaks of. It is never too small, and right exactly
  under the condition of `ConceptTheorems.ReportedNumberIff`; over an empty graph it is 5
  instead of 0 (`ConceptTheorems.ReportedOvercounts`).
- `app.js:3935` says the breach test must stay identical to the analytics query. It is not:
  `ServiceClock.AgreeIff` says exactly when the two agree, and `ServiceClock.AgreementFails`
  gives a list on which they do not.
- `app.js:4012` says the suggestion and the person auto-assign would choose are the same. The
  board ignores late cases, so they differ on ties: `ServiceDesk.SuggestionIsPickIff`, and for a
  roster on which they do, `ServiceDesk.SuggestionDiffers`.
- `app.js:1092` tests for the same ticket as the step before; the test can never succeed there
  (`ThreadGroups.GroupSteps`).
- Coincident data other than the head of their chain are invisible to the collision force
  (`QuadForces.OneHeadPerPosition`): it sees every datum exactly when no two share a position
  (`QuadForces.HeadsAreAllIff`).
- The collision force squares the sum of two radii, while its visit prunes by the sum itself.
  With a negative sum a colliding head can be pruned away; none is, on any tree, exactly when
  the size of the sum stays within the reach of the visit (`QuadForces.VisitedFinds`,
  `QuadMisses.UnsafeRadiiMiss`).
- `app.js:4641-4643` says Take it needs no check. It needs none for operators
  (`ServiceDesk.OperatorFits`); an account on a team would keep capacities and teams exactly
  when the case fits it (`ServiceDesk.AssignedSafeIff`, `ServiceDesk.RunSafeIff`).
- A negative search radius is squared by the scan and turned inside out by the tree
  (`QuadRuns.NegativeRadiusMisses`); `QuadRuns.NegativeFind` says exactly when the search still
  keeps the scan's promise.
- A stated confidence of 0 is falsy and reads as 0.5 (`ReviewCase.ConfidenceKept`). An
  `actions` value that is a number or `true` raises, and so does a confidence that is an integer
  too large for a float (`ReviewCase.ParseAndValidate`).
- Offers given as one object are decoded as the list inside them when there is one
  (`ReviewJson.OfferedAgain`, `ReviewJson.InnerListTaken`).

## Model

| member | source | states |
|---|---|---|
| QuadGeometry.QuadrantsPartition | apps/admin-ui/vendor-d3-force.js:1 | a point of a half-open cell lies in exactly the one quadrant the index arithmetic names |
| QuadGeometry.SplitMeasureDecreases | apps/admin-ui/vendor-d3-force.js:1 | two distinct points leave a common quadrant after finitely many halvings: the split loop ends however close they are |
| QuadGeometry.Spanned | apps/admin-ui/vendor-d3-force.js:1 | a cell that holds the two corners of the bounding box holds every point of the batch |
| QuadGeometry.DoubledSound | apps/admin-ui/vendor-d3-force.js:1 | one doubling keeps the old box as exactly the quadrant the new array node stores it in |
| QuadGeometry.Covered | apps/admin-ui/vendor-d3-force.js:1 | the extent after covering is square, contains the position and contains the old extent |
| QuadShape.PlugPoints | apps/admin-ui/vendor-d3-force.js:1 | a subtree in a slot contributes its own data and changes nothing beside it |
| QuadShape.PlugFull | apps/admin-ui/vendor-d3-force.js:1 | filling a slot keeps the rule that every array node separates two positions |
| Quadtree.Replant | apps/admin-ui/vendor-d3-force.js:1 | putting a sound subtree into an open slot makes the whole tree linked, celled, duplicate-free and full |
| Quadtree.Wrap | apps/admin-ui/vendor-d3-force.js:1 | wrapping the tree as one quadrant of a new array node keeps contents, links and cells |
| Quadtree.Quadtree.Cover | apps/admin-ui/vendor-d3-force.js:1 | growing the extent changes no datum, keeps every cell, ends, and yields exactly the doubled box |
| Quadtree.Quadtree.Insert | apps/admin-ui/vendor-d3-force.js:1 | inserting adds exactly the one datum, every leaf stays in its half-open cell, coincident data share a chain |
| Quadtree.Quadtree.Chain | apps/admin-ui/vendor-d3-force.js:1 | a datum at an occupied position goes in front of that chain and nowhere else |
| Quadtree.Quadtree.Split | apps/admin-ui/vendor-d3-force.js:1 | two positions in one slot are nested until their quadrants differ; the loop ends and loses neither |
| Quadtree.Quadtree.Add | apps/admin-ui/vendor-d3-force.js:1 | contents become the old contents and the datum; the tree stays valid; the extent is the covering box |
| Quadtree.Quadtree.AddAll | apps/admin-ui/vendor-d3-force.js:1 | contents become the old contents and all the data of the batch; the extent covers the two corners of their bounding box, one after the other |
| Quadtree.Quadtree.Find | apps/admin-ui/vendor-d3-force.js:1 | whatever is returned is stored and strictly inside the radius; for a radius that is a distance it is a nearest datum, and nothing is returned exactly when nothing is inside; for any radius something is returned exactly when some leaf, met by the first window all the way down, has its head inside |
| QuadSearch.Pruned | apps/admin-ui/vendor-d3-force.js:1 | a cell the window test skips holds no datum inside the current disc |
| QuadSearch.PendingPush | apps/admin-ui/vendor-d3-force.js:1 | replacing a popped array node by its kids, the near one moved to the top, keeps every candidate on the stack |
| QuadSearch.FirstWindowSound | apps/admin-ui/vendor-d3-force.js:1 | for a radius that is a distance the first window holds every datum of the disc |
| QuadRemove.CollapsesIffLoneLeaf | apps/admin-ui/vendor-d3-force.js:1 | the chained comparison of first and last kid succeeds exactly when one leaf is all that is left |
| QuadRemove.Unlink | apps/admin-ui/vendor-d3-force.js:1 | unlinking one leaf of a chain leaves the rest linked in order |
| Quadtree.Quadtree.Remove | apps/admin-ui/vendor-d3-force.js:1 | exactly one occurrence of the named datum goes, or nothing when it is absent, and every cell and separation invariant is kept |
| Quadtree.Quadtree.DropHead | apps/admin-ui/vendor-d3-force.js:1 | taking a chain head out hangs a lone leaf into the deepest ancestor that has another kid, keeping all other data |
| Quadtree.LeavesBeside | apps/admin-ui/vendor-d3-force.js:1 | an ancestor with another kid in use holds a leaf beside the slot, so collapsing onto it keeps two positions apart |
| QuadForces.PostOrder | apps/admin-ui/vendor-d3-force.js:1 | every array node and every chain head is listed, none twice, and popping the list visits kids before parents |
| QuadForces.ListedAll | apps/admin-ui/vendor-d3-force.js:1 | a list with kids after their parents names exactly the subtrees that are not empty |
| QuadForces.AnnotateRadii | apps/admin-ui/vendor-d3-force.js:1 | after the post-order pass every node carries the largest radius of the chain heads below it |
| QuadForces.MaxRadiusBounds | apps/admin-ui/vendor-d3-force.js:1 | the annotation bounds the radius of every chain head below the node |
| QuadForces.MaxRadiusAttained | apps/admin-ui/vendor-d3-force.js:1 | the annotation is zero or the radius of one of the heads below |
| QuadForces.ReachPrunes | apps/admin-ui/vendor-d3-force.js:1 | an array node out of reach of its own annotation hides no head as near as the visit allows for that head's radius |
| QuadForces.VisitedNear | apps/admin-ui/vendor-d3-force.js:1 | a visit that skips only cells out of reach hands on every head as near, along both axes, as it allows for that head's radius |
| QuadForces.VisitedFinds | apps/admin-ui/vendor-d3-force.js:1 | so every head of a safe radius is handed on whose tree position passes the squared pair test; a sum of radii that is not negative is safe (`SumSafe`) |
| QuadForces.VisitedMoved | apps/admin-ui/vendor-d3-force.js:1 | and every head that the pass has meanwhile moved by at most d and that is nearer by d than the visit allows |
| QuadForces.Reach | apps/admin-ui/vendor-d3-force.js:1 | the visit hands on exactly the heads below no array node out of reach, none twice, and every one of a safe radius that collides at its tree position |
| QuadMisses.GrownPath | apps/admin-ui/vendor-d3-force.js:1 | an extent that grows keeps the old one as a cell, along a path of quadrants |
| QuadMisses.Hidden | apps/admin-ui/vendor-d3-force.js:1 | two data of a cell out of reach of all radii inside it: the visit hands on neither |
| QuadMisses.UnsafeRadiiMiss | apps/admin-ui/vendor-d3-force.js:1 | for every pair of radii that is not safe, three data of different ids, added at once, of which the first visits and the second collides with it and is never handed on |
| QuadForces.OneHeadPerPosition | apps/admin-ui/vendor-d3-force.js:1 | each occupied position has exactly one head, so coincident data behind it are invisible to the collision test |
| QuadForces.HeadsAreAllIff | apps/admin-ui/vendor-d3-force.js:1 | every stored datum is a head exactly when no two share a position |
| QuadCharges.AnnotateCharges | apps/admin-ui/vendor-d3-force.js:1 | after the many-body pass every node carries the sum of the strengths of all data below it and its centre of charge; the division by a zero mass is never used by a parent |
| QuadCharges.ChargeOfContents | apps/admin-ui/vendor-d3-force.js:1 | that sum depends on the stored data only, not on how the tree was built |
| QuadCharges.SumPermutes | apps/admin-ui/vendor-d3-force.js:1 | a sum over the data does not depend on their order |
| QuadCharges.CentreIsMean | apps/admin-ui/vendor-d3-force.js:1 | with strengths of one sign the nested centre of a charged node is the strength-weighted mean position of all data below it |
| QuadCharges.CentreOfContents | apps/admin-ui/vendor-d3-force.js:1 | so that centre depends on the stored data only |
| QuadRuns.Play | apps/admin-ui/vendor-d3-force.js:1 | after any run of add, addAll, cover and remove the tree is valid and holds exactly what was added and not removed |
| QuadRuns.LinearFind | apps/admin-ui/vendor-d3-force.js:1 | the scan of `simulation.find` returns a nearest node strictly inside the radius, or nothing when none is inside |
| QuadRuns.TreeFind | apps/admin-ui/vendor-d3-force.js:1 | the pruned search keeps the same promise over the stored data |
| QuadRuns.SearchesAgree | apps/admin-ui/vendor-d3-force.js:1 | so search and scan find or miss together, and find equally near |
| QuadRuns.NegativeFind | apps/admin-ui/vendor-d3-force.js:1 | for a negative radius the pruned search keeps the promise of the scan exactly when nothing is inside, or one leaf's cell covers the whole square around the point |
| QuadRuns.NegativeRadiusMisses | apps/admin-ui/vendor-d3-force.js:1 | for every negative radius there is a tree in which the pruned search misses a datum the scan finds |
| ThreadPairs.Pair | apps/admin-ui/app.js:961-973 | flattening the steps gives the visible turns back, and a waiting message always meets the next answer |
| ThreadPairs.PairingIsUnique | apps/admin-ui/app.js:961-973 | those two facts determine the steps |
| ThreadThemes.Scan | apps/admin-ui/app.js:1028-1031 | the first cached ticket with the id supplies the intent |
| ThreadThemes.TicketThemes | apps/admin-ui/app.js:1014-1037 | exactly the tickets with a subject get a theme: the record's intent, else the first step that has one |
| ThreadThemes.SpreadThemes | apps/admin-ui/app.js:1038-1058 | every step has the closed-form theme, and the look-ahead runs at step 0 only |
| ThreadThemes.SpreadDetermines | apps/admin-ui/app.js:1038-1058 | the closed form - nearest own theme at or before, else the first after, else General - leaves one theme per step |
| ThreadThemes.LookAhead | apps/admin-ui/app.js:1048-1056 | a leading step without a theme takes the first theme further on, else General |
| ThreadGroups.GroupSteps | apps/admin-ui/app.js:1067-1103 | every step is placed once, items keep their order, and the same-ticket test after the early return is never true |
| ThreadGroups.TicketTogether | apps/admin-ui/app.js:1076-1089 | however topics interleave, all steps of a ticket share a group |
| ThreadGroups.GroupTheme | apps/admin-ui/app.js:1077-1103 | a step whose ticket's steps agree on a theme has its group's theme |
| ThreadGroups.MemberTheme | apps/admin-ui/app.js:1005-1103 | a group member has the group's theme unless its ticket has no subject at all |
| ThreadGroups.GroupHolds | apps/admin-ui/app.js:1077-1103 | inside a group the step indices strictly increase, and a step is in its own group once and in no other |
| ThreadGroups.GroupNotEmpty | apps/admin-ui/app.js:1094-1100 | no group is empty |
| ThreadGroups.FirstGroup | apps/admin-ui/app.js:1077-1103 | the first group starts with step 0, the newest |
| ThreadUnits.Merge | apps/admin-ui/app.js:1121-1144 | each item joins the unit of its key or opens a new one, in order |
| ThreadExchanges.AddOutbound | apps/admin-ui/app.js:1162-1178 | an answer joins the current exchange or opens one: offers and second substantive replies open |
| ThreadExchanges.LayOut | apps/admin-ui/app.js:1151-1179 | the exchanges are the summaries of the consecutive segments of the unit's turns |
| ThreadExchanges.SegmentsJoin | apps/admin-ui/app.js:1151-1179 | the segments joined give the unit's turns back in order |
| ThreadExchanges.SegmentsShaped | apps/admin-ui/app.js:1156-1178 | only the first turn of a segment is a customer message, and it has one substantive reply at most |
| ThreadExchanges.LayoutConserves | apps/admin-ui/app.js:1145-1189 | reading the exchanges of a list of turns in order gives every message and substantive reply of that list, in its order |
| ThreadExchanges.HoldingsLost | apps/admin-ui/app.js:1167-1176 | only a holding text with a later one in the same exchange is lost: as many show as were sent exactly when no exchange received two |
| ThreadView.BuildUnits | apps/admin-ui/app.js:1121-1189 | the units come from the merged items, each with its ticket, newest index, exchanges and last turn |
| ThreadView.Thread | apps/admin-ui/app.js:949-1189 | the whole pipeline: paired, themed, grouped and merged as specified for any turns and channel |
| ThreadTheorems.SharedOut | apps/admin-ui/app.js:1077-1144 | sharing items out over groups or units loses none and doubles none |
| ThreadTheorems.ChronologicalBag | apps/admin-ui/app.js:1145-1151 | the oldest-first copy of a unit keeps all its turns |
| ThreadTheorems.ReversedBag | apps/admin-ui/app.js:975 | reversing the steps keeps what they must show |
| ThreadTheorems.MessagesConserved | apps/admin-ui/app.js:949-1189 | across all exchanges of all units each visible message and substantive reply is shown exactly as often as it occurs |
| ThreadOrder.UnitInOrder | apps/admin-ui/app.js:949-1189 | the turns of a unit, and the messages and replies its exchanges show, are the visible turns read at strictly increasing positions; its step indices strictly increase |
| ThreadHoldings.HoldingsShown | apps/admin-ui/app.js:949-1189 | over the whole view the holding texts shown are among those sent, with multiplicity, and all of them exactly when no exchange received two |
| ThreadFocus.DecimalInjective | apps/admin-ui/app.js:1476 | distinct step indices give distinct index keys |
| ThreadFocus.TicketInOneUnit | apps/admin-ui/app.js:1067-1144 | all steps of a ticket land in one unit of one group |
| ThreadFocus.UnitStart | apps/admin-ui/app.js:1140-1144 | a unit starts with the newest of its steps |
| ThreadFocus.KeysDistinct | apps/admin-ui/app.js:1475-1476 | given `tkt_` ids, no two requests of a view share a key |
| ThreadFocus.Focus | apps/admin-ui/app.js:1483-1496 | the focus is the stored key while a unit has it, else the first unit's key |
| ThreadFocus.DetailShowsOne | apps/admin-ui/app.js:1483-1552 | the Detailed view shows exactly one request; without a valid stored focus it is the one that holds step 0 |
| ConceptGraph.OneNodePerName | services/neo4j_service/concepts.py:126-166 | a Concept name is matched by its own node only |
| ConceptGraph.CreateHolds | services/neo4j_service/concepts.py:126-137 | a MERGE that has to create adds one node with the name and the ON CREATE flag, and touches nothing else |
| ConceptGraph.MarkHolds | services/neo4j_service/concepts.py:126-137 | SET sold rewrites one Concept and leaves the base graph alone |
| ConceptGraph.LinkHolds | services/neo4j_service/concepts.py:126-137 | the MERGEd edges are exactly the new links of the layer |
| ConceptGraph.CopyHolds | services/neo4j_service/concepts.py:180-185 | a MERGE along a path adds exactly the links the far node already had |
| ConceptGraph.MergedTwice | services/neo4j_service/concepts.py:126-166 | two statements of one rule are one statement over both sets of pairs |
| ConceptRules.BasePaths | services/neo4j_service/concepts.py:180-185 | the PRODUCT_IS paths a statement matches lie in the base graph |
| ConceptLayer.SweptClean | services/neo4j_service/concepts.py:113-120 | after the three edge deletions every Concept is an orphan, and the sweep leaves the base graph |
| ConceptLayer.Graph.Clean | services/neo4j_service/concepts.py:113-120 | cleaning gives back exactly the graph without Concepts and their edges |
| ConceptLayer.Graph.MergeConcept | services/neo4j_service/concepts.py:126-137 | MERGE returns the node of the name, old flag kept, or a new one with the ON CREATE flag; no other node changes |
| ConceptLayer.Graph.LinkAll | services/neo4j_service/concepts.py:126-137 | one statement merges the Concept, the flag and one edge for every matched node, and nothing when none matched |
| ConceptLayer.Graph.CopyAlong | services/neo4j_service/concepts.py:180-185 | a path statement copies the links along all its rows at once |
| ConceptLayer.Graph.LinkTable | services/neo4j_service/concepts.py:126-139 | one pass over a dictionary links exactly the pairs it asks for and reports the Concepts hit |
| ConceptLayer.Graph.LinkChunk | services/neo4j_service/concepts.py:148-162 | a chunk links every chunk of its id to each Concept one of whose phrases its text contains |
| ConceptLayer.Graph.LinkChunks | services/neo4j_service/concepts.py:145-166 | the order in which the chunks are returned does not matter |
| ConceptLayer.Graph.Build | services/neo4j_service/concepts.py:101-251 | over any graph this module may have written before, a build leaves the base graph as it is and the layer that base determines; an earlier node survives, unchanged, exactly when it is no Concept; the four counts are those of the layer |
| ConceptLayer.OldConceptsGone | services/neo4j_service/concepts.py:113-120 | of the earlier nodes exactly the Concepts are gone |
| ConceptLayer.EdgeCount | services/neo4j_service/concepts.py:140 | counting edges into Concepts is counting links, as a name has one node |
| ConceptLayer.CountedLinks | services/neo4j_service/concepts.py:140-256 | the three edge counts count products by the subjects they sell, chunks that explain anything, and other nodes by their subjects |
| ConceptLayer.SameLayerSameFacts | services/neo4j_service/concepts.py:101-107 | so a rebuild gives every Concept query the same answers: only the Concepts' node identities may differ |
| ConceptTheorems.InstanceLinks | services/neo4j_service/concepts.py:126-249 | a node is an INSTANCE_OF exactly the Concepts its product, policy type, parent policy, account or KYC status names |
| ConceptTheorems.OtherLinks | services/neo4j_service/concepts.py:145-166 | the only other edges into Concepts are the EXPLAINS edges the chunk rules ask for |
| ConceptTheorems.SoldFlag | services/neo4j_service/concepts.py:126-249 | `sold` is true for a subject some product sells, else false if a chunk explains it, else true if a policy names it, else false; no other Concept exists |
| ConceptTheorems.NoOrphans | services/neo4j_service/concepts.py:116-120 | a Concept exists exactly when some node points at it |
| ConceptTheorems.ReportedCovers | services/neo4j_service/concepts.py:122-139 | the reported number of concepts is never too small |
| ConceptTheorems.ReportedExactIff | services/neo4j_service/concepts.py:122-251 | the reported subjects are the Concepts there are exactly when every policy subject and KYC is the subject of some record, and so is whatever a chunk without an id speaks of |
| ConceptTheorems.ReportedNumberIff | services/neo4j_service/concepts.py:250-259 | the reported number is never below the number of Concepts, and equal to it under just that condition |
| ConceptGuidance.HeldNamesAre | services/neo4j_service/queries.py:334-341 | the names collected for a customer are exactly the subjects some record of hers is an instance of |
| ConceptGuidance.ExplainMatchesAre | services/neo4j_service/queries.py:334-341 | the chunk rows are exactly the pairs the chunk rules ask for |
| ConceptGuidance.KeptOrder | services/neo4j_service/queries.py:381-389 | dropping rows without text keeps the order and doubles none |
| ConceptGuidance.GuidanceIsExact | services/neo4j_service/queries.py:334-389 | one row per knowledge chunk with text and Concept it explains, `is_hers` exactly when a record of hers reaches the Concept, hers first, then by name |
| ConceptGuidance.AnswerExists | services/neo4j_service/queries.py:334-341 | there is an answer in the required order over every graph |
| ConceptGuidance.InstanceOfGrows | services/neo4j_service/concepts.py:180-249 | adding records and edges never takes a subject from a node |
| ConceptGuidance.HersGrows | services/neo4j_service/queries.py:334-341 | whatever is added, a subject that was hers stays hers |
| ConceptGuidance.HoldingOnlyMarks | services/neo4j_service/queries.py:334-389 | an added holding removes no row, adds none, and only turns `is_hers` from false to true |
| MarkdownLines.RunIs | infra/scripts/md2docx.py:192-358 | where an inner loop stops is decided by the first line it does not go over |
| MarkdownScanner.Gather | infra/scripts/md2docx.py:192-358 | each inner loop collects exactly the lines up to there and never passes the end |
| MarkdownScanner.Trim | infra/scripts/md2docx.py:196-199 | blank lines go from both ends of a code block, and only from there |
| MarkdownScanner.Step | infra/scripts/md2docx.py:184-358 | each branch advances the index by what its block takes and adds the block's meaning |
| MarkdownScanner.Scan | infra/scripts/md2docx.py:181-358 | the loop ends for every input with the document's blocks; the index ends one past the last line exactly when the number of fence lines is odd |
| MarkdownBlocks.EveryLineOnce | infra/scripts/md2docx.py:184-358 | every line belongs to exactly one block, in order |
| MarkdownBlocks.PieceFences | infra/scripts/md2docx.py:184-358 | no block but code takes in a fence line, and a closed code block takes in two |
| MarkdownBlocks.OpenIffOdd | infra/scripts/md2docx.py:188-195 | the last fence is left open exactly when the number of fence lines is odd |
| MarkdownTheorems.RunSplit | infra/scripts/md2docx.py:319-355 | an inner loop that stops within a part does not see what follows a blank line |
| MarkdownTheorems.Apart | infra/scripts/md2docx.py:181-358 | a text that leaves no fence open, a blank line and any text after it convert as the two texts one after the other, the title rule carried over |
| MarkdownTheorems.OpenSwallows | infra/scripts/md2docx.py:188-217 | with a fence left open the text after the blank line becomes code |
| MarkdownTheorems.SeparableIffFencesPair | infra/scripts/md2docx.py:181-358 | so exactly the texts with an even number of fence lines convert apart from whatever follows |
| MarkdownTheorems.OneTitle | infra/scripts/md2docx.py:182-266 | at most one level-1 heading becomes the title, and none when there is one already |
| MarkdownTheorems.SwallowedIff | infra/scripts/md2docx.py:346-355 | a running paragraph takes in lines of another kind exactly when they are rules of stars or underscores or bullets without a plain space after the mark |
| MarkdownTheorems.RowReadsBack | infra/scripts/md2docx.py:132-133 | a table row written out with one blank around each cell reads back cell by cell, empty ones included |
| LoaderGraph.RunSplits | services/neo4j_service/loader.py:32-51 | the edges a load draws depend on the nodes it starts from only |
| LoaderGraph.NodeAfter | services/neo4j_service/loader.py:68-632 | after a load a node has what it had, overwritten by what the rows of its key set, the last row winning |
| LoaderGraph.MemoryAfter | services/neo4j_service/loader.py:569-587 | a memory is what ON CREATE of the first row and ON MATCH of the last row make of it |
| LoaderStore.MemoryContents | services/neo4j_service/loader.py:569-600 | resolution, flag and intent are the last row's; pattern, age and use count are kept, or the first row's and 0 |
| LoaderStore.Store.Put | services/neo4j_service/loader.py:144-189 | one row merges its node, sets its properties and draws edges match by match until one finds nothing |
| LoaderStore.Store.Learn | services/neo4j_service/loader.py:569-600 | a memory is created or refreshed, and linked to its interaction |
| LoaderStore.Store.LoadSheet | services/neo4j_service/loader.py:54-65 | a sheet is its rows in order, KYC rows without a customer number skipped |
| LoaderStore.Store.LoadTalks | services/neo4j_service/loader.py:514-602 | each interaction row is written and then remembered |
| LoaderStore.Store.Load | services/neo4j_service/loader.py:32-51 | a load is the sheets in the loader's order, and the counts are the sheets' lengths |
| LoaderScript.ScriptSettled | services/neo4j_service/loader.py:32-51 | that order loads every label before it is looked for, but for the agents |
| LoaderTheorems.OrdinarySettled | services/neo4j_service/loader.py:32-51 | loading again changes no ordinary node |
| LoaderTheorems.MemorySecond | services/neo4j_service/loader.py:569-587 | the second load changes a memory exactly when the first created it from one row, and only gives it `updated_at` |
| LoaderTheorems.SecondLoadIsFinal | services/neo4j_service/loader.py:32-51 | for any keyed workbook, in any sheet order and over any graph, a third load changes nothing |
| LoaderTheorems.SecondLoadDrawsLate | services/neo4j_service/loader.py:541-551 | when every other label is loaded in time, the second load draws only the late edges |
| LoaderStore.ThirdLoadChangesNothing | services/neo4j_service/loader.py:32-51 | the second load of this workbook is a fixpoint |
| LoaderStore.SecondLoadAdds | services/neo4j_service/loader.py:32-51 | between the first two loads only HANDLED_BY edges and `updated_at` on single-row memories can appear |
| ServiceClock.BoardBreach | apps/admin-ui/app.js:3937-3988 | the board breaches exactly for what analytics counts less what is at most 30 seconds late, plus answered open cases with a broken promise |
| ServiceClock.AgreeIff | services/analytics_service/aggregator.py:52-54 | board and analytics name the same tickets of a list exactly when it holds none of either kind |
| ServiceClock.AgreementFails | apps/admin-ui/app.js:3935-3988 | they do disagree, both ways: a case one millisecond late, and one answered in time but past the promise made then |
| ServiceDesk.Suggested | apps/admin-ui/app.js:4014-4023 | the suggestion is the first least-loaded eligible agent, and nobody exactly when nobody is eligible |
| ServiceDesk.FirstLeastIsUnique | apps/admin-ui/app.js:4014-4023 | which determines the agent |
| ServiceDesk.SuggestionIsPickIff | services/ticket_service/assignment.py:57-93 | the suggestion is the agent auto-assign would pick exactly when no equally loaded eligible agent has fewer late cases |
| ServiceDesk.SuggestionDiffers | services/ticket_service/assignment.py:57-93 | they do differ, on a board that is in order: equally loaded, the first by name is suggested though only her case is late |
| ServiceDesk.LoadTaken | apps/admin-ui/app.js:4648-4655 | assigning a case adds one to its taker's load, unless it is closed or already hers |
| ServiceDesk.AssignedSafeIff | apps/admin-ui/app.js:4608-4655 | giving a case away keeps capacities and teams exactly when it goes to nobody, an operator, or somebody of its team who has room or need not |
| ServiceDesk.RunSafeIff | apps/admin-ui/app.js:4608-4655 | a run of Take it and Hand over is safe throughout exactly when every Take it goes to an operator or to somebody it fits |
| ServiceDesk.RunSafe | apps/admin-ui/app.js:4608-4655 | and is safe up to the first that does not fit |
| ServiceDesk.OperatorFits | apps/admin-ui/app.js:4641-4646 | an operator fits always, so the accounts that can sign in break nothing |
| ServiceDesk.Desk.TakeIt | apps/admin-ui/app.js:4644-4646 | Take it assigns to whoever is signed in, on a team or not |
| ServiceDesk.Desk.HandOver | apps/admin-ui/app.js:4608-4615 | Hand over assigns to the suggestion of the case's team, or to nobody |
| ServiceDesk.Desk.AutoAssignAll | apps/admin-ui/app.js:4565-4574 | every waiting case of a team with room goes to the one agent suggested on the board as loaded |
| ServiceDesk.BatchLoad | apps/admin-ui/app.js:4565-4634 | so that agent gains all of the team's waiting cases and everybody else keeps what they had |
| ServiceDesk.BatchSafeIff | apps/admin-ui/app.js:4565-4634 | the batch keeps capacities exactly when each team's waiting cases fit the room of its one chosen agent |
| ServiceDesk.BatchOverfills | apps/admin-ui/app.js:4565-4634 | they need not: two waiting cases both go to the one agent with room for one |
| ReviewDraft.LayOut | services/agent_assist_service/case_reviewer.py:300-330 | the layout splits greeting, body and closing as specified |
| ReviewDraft.LayoutKeepsText | services/agent_assist_service/case_reviewer.py:300-330 | every character that is no blank stays, in order, but for one letter that may become a capital |
| ReviewDraft.LayoutTwice | services/agent_assist_service/case_reviewer.py:300-330 | laying out a laid-out message changes nothing |
| ReviewDraft.LayoutMakesNoMask | services/agent_assist_service/case_reviewer.py:282-330 | the layout never makes a mask token |
| ReviewDraft.CleanDraftIsSafe | services/agent_assist_service/case_reviewer.py:274-297 | what survives is at most 900 characters and free of masks; nothing survives exactly when there was nothing or a mask |
| ReviewOffers.BuildCandidates | services/agent_assist_service/opportunity_engine.py:92-238 | candidates have distinct products in the order of the rules, each on the first rule that proposes it and grounded in the customer's own records; a product is among them exactly when a rule fires: never one already held |
| ReviewOffers.Dedupe | services/agent_assist_service/opportunity_engine.py:229-238 | what stays is what stands at the first position of each product, at increasing positions |
| ReviewOffers.FirstsRanked | services/agent_assist_service/opportunity_engine.py:92-238 | of a product's candidates the one of the earliest rule is kept |
| ReviewOffers.AllRules | services/agent_assist_service/opportunity_engine.py:92-227 | the rules one after another propose exactly the eligible products, in the order of the rules, on her own records |
| ReviewOffers.FromInterest | services/agent_assist_service/opportunity_engine.py:203-227 | the latest recent turn about a family not held decides |
| ReviewOffers.FromBalance | services/agent_assist_service/opportunity_engine.py:144-160 | one balance high enough gives the tier, and a deposit when none is held |
| ReviewOffers.RulesCover | services/agent_assist_service/opportunity_engine.py:92-238 | the rules cover the eligible products and no others |
| ReviewCase.ValidActions | services/agent_assist_service/case_reviewer.py:357-384 | the first three acceptable actions, in the order of the answer, unless an item raises before they are found |
| ReviewCase.ValidOffers | services/agent_assist_service/opportunity_engine.py:336-381 | the first two offers naming a candidate, in the order of the answer, unless an item raises before they are found |
| ReviewCase.ActionIsGood | services/agent_assist_service/case_reviewer.py:357-382 | an accepted action has a known type, a bounded reason that is not empty, a safe draft and a confidence between 0 and 1 |
| ReviewCase.OfferIsGood | services/agent_assist_service/opportunity_engine.py:348-379 | an accepted offer has product, kind and basis of one of our candidates |
| ReviewCase.OffersSuppressed | services/agent_assist_service/case_reviewer.py:166-202 | offers are gated exactly when the latest inbound turn is negative |
| ReviewCase.ConfidenceKept | services/agent_assist_service/case_reviewer.py:368-371 | a stated number is kept exactly when it is above 0 and at most 1; 0 becomes 0.5 |
| ReviewJson.ObjectReadBack | services/agent_assist_service/case_reviewer.py:340-350 | an object is read out of any wrapping without braces on its outer sides |
| ReviewJson.OfferedAgain | services/agent_assist_service/opportunity_engine.py:320-323 | a list of offers survives its second decoding; an object does exactly when no list can be cut out of its text |
| ReviewJson.InnerListTaken | services/agent_assist_service/opportunity_engine.py:320-323 | a list inside an object is taken in its place when no bracket stands around it |
| ReviewCase.ParseAndValidate | services/agent_assist_service/case_reviewer.py:333-392 | for any text: no object is a failure, an `actions` value that cannot be iterated raises, and so does a confidence too large for a float on an item that is reached; otherwise the first three acceptable actions and the first two acceptable offers of the second decoding, in order |
| ReviewCase.OffersInOrder | services/agent_assist_service/case_reviewer.py:386-390 | an `offers` list is kept in the order of the answer; an object given by itself is one offer |
| ReviewCase.ReviewCase | services/agent_assist_service/case_reviewer.py:395-472 | for every answer: suppressed exactly by the gates, actions and offers those of the answer, offers only eligible products on the customer's own facts, and none when the latest inbound turn is negative |
| WorkbookGenerator.Sequences.NextId | data/synthetic/generate_bfsi_data.py:94-97 | a number never handed out before |
| WorkbookGenerator.Accounts | data/synthetic/generate_bfsi_data.py:179-226 | every customer has an account and every account a customer |
| WorkbookGenerator.Cards | data/synthetic/generate_bfsi_data.py:244-285 | every card names an account of its own customer |
| WorkbookGenerator.MakeLoan | data/synthetic/generate_bfsi_data.py:324-382 | instalments paid and pending add up; Closed exactly when none is pending, and then neither overdue nor in debt; NPA exactly when some are and the loan is 90 days overdue |
| WorkbookGenerator.Policies | data/synthetic/generate_bfsi_data.py:451-488 | every customer has a claimable policy |
| WorkbookGenerator.FileClaim | data/synthetic/generate_bfsi_data.py:494-537 | a claim names a claimable policy of its customer, and approves no more than was claimed |
| WorkbookGenerator.Claims | data/synthetic/generate_bfsi_data.py:494-537 | claims of one policy have pairwise distinct statuses |
| WorkbookGenerator.Charges | data/synthetic/generate_bfsi_data.py:600-652 | every charge names an account of its own customer |
| WorkbookGenerator.Generate | data/synthetic/generate_bfsi_data.py:94-652 | whatever is drawn, ids are unique and all sheets fit together |

## Left out

What a member below states less of than its source does:

- Quadtree.Quadtree.Find: takes any upper approximation of the square root, as rounding is not the point.
- QuadForces.AnnotateRadii: only `r` is written by this pass; the visit's effect on velocities is left out.
- QuadCharges.AnnotateCharges: strengths depend on the datum alone; the force itself, with its theta approximation, is left out.
- QuadForces.Reach: the pair test is stated at the position a head has in the tree, while the pass reads where it has moved it since (`QuadForces.VisitedMoved` says what remains true); its effect on velocities and its test of the indices are left out.
- QuadForces.PostOrder: the boxes `visitAfter` hands its callback are not passed, as neither force uses them.
- ThreadGroups.GroupSteps: groups are referred to by index; the source holds references to the same group objects.
- ThreadThemes.TicketThemes: a ticket id that names a property of every JavaScript object is an ordinary key here.
- ConceptLayer.Graph.Build: requires that edges into Concepts are the two kinds this module draws, that no edge leaves a Concept and none dangles; parallel edges count as one.
- ConceptGuidance.GuidanceIsExact: an answer of the database is any listing in the required order; its connection errors, which give an empty list, are not modelled.
- LoaderStore.Store.Load: a row is its key and the properties it sets; which column fills which property, and the texts substituted for empty cells, are not modelled.
- ServiceDesk.Desk.HandOver: the board is as fresh as the database, names and ids are unique as its keys make them; two people acting at once are not modelled.
- ServiceClock.BoardBreach: both clocks read one instant; the query compares dates as text.
- ReviewCase.ReviewCase: `json.loads` and `json.dumps` are parameters of which only what `ReviewJson.Format` says is used; `float` is a parameter too; numbers are reals, so a confidence of NaN is outside the model.
- ReviewDraft.LayoutKeepsText: letters, digits and blanks are the ASCII ones, so upper case never lengthens a text.
- ReviewOffers.BuildCandidates: a basis is its facts, not the sentence made of them.
- WorkbookGenerator.Generate: names, dates, transactions, deposits, interactions and the catalogue are not generated; a reference is its prefix and number, not the padded text.
- MarkdownScanner.Scan: inline markup and everything python-docx does with a block are left out; blanks and digits are the ASCII ones.

What the repository does beside this:

- Rendering, polling, modals, session storage and the layout of the lineage view in the console.
- Alpha cooling, timers, drag events and the link and centring forces of the vendored library.
- The channel pollers, delivery retries, CRM and Jira calls, and the escalation cascade.
- Classification, answer generation, retrieval and the masking of personal data, all around calls to a model.
- `get_all_customer_records`, `get_solution_performance` and the other queries: grouping and counting without an invariant of their own.
