# geneaflow kinship, layout and edge-editing core in Dafny

geneaflow is a family-tree editor. A tree is a list of persons (nodes with an id, a name, a gender and a canvas position) and a list of relations (edges of kind `lineage`, parent to child, or `spouse`). One person is the reference person, the root. This project models the three pieces of graph logic at the core of the editor and proves properties of them.

- **Kinship labels** (`services/relationshipService.ts`).
  - The relations are indexed into parents-of, children-of and spouses-of lists.
  - A breadth-first walk from the root records, for each person it discovers, the steps (`U` up to a parent, `D` down to a child, `H` to a spouse) and the persons on the way.
  - The walk is normalised: a `U,D` pair through a different person becomes a sibling step `S`.
  - The normalised walk is turned into a label such as "Grandmother", "Great-Uncle", "2nd Cousin 1x Removed", "Sister-in-law" or "Relative".
- **Generational layout** (`calculateLayout` in `services/layoutService.ts`).
  - A second breadth-first walk gives each person a level: the same level across a spouse, one up to a parent, one down to a child.
  - Each level's row is cut into clusters of spouses and co-parents. Each cluster gets a desired centre from the parents already placed above it.
  - The clusters are ordered and flattened. A merge pass builds blocks so that neighbouring blocks keep the sibling gap.
  - Every person then gets a point whose `y` is its level times `LEVEL_HEIGHT`.
- **Edge editing** (the handlers of `FamilyTreeApp.tsx` and the stand-alone `onConnect` of `repro_autoconnect.ts`).
  - Deleting a person, deleting a relation and updating a person.
  - Creating a person from one of the four ports of another.
  - Connecting two persons by dragging between ports. This follows the port-to-relation rule, suppresses duplicates and links the new parent as spouse to the child's other parents.

Modules:

- `Wrappers`: `Option`.
- `Family`: the entities and the constants `LEVEL_HEIGHT = SIBLING_GAP = 200`.
- `Lists` and `Strings`: JavaScript list and string operations, as used here.
- `Adjacency`, `KinshipLabels` and `Kinship`: kinship labels.
- `LayoutLevels`, `LayoutRows`, `LayoutClusters`, `LayoutBlocks` and `Layout`: the layout, one module per pass.
- `Editing` and `AutoConnect`: edge editing.

Each loop of the source that updates variables (a `forEach`, a `for`, a `while`, or a nested pair of them) is a `method` with a `for` or `while` loop; most are `for` loops over a list. Calls that build a value without a loop of their own (`filter`, `map`, `reduce`, `sort`, `find`, `indexOf`, `includes`, `replace`, template literals) are functions. Most loop methods are proved equal to a recursive function that specifies them:

- the breadth-first walks: `Kinship.CalculateAdvancedRelationships` against `Bfs` and `LayoutLevels.AssignLevels` against `Levels`, with their neighbour loops `Kinship.TryVisitAll` against `VisitAll` and `LayoutLevels.LevelNeighbours` against `LevelAll`;
- the cluster traversal: `LayoutClusters.GrowCluster` against `GrowFrom`, its partner loop `LayoutClusters.AddPartners` against `VisitPartners`, and `LayoutClusters.ClusterRow` against `ClusterOrders` and `ClustersOf`;
- the block passes: `LayoutBlocks.Flatten` against `Flattened`, `LayoutBlocks.MergeBlocks` against `Merged` and `LayoutBlocks.PlaceBlocks` against `Placed`;
- the row passes: `Layout.LayoutRow` against `RowPositions` and `Layout.PlaceRows` against `LaidOut`;
- the smaller loops: `KinshipLabels.NormalizePathViaSiblings` against `Normalized`, `Adjacency.BuildAdjacency` against `ParentsOf`, `ChildrenOf` and `SpousesOf`, `LayoutRows.GroupRows` against `Row`, `LayoutClusters.CoParents` against `CoParentCandidates`, and `LayoutClusters.ClusterCentres` against `DesiredCenter` and `Mean`.

The other loop methods state their result by its contents rather than by a function: `Layout.FinalPoints` (one point per person) and the editing loops `Editing.LinkCoParents` and `Editing.LinkNewParent` (which spouse relations are appended, in which order). `LayoutBlocks.PlaceBlock`, the inner placement loop, keeps the predicate `Written`, from which `Placed` follows.

The properties the code promises are proved about the specifying functions. The editor's React state (nodes, edges, root, selection and drag start) is the value type `Editor`, and each handler maps an old `Editor` to a new one. The module-level `edges` list of `repro_autoconnect.ts` is the field of a class `Session`, which `OnConnect` reassigns.

A few behaviours of the code are easy to misread; the model follows the code in each.

- **Unknown root.** When the root id names no person, the code does not return an empty result. It still labels the root with "Me", or with the custom "me" label. It also walks any relations that mention that id, and it gives every person a point (row 0 when unreached). The model does the same.
- **Persons are not consulted.** `buildAdjacency` never looks at the persons. Relations to ids that name no person are indexed and walked like any other (`Adjacency.BuildAdjacency`).
- **Walk orders differ.** The kinship walk tries parents, then children, then spouses. The level walk tries spouses, then parents, then children. Both orders are modelled as written.

## Model

| member | source | states |
|---|---|---|
| Adjacency.BuildAdjacency | services/relationshipService.ts:10-36 | For every id, each of the three indexes holds exactly that person's parents, children or spouses, in relation order. A spouse relation counts for both ends. A key is present exactly when its list is non-empty. |
| Adjacency.ParentChildDuality | services/relationshipService.ts:19-26 | `p` is listed among the parents of `c` exactly when a lineage relation runs from `p` to `c`. Exactly then `c` is listed among the children of `p`. |
| Adjacency.SpouseSymmetry | services/relationshipService.ts:27-32 | `b` is listed among the spouses of `a` exactly when a spouse relation joins them, in either direction. So `b` is a spouse of `a` exactly when `a` is a spouse of `b`. |
| Adjacency.NeighboursAreEndpoints | services/relationshipService.ts:18-33 | Every listed parent, child or spouse is an endpoint of some relation. Nothing else enters the index. |
| KinshipLabels.NormalizePathViaSiblings | services/relationshipService.ts:39-64 | The loop returns the reference normalisation. A walk of at most one step is returned unchanged. Otherwise a left-to-right scan turns each `U,D` pair whose outer persons differ into one `S`, and the pairs it turns do not overlap. |
| KinshipLabels.ScanFromScan | services/relationshipService.ts:45-62 | The loop's accumulating scan equals what has been pushed so far followed by the scan of the rest. |
| KinshipLabels.NormalizedDistinctPath | services/relationshipService.ts:49-58 | On a walk whose persons are pairwise distinct, every `U,D` pair passes the guard, so the normalisation is the plain left-to-right collapse of `U,D` into `S`. |
| KinshipLabels.NormalizedLength | services/relationshipService.ts:48-62 | Each `S` the normalisation introduces replaces exactly two steps. The output is shorter than the input by the number of `S` it adds. |
| KinshipLabels.ReturnWalkKeepsSteps | services/relationshipService.ts:54 | Going up to a parent and back down to the same person is not a sibling step: `U,D` stays as it is. |
| KinshipLabels.GreatsAt | services/relationshipService.ts:67-69 | `greats(n)` is `"Great-"` repeated `n` times: it has length `6n`, and character `p` is character `p mod 6` of `"Great-"`. |
| KinshipLabels.SecondCousinOnceRemoved | services/relationshipService.ts:71-80 | Degree 2 with removal 1 reads "2nd Cousin 1x Removed". |
| KinshipLabels.ThirdCousinTwiceRemoved | services/relationshipService.ts:71-80 | Degree 3 with removal 2 reads "3rd Cousin 2x Removed". |
| KinshipLabels.CousinWordingPastThird | services/relationshipService.ts:71-80 | For every degree past 3 the label starts with the decimal text of the degree and "th Cousin", as in "4th Cousin" and "11th Cousin". With no removal nothing follows. With a removal, a space, the decimal text of the removal and "x Removed" follow. |
| Strings.NatToString | services/relationshipService.ts:77-79 | The text a template literal prints for a non-negative integer: at least one decimal digit, no leading zero, and the digits denote the number. |
| KinshipLabels.PlainTerm | services/relationshipService.ts:126-137 | A term of at least three characters whose first character is not `G` or whose third is not `e` cannot start with "Great-", so it only goes through the table lookup of line 137. |
| KinshipLabels.TableTerm | services/relationshipService.ts:126-137 | A term that does not start with "Great-" and is a key of the gendered table becomes the table's word for the gender. That word is never empty, so the `\|\| base` fallback is not taken. |
| KinshipLabels.UnknownBaseKept | services/relationshipService.ts:137 | A term that is neither a key of the table nor "Great-"-prefixed is returned unchanged, whatever the gender. |
| KinshipLabels.GreatsGendered | services/relationshipService.ts:126-135 | For a term of one or more "Great-" followed by a base noun, the "Great-" prefix is kept. The first base noun, in the order Grandparent, Aunt/Uncle, Grandchild, Grand-niece/nephew, is replaced by its gendered word. |
| KinshipLabels.FirstS | services/relationshipService.ts:191 | The result is the index of the first `S`, or -1 when there is none. |
| KinshipLabels.SpouseLabel | services/relationshipService.ts:150 | A single `H` is labelled Husband, Wife or Spouse. |
| KinshipLabels.ParentInLawLabel | services/relationshipService.ts:156 | `H,U` is labelled Father-in-law, Mother-in-law or Parent-in-law. |
| KinshipLabels.GrandparentInLawLabel | services/relationshipService.ts:157 | `H,U,U` is "Grandparent-in-law" for every gender, because that term is not a key of the table. |
| KinshipLabels.GreatParentInLawLabels | services/relationshipService.ts:158 | `H` followed by `n >= 3` steps `U` is `greats(n-2)` followed by the gendered grandparent word and "-in-law". |
| KinshipLabels.SiblingInLawLabel | services/relationshipService.ts:161 | `H,S` is labelled Brother-in-law, Sister-in-law or Sibling-in-law. |
| KinshipLabels.NieceInLawLabel | services/relationshipService.ts:164 | `H,S,D` is "Niece/Nephew-in-law" for every gender. |
| KinshipLabels.GreatNieceInLawLabels | services/relationshipService.ts:162-165 | `H,S` followed by `k >= 2` steps `D` is `greats(k-1)` followed by the gendered grand-niece word and "-in-law". |
| KinshipLabels.ParentLabel | services/relationshipService.ts:172 | `U` is labelled Father, Mother or Parent. |
| KinshipLabels.AncestorLabels | services/relationshipService.ts:170-175 | `n >= 2` steps `U` give `greats(n-2)` followed by Grandfather, Grandmother or Grandparent. |
| KinshipLabels.ChildLabel | services/relationshipService.ts:179 | `D` is labelled Son, Daughter or Child. |
| KinshipLabels.DescendantLabels | services/relationshipService.ts:177-182 | `n >= 2` steps `D` give `greats(n-2)` followed by Grandson, Granddaughter or Grandchild. |
| KinshipLabels.SiblingLabel | services/relationshipService.ts:186 | `S` is labelled Brother, Sister or Sibling. |
| KinshipLabels.NieceLabel | services/relationshipService.ts:187 | `S,D` is labelled Nephew, Niece or Nibling. |
| KinshipLabels.GrandNieceLabels | services/relationshipService.ts:184-189 | `S` followed by `k >= 2` steps `D` gives `greats(k-1)` followed by Grandnephew, Grandniece or Grandnibling. |
| KinshipLabels.AuntUncleLabels | services/relationshipService.ts:191-202 | `u >= 1` steps `U` then `S` give `greats(u-1)` followed by Uncle, Aunt or Pibling. |
| KinshipLabels.CousinLabels | services/relationshipService.ts:191-206 | `u >= 1` steps `U`, then `S`, then `d >= 1` steps `D` give the cousin label of degree `min(u, d)` removed `abs(u-d)` times. The label is never gendered. |
| KinshipLabels.ChildInLawLabel | services/relationshipService.ts:208-209 | `D,H` is labelled Son-in-law, Daughter-in-law or Child-in-law. |
| KinshipLabels.LateSpouseIsRelative | services/relationshipService.ts:150-211 | A normalised walk with an `H` anywhere after its first step, other than `D,H`, is "Relative". |
| KinshipLabels.DistinctWalkLabel | services/relationshipService.ts:140-147 | For a non-empty walk through pairwise distinct persons, the label is that of the collapsed steps. The guard on persons then plays no part. |
| KinshipLabels.GreatAuntUncleWalk | services/relationshipService.ts:191-202 | Three steps up and one down, through distinct persons, give "Great-" followed by Uncle, Aunt or Pibling. |
| KinshipLabels.FirstCousinWalk | services/relationshipService.ts:191-206 | Two steps up and two down, through distinct persons, give "1st Cousin". |
| Kinship.VisitAll | services/relationshipService.ts:237-257 | `tryVisit` over one neighbour list, in list order: afterwards the visited set is the old one plus the list. The old queue stays in front. When nobody new is visited, the queue is unchanged. |
| Kinship.TryVisitAll | services/relationshipService.ts:237-257 | The loop gives exactly the state of `VisitAll`, so each new person enters the queue in list order. After one neighbour list, every neighbour has been found. Each neighbour not visited before is marked, queued once and labelled from the walk through the current person plus one step. Persons found earlier keep their walk and label, because first discovery wins. |
| Kinship.VisitNeighbours | services/relationshipService.ts:255-257 | The three neighbour loops of one round give exactly `Expand`: parents, then children, then spouses of the current person, each list read from the adjacency index. |
| Kinship.Run | services/relationshipService.ts:235-258 | The reference outer loop, one `Expand` per queue entry, ends with an empty queue. |
| Kinship.ExpandProgress | services/relationshipService.ts:235-258 | A round only visits endpoints of edges. A round that visits nobody new shortens the queue, so the outer loop ends. |
| Kinship.ProcessHead | services/relationshipService.ts:235-258 | One pass of the outer loop gives `Expand` of the head and the rest of the queue. It keeps the traversal invariant and leaves the rest of the reference loop `Run` unchanged. |
| Kinship.NextWalk | services/relationshipService.ts:244-250 | Extending a recorded walk by one relation to a person not yet found gives a walk from the root with pairwise distinct persons. |
| Kinship.ClosedContainsWalk | services/relationshipService.ts:235-258 | Once all neighbours of every found person are found, every walk from the root ends at a found person. That person's recorded walk is no longer than the given one. |
| Kinship.Round | services/relationshipService.ts:235-258 | One round of the outer loop keeps the traversal invariant: found persons are labelled from their recorded walks, and the walk is layered breadth-first. The round takes the head of the queue and tries parents, then children, then spouses. Each round visits a new person or shortens the queue. |
| Kinship.CalculateAdvancedRelationships | services/relationshipService.ts:215-261 | The root is labelled with the custom "me" label when it is non-empty, else "Me". The labelled persons are exactly those reachable from the root over the relations. Each is labelled by the label of a recorded walk from the root through pairwise distinct persons. That walk is a shortest one, and its label equals the label of its collapsed steps. The labels are exactly those of the reference traversal `Bfs`, which fixes the queue order, so the walk that labels a person is the one it is first found along in that order. |
| LayoutLevels.LevelAllGrown | services/layoutService.ts:30-52 | One `forEach` over a neighbour list, in list order: the visited persons become the old ones plus the list, and the levels stay keyed by the visited persons. Old levels are kept and each newly visited person gets the given level. The queue gains exactly the newly visited persons, and is unchanged when nobody new is visited. |
| LayoutLevels.LevelNeighbours | services/layoutService.ts:30-52 | The loop gives exactly the state of `LevelAll`. So after one neighbour list, each neighbour not visited before is visited, gets the given level and is queued, and persons already visited keep their level. |
| LayoutLevels.RoundFromGrows | services/layoutService.ts:25-53 | A round only visits neighbours of the current person and only queues persons it visits. A round that visits nobody new leaves the queue as it was. |
| LayoutLevels.LevelProgress | services/layoutService.ts:25-53 | A round keeps the levels keyed by the visited persons, the queue inside them and them inside the endpoints of edges. It visits a new person or shortens the queue, so the `while` loop ends. |
| LayoutLevels.RunLevels | services/layoutService.ts:25-53 | The reference outer loop, one round per queue entry, ends with an empty queue. |
| LayoutLevels.LevelRound | services/layoutService.ts:26-52 | One loop body gives exactly `RoundFrom` at the current person's level: spouses at that level, then parents one up, then children one down, each list read from the adjacency index. |
| LayoutLevels.GrownDerived | services/layoutService.ts:30-52 | Each person newly levelled from the current person gets that person's recorded walk plus one step. Its level is the change of level along that walk. |
| LayoutLevels.LevelHead | services/layoutService.ts:25-53 | One pass of the `while` loop gives `RoundFrom` of the head of the queue and keeps the traversal invariant and the recorded walks. It leaves the rest of the reference loop `RunLevels` unchanged. |
| LayoutLevels.WalkLevelled | services/layoutService.ts:25-53 | Once the neighbours of every visited person are visited, every walk from the root ends at a visited person. |
| LayoutLevels.AssignLevels | services/layoutService.ts:20-53 | The levels are exactly those of the reference traversal `Levels`, which fixes the queue order. The root is at level 0. The persons with a level are exactly those reachable from the root. Each person's level is the change of level along a recorded walk from the root to it: plus one per child step, minus one per parent step, nothing per spouse step. Each person but the root is at the level of a levelled person linked to it, adjusted by that step. |
| LayoutLevels.SpouseOfChildLevels | services/layoutService.ts:25-53 | With the root "R" the parent of "A" and "A" married to "B", the traversal puts "R" at level 0 and "A" at level 1, and "B" at level 1 too, beside its spouse. |
| LayoutRows.RowMembers | services/layoutService.ts:56-61 | A person is in row `l` exactly when it is one of the persons and its level is `l`. A person without a level counts as level 0. |
| LayoutRows.ExactlyOneRow | services/layoutService.ts:57-60 | Every person is in the row of its own level and in no other row. |
| LayoutRows.GroupRows | services/layoutService.ts:56-61 | A row exists exactly for each level some person has. Each row lists that level's persons in the order of the person list. The keys list each row's level once. |
| LayoutRows.SortLevels | services/layoutService.ts:63-65 | The row levels are sorted into ascending order, each kept as often as it occurs. |
| LayoutRows.SortedLevelsIncrease | services/layoutService.ts:63-65 | The sorted levels hold the same levels and strictly increase, so the rows are laid out top-down. |
| LayoutClusters.CoParentsShareAChild | services/layoutService.ts:94-102 | `p` is a co-parent candidate of `curr` exactly when `p` is not `curr`, stands in the row and shares a child with `curr`. |
| LayoutClusters.CoParents | services/layoutService.ts:94-102 | The co-parent set, in insertion order, is the list of candidates, each kept once at its first occurrence. |
| LayoutClusters.PartnerSymmetric | services/layoutService.ts:91-112 | Within a row, partnership (a spouse, or a parent of a shared child) is symmetric. |
| LayoutClusters.GrowCluster | services/layoutService.ts:84-113 | The members, in the order they are pushed, are exactly those of the reference traversal `GrowFrom`: a first-in first-out queue from the start, where each dequeued person's partners (its spouses in list order, then its co-parents in insertion order, each once) are visited, pushed and queued when they are in the row and not yet visited. Hence the cluster starts with its first person, holds no person twice, holds only persons of the row not visited before, and the visited set grows by exactly the cluster. The cluster holds every partner of each of its members, and each member after the first is a partner of an earlier member, so the cluster hangs together. |
| LayoutClusters.ClusterHead | services/layoutService.ts:88-112 | One pass of the `while` loop is one round of `GrowFrom`: the head is dequeued and its partner list `Distinct(spouses + coParents)` is visited in order. The state it leaves has the same traversal result, and the loop's measure goes down. |
| LayoutClusters.AddPartners | services/layoutService.ts:106-112 | Visiting a partner list in order is `VisitPartners`: each partner in the row and not yet visited is added to the visited set, the cluster and the queue, in list order, each once. Every partner in the row ends up visited. |
| LayoutClusters.VisitPartners | services/layoutService.ts:106-112 | After the partners are visited, a person is visited exactly when it was before or it is a partner in the row. The cluster only grows, and the queue changes only when someone new was visited. |
| LayoutClusters.SortByX | services/layoutService.ts:115-120 | The cluster's members are in ascending order of current x, each kept as often as it occurs. |
| LayoutClusters.ClusterCentres | services/layoutService.ts:122-159 | The desired centre is one of three values. If some member has parents in a row above, it is the mean, over those members, of their parents' mean x. Otherwise it is 0 for the root's cluster. Otherwise it is the cluster's current centre. The current centre is the members' mean current x. |
| LayoutClusters.AccumulateMember | services/layoutService.ts:127-143 | One member joins the running totals: its current x is added to the current total, and when it has parents in a row above, their mean x is added to the desired total and the parent count rises by one. The totals after members `0..i` are those `Accumulated` defines for that prefix. |
| LayoutClusters.MeanWithin | services/layoutService.ts:139-157 | A general property of `Mean`, the average that lines 139-140, 147 and 151 compute: a mean of values between two bounds lies between them. |
| LayoutClusters.ParentCentresWithin | services/layoutService.ts:131-141 | When every parent in a row above, of every member, stands within two bounds, each member's parent centre (`pCenter`) lies within them too. |
| LayoutClusters.ParentDesiredWithin | services/layoutService.ts:127-151 | When some member has parents in a row above, the desired centre lies within the span of those parents' x values: if every such parent stands between two bounds, so does the desired centre. |
| LayoutClusters.CurrentDesiredWithin | services/layoutService.ts:127-157 | When no member has parents above and the root is not a member, the desired centre is the current centre and lies within the span of the members' current x values. |
| LayoutClusters.ClusterRow | services/layoutService.ts:73-161 | The clusters are exactly `ClustersOf`: one cluster for each person of the row, in row order, that no earlier cluster reached, holding the traversal `GrowFrom` from that person sorted by current x, with its two centres. So the cluster order is the row order of each cluster's first person. The clusters partition the row: every person of the row is in exactly one cluster, and every member belongs to the row. Each cluster is closed under partnership and connected: it is the sort by current x of an order in which each member after the first is a partner of an earlier one. |
| LayoutClusters.RowPerson | services/layoutService.ts:80-160 | One person of the row is skipped when visited, and otherwise starts the next cluster. The clusters built so far followed by the clusters of the rest of the row are always `ClusterOrders`. |
| LayoutClusters.TwoMarriagesCluster | services/layoutService.ts:80-113 | For a row "a", "b", "c" where "a" is married to "b" and then to "c", the row is one cluster found in the order "a", "b", "c". |
| LayoutBlocks.SortClusters | services/layoutService.ts:163-169 | Ordering the clusters keeps each cluster as often as it occurs. |
| LayoutBlocks.SortKeepsMembers | services/layoutService.ts:163-169 | Ordering the clusters keeps every person of the row as often as before. |
| LayoutBlocks.FarApartSortedByDesired | services/layoutService.ts:163-169 | When any two desired centres differ by more than 1, the clusters come out in ascending order of desired centre. |
| LayoutBlocks.Flatten | services/layoutService.ts:171-177 | The nested loops produce the reference flattening: cluster after cluster, each member paired with its cluster's desired centre. |
| LayoutBlocks.FlattenedIds | services/layoutService.ts:171-177 | The flattened persons are the clusters' members in cluster order, then member order. |
| LayoutBlocks.FlattenedDesired | services/layoutService.ts:174-176 | Every member of every cluster appears in the flattened list with that cluster's desired centre. |
| LayoutBlocks.MergeBlock | services/layoutService.ts:209-217 | Merging the blocks of two consecutive runs gives the block of the joined run. Its width is `(count-1)` times the gap, and its total is the sum of the desired x values. |
| LayoutBlocks.MergeBlocks | services/layoutService.ts:186-223 | The blocks are exactly those of the reference stack merge `Merged`: each item in turn starts a block that swallows the last block while, and only while, the two overlap, and is then pushed. The blocks are formed by consecutive non-empty runs of the flattened list, and those runs concatenate back to it exactly, so nothing is lost or repeated. Each block's width is `(count-1) * SIBLING_GAP` and its total is the sum of its members' desired x. No two neighbouring blocks overlap. |
| LayoutBlocks.PlaceItem | services/layoutService.ts:193-221 | One item settles onto the blocks of the items before it exactly as `Merged` prescribes, keeping the blocks formed from consecutive runs and free of overlapping neighbours. |
| LayoutBlocks.BlockCentred | services/layoutService.ts:226-231 | A block's slots have as their mean the block's mean desired x. |
| LayoutBlocks.PlaceBlocks | services/layoutService.ts:225-232 | Each block's person `i` is written `startX + i * SIBLING_GAP`, where a person written twice keeps its last value. Every other entry of the position map is unchanged. Together these make the new map `Placed(blocks, positions)`. |
| LayoutBlocks.NeighboursSpaced | services/layoutService.ts:196-231 | Consecutive slots are at least `SIBLING_GAP - 0.1` apart: exactly the gap inside a block, and at least the gap less the 0.1 tolerance between non-overlapping blocks. |
| Layout.LayoutRow | services/layoutService.ts:69-232 | The new position map is `RowPositions`: the row's clusters `ClustersOf`, ordered by `SortClusters`, flattened, merged by `Merged` and written by `Placed`. Exactly the row's persons are added to the map and nobody else changes. Any two distinct persons of the row are at least `SIBLING_GAP - 0.1` apart. |
| Layout.PlaceRows | services/layoutService.ts:66-233 | The position map is `LaidOut` of the levels: the rows laid out in ascending level order, each over the map the earlier rows left. The persons with a new position are exactly those whose level has a row. Persons of the same level are at least `SIBLING_GAP - 0.1` apart. |
| Layout.AllPlaced | services/layoutService.ts:56-69 | Every person has a row, so every person gets a new position. |
| Layout.FinalPoints | services/layoutService.ts:235-245 | There is one point per person. `x` is the new position, or else the person's current x. `y` is the level times `LEVEL_HEIGHT`, which is 0 for a person without a level. When several nodes share an id, the entry comes from the last of them. |
| Layout.CalculateLayout | services/layoutService.ts:10-246 | There is exactly one point per person. Its `y` is the person's level, as computed by the reference traversal `Levels`, times `LEVEL_HEIGHT`. Its `x` is the person's position in `LaidOut` of the levels that have persons, in strictly ascending order. Two distinct persons on the same horizontal line are at least `SIBLING_GAP - 0.1` apart. |
| Editing.DeleteNode | FamilyTreeApp.tsx:111-121 | Deleting the root changes nothing. Deleting anyone else removes exactly the persons with that id and exactly the relations touching it, keeping the rest as often as before (their order is stated by `DeleteNodeInOrder`). The selection is cleared if that person was selected and kept otherwise. |
| Editing.DeleteNodeKeepsConsistent | FamilyTreeApp.tsx:111-121 | If every relation joined present persons before, it still does afterwards. The deleted id is gone from persons and relations, and the root stays present. |
| Editing.DeleteNodeIdempotent | FamilyTreeApp.tsx:111-121 | Deleting the same person twice is the same as deleting it once. |
| Editing.DeleteEdge | FamilyTreeApp.tsx:123-125 | Exactly the relations with the given id are removed, and the rest are kept as often as before (their order is stated by `DeleteEdgeInOrder`). |
| Editing.DeleteEdgeInOrder | FamilyTreeApp.tsx:123-125 | The survivors keep their order: deleting from a concatenation deletes from each part, and a single relation stays exactly when its id differs. |
| Editing.DeleteNodeInOrder | FamilyTreeApp.tsx:111-121 | Deleting a person keeps the order of the surviving persons and relations: on a concatenated list it deletes from each part and concatenates the results. |
| Editing.FilterInOrder | FamilyTreeApp.tsx:118-119 | `filter` keeps order: filtering a concatenation concatenates the filtered parts, and a single element stays exactly when the test accepts it. |
| Editing.DeleteEdgeProperties | FamilyTreeApp.tsx:123-125 | Deleting a relation keeps every relation joining present persons, and deleting it twice is the same as deleting it once. |
| Editing.UpdateNode | FamilyTreeApp.tsx:127-129 | The list keeps its length. Persons with the given id are overwritten by the patch's fields, and every other person is unchanged. |
| Editing.UpdateNodeProperties | FamilyTreeApp.tsx:127-129 | A patch that keeps the id keeps the id list and every relation joining present persons. Applying it twice is the same as applying it once. |
| Editing.ConnectionDirection | FamilyTreeApp.tsx:367-381 | A lineage connection only arises from a bottom port to a top port. Its source is the person on the bottom port, whichever end the drag started from. Swapping the two ends gives the same lineage connection, or the reversed spouse connection, and a connection exists either way or neither. |
| Editing.SpouseExistsEitherWay | FamilyTreeApp.tsx:384-393 | For spouse relations the duplicate test is symmetric. |
| Editing.ExistingParents | FamilyTreeApp.tsx:409-416 | `q` is listed exactly when `q` is not the new parent and a lineage relation runs from `q` to the child. |
| Editing.LinkCoParents | FamilyTreeApp.tsx:418-439 | Only spouse relations from the new parent to listed parents are appended. Each was needed when it was appended, checked against the growing list. Afterwards the new parent is spouse-linked to every listed parent. The appended relations go, in order, to the listed parents the old list did not link to the new parent, each once, at its first occurrence. |
| Editing.LinkOrder | FamilyTreeApp.tsx:420-437 | A parent is linked in the growing list exactly when the old list or the pass so far links it, so the pass appends it exactly when it is new to both. |
| Editing.ConnectEdges | FamilyTreeApp.tsx:381-442 | The list is unchanged when an equal relation exists. Otherwise the new relation is appended once, ahead of any spouse relations. For a lineage connection, spouse relations from the new parent follow, each needed and each to another parent of the child, in the order of the child's other parents, each once, skipping those already linked. Afterwards the new parent is spouse-linked to every other parent of the child. A spouse connection adds just the one relation. |
| Editing.ConnectedJoins | FamilyTreeApp.tsx:384-401 | After a connection, a relation of the asked-for kind joins the pair. |
| Editing.HandlePortMouseUp | FamilyTreeApp.tsx:356-448 | Releasing while not connecting changes nothing. Otherwise the drag is always reset. Releasing on the starting port creates a person there. Releasing on another port of the same person does nothing else. Releasing on another person adds the connection its ports call for, or nothing when they call for none. |
| Editing.ConnectingEdgeRelates | FamilyTreeApp.tsx:142-174 | The created relation makes the new person a parent of the source for the top port and a child for the bottom port. For a side port it makes the new person a spouse. |
| Editing.LinkNewParent | FamilyTreeApp.tsx:185-221 | For a top-port creation, spouse relations are appended from the new parent to exactly those other parents not already linked in the list as it was before the creation, in order. |
| Editing.AutoCreateNode | FamilyTreeApp.tsx:131-226 | Nothing changes when the source is unknown. Otherwise a neutral "New Person" is appended one level or one gap away from the source, the connecting relation follows, and the new person is selected. For the top port, the new parent ends up spouse-linked to every other parent of the source. If every relation joined present persons before, it still does afterwards. |
| Editing.CreatedConsistent | FamilyTreeApp.tsx:176-221 | The relations created with a new person join present persons when the old ones did. |
| Editing.CreationLinksRepeatedParentTwice | FamilyTreeApp.tsx:191-220 | Creation checks spouse links against the list as it was before, not the growing one. So a parent recorded by two lineage relations to the child gets two spouse relations to the new parent. |
| AutoConnect.Session.constructor | repro_autoconnect.ts:4-6 | The session starts with the given relations. |
| AutoConnect.Session.OnConnect | repro_autoconnect.ts:9-68 | The list changes as a connection does in the editor. It is unchanged when an equal relation exists. Otherwise the relation with id "new-edge" is appended once, followed by the needed spouse relations for a lineage connection, in the order of the child's other parents, each once. Afterwards a relation of the asked-for kind joins the pair. |
| AutoConnect.MotherFatherScenario | repro_autoconnect.ts:70-83 | Starting from a father-child lineage relation, connecting the mother to the child leaves a spouse relation between mother and father. |

## Left out

- User interface, rendering, theming, persistence, import and export, zoom, pan and node dragging are not part of this model. They are view state and browser I/O.
- Ids from `Date.now()` and `Math.random()` are parameters. `newId` is the created person's or connection's id, and `autoId(k)` is the id of the `k`-th automatic spouse relation. The model does not claim these ids are fresh or distinct.
- Console output (`console.warn` on deleting the root, the `console.log` lines of `repro_autoconnect.ts`) is not modelled.
- JavaScript doubles are modelled as `real`, so rounding in the means and positions is not modelled.
- LayoutBlocks.SortClusters: the cluster comparator (lines 164-169) is not transitive, so the order `Array.prototype.sort` produces is engine-dependent. The model uses one specific stable insertion sort. It proves only that the clusters are kept, and that they come out ordered by desired centre when those centres are more than 1 apart. It does not prove that the result is sorted in general.
- The walks recorded by the breadth-first traversals are ghost state. They exist to state the labels' meaning, and only the labels are computed.
- `isConnecting` and `connStart` are merged into one optional drag start. The source sets and clears them together.
- The current-x fallback of the final positions is never taken, because every person has a row (`Layout.AllPlaced`). It is modelled as written.
- DeleteNode: its own contract states which persons and relations survive, and how often, but not their order; Editing.DeleteNodeInOrder states the order, because an order statement needs the list split into parts.
- DeleteEdge: as for DeleteNode, its own contract gives the survivors and their counts, and Editing.DeleteEdgeInOrder gives their order.
- PlainTerm: its precondition is a character test that literal terms meet without reasoning about prefixes, so it covers only terms of three or more characters. Every term without the "Great-" prefix is covered by KinshipLabels.TableTerm (keys of the table) and KinshipLabels.UnknownBaseKept (all other terms).
