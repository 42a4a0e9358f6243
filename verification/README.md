# Proofs about the 2D-to-3D mapping pipeline

This project models the algorithms and state machines of lift3d in Dafny and proves what they promise.
Code that computes is modelled by functions and lemmas; code that changes state is modelled by classes,
arrays and loops, each method proved against a function of its inputs and the old state, and the promised
properties are proved about those functions.  `dafny verify dfyconfig.toml` checks everything.

## What is modelled

**Flat clusters from a dendrogram** (`Dendrogram`, `CondensedTree`, `Condense`, `CondensedRows`,
`CondenseLoop`, `CondenseMethod`, `ClusterIndex`, `ClusterSelect`, `LabelUnionFind`, `HdbscanExtract`,
`StabilityLaws`, `Scaling`).
`CondensedTree` defines the condensed tree, stabilities and both selection rules recursively over
dendrogram nodes and proves optimality there; the other modules are the four array phases of the source
and show that they compute exactly that.  `StabilityLaws` says in the points, sizes and heights of the
linkage what a cluster, its stability and the selection are, and `Scaling` that the unit of the heights does
not matter.  A linkage is well formed when it has n-1 rows, children before
parents, every node but the root a child exactly once, true sizes, and positive heights that do not
decrease towards the root.

**Object consolidation** (`ObjectStore`, `ObjectSteps`, `UnionForest`, `Affinity`, `ObjectTally`,
`ObjectGather`, `ObjectFold`, `ObjectMerge`, `ObjectSmall`, `ObjectCache`, `ObjectRun`, `Objects`,
`FoldLaws`, `MergeLaws`).
`ObjectStore.Store` is the component layer as a value: roots, footprints, the exclusive and the overlapping
ownership index, the evidence graph keyed by ids that may since have merged, and two histories, every
deposit ever made and the number of proposals given a home.  Its invariant says that the ownership index
and the footprints agree, that between any two groups of whole components the graph holds exactly what was
deposited, and that the supports add up to the homes.  The class `Objects` is the source's class; every method keeps the invariant
and says exactly how the value changes.  Wherever the source iterates a hash map the model picks
in any order, so every statement holds for every order; `ResolveOrderFree` adds that the outcome of a
frame's merges does not depend on it.  `FoldLaws` and `MergeLaws` give containment, bars, deposits, votes,
affinity, gate and ranking in terms of voxel sets, counts and edges.

**Hull egress** (`Plane`, `ConvexHull`, `Outliers`, `RoomObjects`,
`OutlierLaws`, `HullLaws`).  The monotone chain runs on an array of
twice the number of distinct points, as in the source, over real coordinates; the two
law modules state scores, bounds, areas and means in those coordinates.

**Wire format** (`MsgPack`, `MsgPackLaws`, `MsgPackIO`, `Viz`, `VizMessages`, `WireLaws`,
`VizLaws`).  `MsgPack` holds the format as
functions on bytes, `MsgPackIO` the growing buffer and the moving cursor, `VizMessages` the three messages.
`WireLaws` says what single bytes mean, `VizLaws` what stands under each key of a message.

**Image and pose stream** (`PoseInterp`, `DogStream`, `DogReplay`, `DogComplete`).  A stream state carries the
history of what became of every image, so that conservation and completeness are statements about runs.

**Depth buffer** (`ZBuffer`, `PixelLaws`).  The CPU loops on a two-dimensional array, and the kernel as threads that
perform one atomic minimum at a time in any interleaving.  `PixelLaws` gives pixel, radius and visibility in
the coordinates of point and camera.

**World map** (`WorldMap`, `Universe`, `MapLaws`).  The voxel index, its parallel arrays, votes and labels, with the lists
of points folded into each index, and of colours voted for it, since its last birth as history.

**Sign gate** (`SignGate`, `SignAnnotate`).  The critical sections of both threads are methods; a run
interleaves them in any order.

**Seeding and growing** (`EuclideanSplit`, `Seeding`, `ClassPurity`, `Growing`, `NeighborPool`, `Growth`,
`GrowLoop`, `GrowLaws`, `AnnexLaws`).  A frame's proposals from labelled points, and the growing sweeps as a function of the proposals' state which
the loops compute.  `ClassPurity` joins the pooled scan to the flat clustering and says exactly when a
proposal mixes classes.

`Basics`, `Centroids`, `SetSum`, `Division`, `SortedInts` and `Voxels` hold what several parts share.

## Where the documentation and the code differ

The code is followed.  universe/objects.h:52-55 describes containment as shared voxels over the
proposal's voxels; the code divides by the smaller of the two footprints
(universe/object_consolidate.cpp:274-278).  The comment at universe/object_grow.cpp:212 says that an affinity
must strictly reach the threshold; the code accepts equality and prefers the later of equal candidates.
The claim guard at universe/object_seeds.cpp:267 never fires, since the owner index has just been cleared;
what keeps proposals disjoint is that no scan lists a point under two labels, which holds when the input
lists none twice.  The comment at universe/object_seeds.cpp:391-392 says that points of different classes
never join a cluster of the pooled scan; they do when a class with fewer points than a cluster needs falls
out of the tree at a cluster that is then selected (`PooledScanMixes`), and exactly when a selected cluster
spans two classes (`PureIffNoneOffends`).

## Model

| member | source | states |
|---|---|---|
| CondensedTree.SelectionOptimal | universe/hdbscan_extract.cpp:121-157 | Excess-of-mass selection is optimal: the selected clusters form an antichain of the condensed tree, and no antichain (none with the root when the root is forbidden) has a larger total stability |
| CondensedTree.NoneBetter | universe/hdbscan_extract.cpp:136-155 | No antichain at or below a cluster outweighs the value the bottom-up pass gives that cluster |
| CondensedTree.ChosenAttains | universe/hdbscan_extract.cpp:136-155 | The clusters chosen below a cluster are an antichain of exactly the bottom-up value |
| CondensedTree.SelectionAntichain | universe/hdbscan_extract.cpp:126-157 | In both modes the selection is an antichain of condensed clusters |
| CondensedTree.LeafSelectionCovers | universe/hdbscan_extract.cpp:127-134 | Every condensed cluster has a leaf cluster at or below it, so leaf mode leaves no branch without a selected cluster |
| CondensedTree.LeavesAntichain | universe/hdbscan_extract.cpp:131-132 | Clusters without child clusters lie on different branches |
| CondensedTree.TopsAreBig | universe/hdbscan_extract.cpp:93-98 | Every condensed cluster other than the root has at least min_cluster_size points |
| CondensedTree.StabilityNonNegative | universe/hdbscan_extract.cpp:117-119 | With heights not decreasing towards the root every stability is non-negative |
| StabilityLaws.StabilityByPoint | universe/hdbscan_extract.cpp:83-119 | A cluster's stability is the sum over its points of 1 over the height of the row at which the point leaves it, minus 1 over the height of the merge that bore the cluster (minus 0 for the root), heights as given |
| StabilityLaws.ExcessByPoint | universe/hdbscan_extract.cpp:83-119 | The same for the mass of any branch above any birth density |
| StabilityLaws.ClusterIff | universe/hdbscan_extract.cpp:80-106 | A node is a condensed cluster exactly when it is the root, or it and its sibling both have at least min_cluster_size points |
| StabilityLaws.LeafIff | universe/hdbscan_extract.cpp:127-134 | Leaf mode selects exactly the condensed clusters with no condensed cluster below them, the root only if allowed |
| StabilityLaws.SelectionHighest | universe/hdbscan_extract.cpp:136-155 | Of all heaviest antichains the selected one is highest: every cluster of a rival lies at or below a selected one, so ties go to the parent |
| StabilityLaws.SelectionIff | universe/hdbscan_extract.cpp:135-157 | A set is the selection exactly when it is an admissible antichain of largest total stability that every other such antichain lies below |
| StabilityLaws.WalkOrder | universe/hdbscan_extract.cpp:23-37 | In the walk a left child comes before its sibling, and the children of an earlier node before those of a later one |
| Scaling.StaysWellFormed | universe/hdbscan_extract.cpp:17-19 | Multiplying every height by a positive factor keeps a linkage well formed |
| Scaling.StabilityScales | universe/hdbscan_extract.cpp:117-119 | Stabilities are then divided by that factor |
| Scaling.SelectionStays | universe/hdbscan_extract.cpp:121-157 | The selection is then the same, in both modes |
| Scaling.ClusteringStays | universe/hdbscan_extract.cpp:55-177 | Labels are the flat clustering of a linkage exactly when they are that of the linkage with every height multiplied by one positive factor |
| Dendrogram.LeafCount | universe/hdbscan_extract.cpp:17-19 | The recorded size of a row is the number of points below it |
| Condense.BfsHierarchy | universe/hdbscan_extract.cpp:23-37 | The walk lists every node below its start exactly once, each after its parent, level by level from left to right |
| Condense.LevelOrderWalks | universe/hdbscan_extract.cpp:23-37 | That order is the root and then the children of what it lists, in order |
| Condense.OneListing | universe/hdbscan_extract.cpp:159-163 | The order of the walk leaves only one way to list a set of clusters |
| CondensedRows.FallOut | universe/hdbscan_extract.cpp:86-91 | Exactly the nodes below the shed node become ignored, and each point below it gets exactly one row |
| CondenseMethod.CondenseNode | universe/hdbscan_extract.cpp:80-106 | One node not shed earlier: its cluster splits in two, dissolves, or goes on in the big child while the small side is shed, with the invariants of the walk kept |
| CondenseMethod.CondenseTree | universe/hdbscan_extract.cpp:67-107 | The rows number the condensed clusters in the order of the walk, list every point and every cluster but the root exactly once, each under the cluster that sheds or bears it, and credit every cluster its true excess of mass |
| ClusterIndex.ChosenIff | universe/hdbscan_extract.cpp:136-155 | A cluster is chosen by the recursive rule exactly when it keeps itself and no cluster above it, within the pass, keeps itself |
| ClusterSelect.Births | universe/hdbscan_extract.cpp:113-116 | Every cluster is born at the density of the merge that split it off, the root at density zero |
| ClusterSelect.ClusterStabilities | universe/hdbscan_extract.cpp:117-119 | The accumulated sums equal the recursive excess of mass of every cluster |
| ClusterSelect.ChildClusters | universe/hdbscan_extract.cpp:122-124 | The child lists hold the two children of every split cluster and nothing else |
| ClusterSelect.SelectLeaves | universe/hdbscan_extract.cpp:127-134 | The flags mark exactly the childless clusters, the root only if allowed |
| ClusterSelect.DropDescendants | universe/hdbscan_extract.cpp:146-154 | Exactly the proper descendants of the cluster are deselected, and the queue loop ends |
| ClusterSelect.SelectEom | universe/hdbscan_extract.cpp:135-157 | The in-place descending pass marks exactly the clusters of the recursive optimum |
| LabelUnionFind.UF.Find | universe/hdbscan_extract.cpp:44 | Path halving returns the representative and moves no element to another set |
| LabelUnionFind.UF.Unite | universe/hdbscan_extract.cpp:45-50 | The two sets become one, represented by the smaller of the two representatives; all others are unchanged |
| LabelUnionFind.HalvingKeepsReps | universe/hdbscan_extract.cpp:44 | Pointing an element at its grandparent changes no representative |
| HdbscanExtract.Compact | universe/hdbscan_extract.cpp:159-163 | Selected clusters get the numbers 0..K-1, each exactly once, ascending with the cluster id and so in the order of the walk; the others -1 |
| HdbscanExtract.Collapse | universe/hdbscan_extract.cpp:168-170 | After uniting every unselected cluster with its parent, each cluster resolves to its nearest selected ancestor, or to the root |
| HdbscanExtract.HomeNearest | universe/hdbscan_extract.cpp:166-170 | The resolved cluster is selected or the root, and no selected cluster lies strictly between |
| HdbscanExtract.LabelPoints | universe/hdbscan_extract.cpp:171-175 | Every point gets the number of the one selected cluster it lies below, or -1 below none |
| HdbscanExtract.ExtractFlatClusters | universe/hdbscan_extract.cpp:55-177 | For every well-formed linkage with positive heights the labels describe exactly the clusters the recursive specification selects, numbered in the order of the walk; without points or rows everything is noise |
| HdbscanExtract.LabelsDetermined | universe/hdbscan_extract.cpp:55-177 | The labels are a function of the linkage: no two labellings meet that contract |
| HdbscanExtract.LabelClasses | universe/hdbscan_extract.cpp:159-176 | Each label class is exactly the leaf set of one dendrogram node, every label is used, and a class has at least min_cluster_size points whenever the input does |
| UnionForest.Compressed | universe/object_consolidate.cpp:38 | Pointing an id straight at its root keeps the forest and every root |
| UnionForest.Linked | universe/object_consolidate.cpp:55 | Hanging one root below another redirects exactly the ids of the drained component |
| Objects.Objects.Find | universe/object_consolidate.cpp:35-40 | Both loops end, the root is returned, and compression changes no root |
| Objects.Objects.Unite | universe/object_consolidate.cpp:44-57 | The component with fewer voxels is drained into the other: voxels (the survivor keeps its representative), votes, ids and support move, the drained component is empty, nothing else changes |
| MergeLaws.SmallerIsDrained | universe/object_consolidate.cpp:44-57 | The drained component never has more voxels than the survivor, whose points stay; among equals the first survives; ids and support add up |
| Objects.Objects.NewComp | universe/object_consolidate.cpp:77-82 | An empty component with a new id that is its own root is appended |
| ObjectStore.EvidenceConserved | universe/object_consolidate.cpp:367-373 | For two roots the similarity and confidence totals over edges resolving to that pair equal the totals of all deposits ever made between ids now in the two components |
| ObjectStore.EvidenceAfterCoarsening | universe/object_consolidate.cpp:454-457 | Merging components keeps every evidence total between groups of whole components |
| ObjectStore.EvidenceAfterCompaction | universe/object_consolidate.cpp:459-471 | Recompacting the edge store keeps every evidence total |
| ObjectStore.CollapsedValue | universe/object_consolidate.cpp:393-402 | The snapshot entry of a root pair is the total over all stale-keyed edges resolving to the pair |
| ObjectStore.InvMerged | universe/object_consolidate.cpp:44-57 | A merge keeps the whole invariant: ownership index, footprints, evidence and support |
| ObjectStore.InvGrown | universe/object_consolidate.cpp:77-82 | A new component keeps the invariant |
| ObjectStore.SupportIsHomed | universe/object_consolidate.cpp:301-301 | The support summed over the roots is the number of proposals ever given a home |
| ObjectSteps.InvClaimedOne | universe/object_consolidate.cpp:255-267 | Claiming one voxel keeps ownership index and footprints in agreement, in both ownership modes |
| ObjectSteps.InvJoined | universe/object_consolidate.cpp:298-301 | Votes, ids and one unit of support keep the invariant |
| ObjectSteps.InvDeposited | universe/object_consolidate.cpp:367-371 | A deposit keeps the invariant, in particular 0 <= sim_conf <= conf |
| ObjectSteps.InvCompacted | universe/object_consolidate.cpp:459-471 | Compaction keeps the invariant |
| ObjectSteps.InvWorldGrown | universe/universe.cpp:112-125 | A map that only appends points keeps the component layer's invariant |
| ObjectSteps.InvResized | universe/object_consolidate.cpp:207-208 | Extending the owner index with unowned points keeps the invariant |
| ObjectSteps.ContainmentAtMostOne | universe/object_consolidate.cpp:274-278 | With a true count of shared voxels the containment lies in [0, 1] |
| FoldLaws.ContainmentIs | universe/object_consolidate.cpp:275-278 | Containment times the proposal's voxels and containment times the component's are both at least the shared count, and one of them is the shared count |
| FoldLaws.WholeIff | universe/object_consolidate.cpp:269-278 | Containment is 1 exactly when the proposal lies wholly in the component or the component wholly in the proposal |
| FoldLaws.LevelBar | universe/objects.h:89-94 | The bar is 0.3 without a list, its level-th entry, and beyond either end the first or last |
| FoldLaws.ClearsIff | universe/object_consolidate.cpp:277-279 | A component clears its bar exactly when it shares at least the bar's part of the proposal's voxels or at least that part of its own |
| FoldLaws.WholeIsTarget | universe/object_consolidate.cpp:269-283 | Under bars of at most 1 a component the guard lets through that contains the proposal, or lies in it, is a target |
| FoldLaws.WholeOpensNone | universe/object_consolidate.cpp:285-314 | Then no new component is opened for the proposal, on either route |
| FoldLaws.VisibleShare | universe/object_consolidate.cpp:70-75 | The visible ratio times the footprint is the number of its voxels in view; 1 without a view or a footprint |
| FoldLaws.ConfidenceIs | universe/object_consolidate.cpp:357-365 | A component not met before in the frame has confidence the product of the two visible ratios |
| FoldLaws.DepositIs | universe/object_consolidate.cpp:329-371 | A deposit joins the representative and the component and adds similarity times containment times confidence to sim_conf and the confidence to conf |
| FoldLaws.FirstPointIs | universe/object_consolidate.cpp:197-204 | A voxel is represented by the first listed in-range point that lies in it |
| FoldLaws.HomeGains | universe/object_consolidate.cpp:375-382 | The home gains the proposal's non-negative instance ids (in overlap mode or with global context), one vote per voxel for its class and one unit of support; every other component stays |
| FoldLaws.VotesAdded | universe/object_consolidate.cpp:298-380 | Over a frame a class gains as many votes as the proposals of that class that found a home have voxels |
| ObjectSteps.PureMerged | universe/object_consolidate.cpp:44-57 | Draining a component into one of the same class keeps every component and every edge within one class |
| ObjectSteps.PureJoined | universe/object_consolidate.cpp:298-301 | A vote for the component's own class keeps class purity |
| ObjectSteps.LinkedRootsSameClass | universe/object_consolidate.cpp:392-457 | Roots linked by an edge of a pure store have one class |
| Affinity.CauchySchwarz | universe/voxel_util.h:46-56 | The squared dot product never exceeds the product of the squared norms |
| Affinity.Cosine | universe/voxel_util.h:46-56 | 0 for empty, unequal or null vectors, otherwise the dot product over the norms; in [0, 1] for non-negative vectors |
| MergeLaws.DotChange | universe/voxel_util.h:49-51 | Changing one coordinate changes the dot product by the change times the other vector's coordinate |
| MergeLaws.SelfCosine | universe/voxel_util.h:46-56 | A vector other than zero has similarity 1 with itself |
| MergeLaws.DisjointCosine | universe/voxel_util.h:46-56 | Vectors that share no non-zero coordinate have similarity 0 |
| ObjectTally.DedupVoxels | universe/object_consolidate.cpp:197-204 | For every voxel the proposal occupies the first in-range index it lists there, and no other voxel |
| ObjectTally.Majority | universe/object_consolidate.cpp:213-214 | A class with the most votes, or -1 without votes |
| ObjectTally.OwnerIsOnlyHolder | universe/object_consolidate.cpp:226-233 | In exclusive mode a component holds a voxel exactly when it is the root of the owner of the voxel's one map point |
| ObjectTally.HolderIff | universe/object_consolidate.cpp:235-247 | In overlap mode a root holds a voxel exactly when a listed id resolves to it |
| ObjectTally.CountVoxel | universe/object_consolidate.cpp:231-246 | Each holder the class guard lets through gains one shared voxel, the guard being asked consistently |
| ObjectTally.Drain | universe/object_consolidate.cpp:48-54 | The drained component's contents added to the survivor's |
| Objects.Objects.Holders | universe/object_consolidate.cpp:228-245 | The roots found through the index are exactly the roots whose footprint holds the voxel, each once |
| Objects.Objects.Tally | universe/object_consolidate.cpp:218-248 | The tally is, for every root the class guard lets through, the true number of voxels shared with the proposal, in both modes; the contributed voxels are the unowned ones, or all of them |
| ObjectFold.Targets | universe/object_consolidate.cpp:269-283 | Targets are exactly the tallied roots whose containment reaches their level bar; the primary has the highest containment among them |
| Objects.Objects.ClaimVoxel | universe/object_consolidate.cpp:257-266 | One voxel is added to the footprint and the matching index; in exclusive mode it was held by no component |
| Objects.Objects.ClaimVoxels | universe/object_consolidate.cpp:255-267 | All contributed voxels join the footprint, present representatives stay, and no owned point changes hands |
| Objects.Objects.JoinTargets | universe/object_consolidate.cpp:288-291 | Exactly the target components become one component; every other component is untouched |
| Objects.Objects.OpenHome | universe/object_consolidate.cpp:285-314 | Without global context all cleared components become one; with it the best cleared one is taken as it is; else a new component for new voxels; else none |
| ObjectFold.MostShared | universe/object_consolidate.cpp:318-319 | The node without a home is a component sharing most voxels, or none |
| ObjectFold.VisibleRatio | universe/object_consolidate.cpp:70-75 | The share of a footprint inside the view, 1 without a view or a footprint |
| ObjectFold.Similar | universe/object_consolidate.cpp:335-343 | 1 when the term is off or the histogram does not fit, otherwise the cosine; always in [0, 1] |
| ObjectFold.DepositValue | universe/object_consolidate.cpp:330-371 | The confidence is the product of the two visible ratios, cached per component within the frame, and the deposit is similarity times containment times confidence with 0 <= sim_conf <= conf |
| Objects.Objects.AddEvidence | universe/object_consolidate.cpp:367-371 | The deposit is added to the edge between the two ids, and only there |
| Objects.Objects.MakeDeposits | universe/object_consolidate.cpp:329-372 | Exactly one deposit for every other tallied component with positive confidence, recorded as touched, and nothing else changes |
| Objects.Objects.JoinHome | universe/object_consolidate.cpp:375-383 | The home takes the voxels, one vote per proposal voxel, the ids and one unit of support |
| Objects.Objects.Settle | universe/object_consolidate.cpp:285-383 | Home, deposits and join in the source's order on either route, keeping the invariant |
| ObjectFold.GuardMeansClass | universe/object_consolidate.cpp:211-216 | In a pure store the guard lets a component through only for its own class |
| ObjectFold.MadePure | universe/object_consolidate.cpp:329-372 | Deposits among components the guard let through keep every edge within one class |
| Objects.Objects.FoldIn | universe/object_consolidate.cpp:196-384 | Folding in one proposal has exactly the effect described step by step, keeps the invariant, and under require_class with a classed proposal keeps class purity |
| ObjectRun.FoldedKeeps | universe/object_consolidate.cpp:196-384 | A fold-in keeps shared roots shared, loses no deposit, steals no owned point, and counts one home exactly when one was found (always, in overlap mode) |
| Objects.Objects.FoldAll | universe/object_consolidate.cpp:196-384 | The proposals of a frame folded in one after the other, with the run recorded |
| ObjectMerge.CollapsedMore | universe/object_consolidate.cpp:395-402 | Collapsing one more edge keeps the snapshot correct |
| ObjectMerge.CollapsedUnique | universe/object_consolidate.cpp:393-402 | The snapshot does not depend on the order of the edges |
| Objects.Objects.Collapse | universe/object_consolidate.cpp:394-402 | The snapshot restates the edge store between current roots, internal edges dropped |
| ObjectMerge.NeighbourLists | universe/object_consolidate.cpp:406-412 | Every component's neighbours, each listed once |
| ObjectMerge.RegionOf | universe/object_consolidate.cpp:421-432 | The voxel-weighted, decayed mean affinity over the neighbourhood, whatever the order of the list |
| ObjectMerge.RegionBounded | universe/object_consolidate.cpp:419-432 | The neighbourhood score lies in [0, 1] |
| MergeLaws.AffinityIs | universe/object_consolidate.cpp:413-418 | Affinity times the evidence of an edge is its similarity total; 0 without an edge or evidence, whichever end comes first |
| MergeLaws.RegionIs | universe/object_consolidate.cpp:421-432 | The score times the total weight is the total of weight times affinity, where a component weighs its voxels (at least 1) and each of its neighbours but the other end its own times the decay |
| MergeLaws.LoneRegion | universe/object_consolidate.cpp:421-432 | Without further neighbours the score is the affinity itself |
| ObjectMerge.GateOf | universe/object_consolidate.cpp:443-450 | True exactly when evidence, direct affinity and both neighbourhood scores pass |
| ObjectMerge.GateSymmetric | universe/object_consolidate.cpp:443-450 | The gate does not depend on which end of the pair comes first |
| MergeLaws.GateIff | universe/object_consolidate.cpp:443-450 | Evidence at least min_evidence, and affinity and both scores at least the bar for the lower of the two supports |
| Objects.Objects.GatedPairs | universe/object_consolidate.cpp:434-452 | The merges are exactly the current root pairs of touched edges that pass the gate against the snapshot |
| ObjectMerge.ChosenSame | universe/object_consolidate.cpp:434-452 | The same pairs are merged whatever the order of the touched edges |
| Objects.Objects.ApplyMerges | universe/object_consolidate.cpp:454-457 | Ids end up together exactly as the old grouping and the pairs force, nothing more; contents are gathered accordingly |
| ObjectMerge.LeastMergeUnique | universe/object_consolidate.cpp:454-457 | Applying the same merges in any order groups the ids alike |
| Objects.Objects.ResolveMerges | universe/object_consolidate.cpp:392-473 | Snapshot, gate, merge and recompaction, with the store unchanged unless something merged |
| ObjectRun.ResolveOrderFree | universe/object_consolidate.cpp:392-473 | The grouping after a frame does not depend on the hash order of touched edges, snapshot or merges |
| ObjectRun.ResolvedKeeps | universe/object_consolidate.cpp:392-473 | Merging keeps shared roots shared, and reports a merge exactly when the grouping changed |
| ObjectMerge.PureAlong | universe/object_consolidate.cpp:454-457 | Components merged only along edges of a pure store leave it pure |
| ObjectGather.GatheredTotals | universe/object_consolidate.cpp:44-57 | After any merges a component's support and votes are the sums over the components drained into it |
| ObjectSmall.BestNeighbours | universe/object_consolidate.cpp:494-501 | For every component with an edge a neighbour of highest affinity, for every iteration order |
| MergeLaws.BestLinkRanks | universe/object_consolidate.cpp:494-501 | Both ends of every edge have a best neighbour at least as close as that edge |
| ObjectSmall.IsolatedWithoutLink | universe/object_consolidate.cpp:505-506 | A root without a best neighbour has no edge to any other root |
| ObjectSmall.AbsorbedMore | universe/object_consolidate.cpp:507-510 | An absorption follows an edge of the sweep's snapshot and strictly lowers the number of roots |
| ObjectSmall.FootprintKept | universe/object_consolidate.cpp:509-509 | Draining components into one another keeps the union of all footprints |
| Objects.Objects.AbsorbOne | universe/object_consolidate.cpp:507-510 | A small root is drained together with its neighbour's current component, unless they are one already |
| Objects.Objects.SmallSweep | universe/object_consolidate.cpp:484-511 | A sweep with progress lowers the number of roots; one without leaves no small root with an edge |
| Objects.Objects.MergeSmallComps | universe/object_consolidate.cpp:477-514 | The loop ends, and then no root below small_seg_min has an edge to another root; support and votes are gathered, only along edges, and class purity is kept |
| ObjectCache.Winners | universe/object_consolidate.cpp:94-110 | Every voxel of a promoted component is won by its strongest holder |
| ObjectCache.ExactlyOneWinner | universe/object_consolidate.cpp:91-110 | Exactly one root wins a voxel: the maximum under support, footprint size, lower id |
| MergeLaws.WinnerRanks | universe/object_consolidate.cpp:96-102 | No contender has more support, none of equal support more voxels, none equal in both a lower id |
| ObjectCache.LivePoints | universe/object_consolidate.cpp:124-133 | The live, in-range representatives of the voxels the component shows, each once |
| ObjectCache.BuildCache | universe/object_consolidate.cpp:86-174 | One object for every promoted component with a point to show, by rising id, with majority class and its kind, support, exactly its points, and their centroid |
| MergeLaws.PublishedIff | universe/object_consolidate.cpp:86-174 | A component is published exactly when it is a root with support at least min_merges and some voxel of it shows a live point, which in overlap mode no stronger such component holds |
| MergeLaws.PublishedIs | universe/object_consolidate.cpp:111-139 | A published object has its component's support, a class no other class outvotes and that class's kind (-1 and thing without votes), and exactly the points its component shows |
| ObjectCache.DisjointObjects | universe/object_consolidate.cpp:86-174 | No point index appears in two published objects, in either ownership mode |
| Objects.Objects.RebuildCache | universe/object_consolidate.cpp:86-174 | The published list is the one the component layer determines |
| Objects.Objects.FinishFrame | universe/object_consolidate.cpp:386-387 | Merges only for touched edges, and a new version with a rebuilt list exactly when something changed |
| Objects.Objects.Consolidate | universe/object_consolidate.cpp:178-388 | A whole frame: invariant and conservation kept, every counted proposal homed in overlap mode, class purity kept under require_class, and nothing at all without a map or proposals |
| Plane.Sweep | gmd_adaptor/object_publisher.cpp:55-58 | Turning left twice within a half-plane is turning left overall |
| Plane.CornerApart | gmd_adaptor/object_publisher.cpp:82-87 | An inner corner of the lower chain cannot lie on the upper chain |
| ConvexHull.SortUnique | gmd_adaptor/object_publisher.cpp:62-70 | Lexicographic order, each input point once |
| ConvexHull.NewEdgeSees | gmd_adaptor/object_publisher.cpp:79-80 | After popping, the new edge has every earlier point on it or to its left |
| ConvexHull.ChainExtended | gmd_adaptor/object_publisher.cpp:79-80 | Popping and pushing one point keeps the hull chain of the points seen so far |
| ConvexHull.Push | gmd_adaptor/object_publisher.cpp:79-80 | The in-place pop loop and push keep the chain and everything below its base |
| ConvexHull.LowerHull | gmd_adaptor/object_publisher.cpp:77-81 | The lower chain of all points, written inside the buffer |
| ConvexHull.UpperHull | gmd_adaptor/object_publisher.cpp:82-87 | The upper chain on top of it, written inside the buffer, the lower chain intact |
| ConvexHull.ClosedTurn | gmd_adaptor/object_publisher.cpp:82-90 | The two chains joined turn strictly left at every cyclic triple, unless the points are collinear |
| ConvexHull.ClosedIsHull | gmd_adaptor/object_publisher.cpp:82-90 | They enclose every point, and are the two extremes of collinear input |
| ConvexHull.ConvexHull2D | gmd_adaptor/object_publisher.cpp:61-91 | For every point list: input points only, every point on or left of every edge, strictly convex unless collinear, and then exactly the extremes; the leftmost point comes first, the lowest of several |
| HullLaws.NoneOutside | gmd_adaptor/object_publisher.cpp:55-87 | In coordinates: the signed area of an edge and any input point is not negative |
| HullLaws.CornersTurnLeft | gmd_adaptor/object_publisher.cpp:55-87 | In coordinates: the signed area of three consecutive corners is positive |
| HullLaws.CollinearIff | gmd_adaptor/object_publisher.cpp:55-58 | Points are collinear exactly when the signed area of any three is zero |
| Outliers.SelfIsNearest | gmd_adaptor/object_publisher.cpp:30-33 | The distance left out of the mean is the point's distance to itself |
| Outliers.KnnScores | gmd_adaptor/object_publisher.cpp:21-35 | Every point's mean distance to its k nearest neighbours |
| Outliers.StatisticalOutlierRemoval | gmd_adaptor/object_publisher.cpp:16-51 | The points whose score stays within mean plus alpha deviations, in order; the input itself when it is too small |
| Outliers.KeepsSome | gmd_adaptor/object_publisher.cpp:37-50 | With a non-negative alpha a non-empty input is never emptied |
| Outliers.KeepsInputs | gmd_adaptor/object_publisher.cpp:37-50 | Only input points survive |
| OutlierLaws.DistanceIff | gmd_adaptor/object_publisher.cpp:26-28 | The distance is the non-negative number whose square is the sum of the squared coordinate differences |
| OutlierLaws.SmallestSum | gmd_adaptor/object_publisher.cpp:31-33 | The first k of a sorted list have the least total of any k entries |
| OutlierLaws.ScoreIsLeast | gmd_adaptor/object_publisher.cpp:24-35 | A point's score times k is at most the total distance to any k other points, distances in coordinates |
| OutlierLaws.ScoreAttained | gmd_adaptor/object_publisher.cpp:24-35 | Some k other points have exactly that total |
| OutlierLaws.KeptIs | gmd_adaptor/object_publisher.cpp:37-50 | Kept, in order, are exactly the points whose score is at most the mean of the scores plus alpha times the non-negative deviation whose square times n is the sum of squared differences |
| OutlierLaws.FewAreKept | gmd_adaptor/object_publisher.cpp:19 | With k below 1 or at most k+1 points the input is returned |
| RoomObjects.Centroid2D | gmd_adaptor/object_publisher.cpp:93-98 | The mean of the points, the origin for none |
| HullLaws.CentroidMoves | gmd_adaptor/object_publisher.cpp:93-98 | Moving one of n points moves the centroid by an n-th of the way, in each coordinate |
| HullLaws.CentroidOfOne | gmd_adaptor/object_publisher.cpp:93-98 | A single point is its own centroid |
| RoomObjects.CentroidInside | gmd_adaptor/object_publisher.cpp:93-98 | The centroid of a non-empty point set lies in its hull, in the degenerate cases too |
| RoomObjects.BuildRoomObject | gmd_adaptor/object_publisher.cpp:115-129 | The polygon is the hull and the centroid the mean of the surviving points, the centroid lies in the polygon, and every corner is the projection of an input point |
| RoomObjects.SameKeyIff | gmd_adaptor/object_publisher.cpp:132-136 | Two ids share a packed key exactly when the low 48 bits of their ticks agree and vehicle and high bits combine alike |
| RoomObjects.OneVehicleInjective | gmd_adaptor/object_publisher.cpp:132-136 | No two ids of one vehicle share a key |
| RoomObjects.PackableInjective | gmd_adaptor/object_publisher.cpp:100-105 | No two ids made from object numbers share a key, whatever their vehicles |
| RoomObjects.KeyIffSame | gmd_adaptor/object_publisher.cpp:132-136 | Ids whose tick count fits 48 bits with its sign share a key exactly when they are the same |
| RoomObjects.KeysCollide | gmd_adaptor/object_publisher.cpp:132-136 | An instance of two ids sharing a key: vehicle 1 at tick 0 and vehicle 0 at tick 2 to the 48 |
| RoomObjects.CollisionLosesOne | gmd_adaptor/object_publisher.cpp:160-172 | Of any two objects with one key and one fingerprint under different ids the second is not reported, and the two consumers differ |
| RoomObjects.FaithfulIffSeparates | gmd_adaptor/object_publisher.cpp:160-172 | For objects with ids from a set, the changes always give the same objects up to fingerprint exactly when no two of them with one key under different ids share a fingerprint |
| RoomObjects.SeparatesIffInjective | gmd_adaptor/object_publisher.cpp:145-157 | For a fingerprint that does not look at the id, as the one of the source, exactly when no two ids of the set share a key |
| RoomObjects.FaithfulIffInjective | gmd_adaptor/object_publisher.cpp:160-172 | Whatever the fingerprint, exactly for sets of ids no two of which share a key |
| RoomObjects.ObjectDelta.ChangedSince | gmd_adaptor/object_publisher.cpp:160-172 | Reported are the objects that are new or differ from the last fingerprint under their id; the memory becomes that of all objects |
| RoomObjects.DeltaSuffices | gmd_adaptor/object_publisher.cpp:160-172 | From any agreeing start, a consumer fed only the changes holds the same ids and objects of the same fingerprint as one fed every object, and the memory fits both, whenever no two objects with one key under different ids share a fingerprint |
| RoomObjects.DeltaExactIff | gmd_adaptor/object_publisher.cpp:160-172 | For ids no two of which share a key, after every object both hold the very same objects exactly when no object replaces a different one with its id and fingerprint |
| RoomObjects.FramesReport | gmd_adaptor/object_publisher.cpp:160-172 | Reporting frame by frame reports what one long frame would |
| RoomObjects.QuietIffUpToDate | gmd_adaptor/object_publisher.cpp:160-172 | Nothing is reported exactly when every object agrees with the memory |
| RoomObjects.RepeatIsSilent | gmd_adaptor/object_publisher.cpp:160-172 | A frame with one fingerprint per id sent twice is silent the second time |
| MsgPackLaws.RoundTrip | inf_client/msgpack_lite.h:20-183 | Wherever the encoding of an item with fitting lengths stands, the reader returns its value and stops right behind it |
| MsgPackLaws.RoundTripIff | inf_client/msgpack_lite.h:29-43 | Writing and reading back, whatever follows, is exact if and only if every length fits the 32-bit length fields |
| MsgPackLaws.ReadFits | inf_client/msgpack_lite.h:135-182 | Every value the reader returns has lengths that fit |
| MsgPackLaws.ReadAgrees | inf_client/msgpack_lite.h:111-183 | What is read depends on the consumed bytes only |
| MsgPackLaws.TruncationRejected | inf_client/msgpack_lite.h:120-134 | A message cut short anywhere is rejected |
| MsgPackLaws.PrefixFree | inf_client/msgpack_lite.h:20-79 | No message is a proper beginning of another one |
| MsgPackLaws.UIntHead | inf_client/msgpack_lite.h:45-51 | Each of the five widths of an unsigned integer reads back as the same number |
| MsgPackLaws.IntHead | inf_client/msgpack_lite.h:56-60 | Fixed and 64-bit negative integers read back as themselves, non-negative ones as unsigned |
| WireLaws.ReadsByte | inf_client/msgpack_lite.h:135-169 | What every first byte means: the one-byte integers, nil and booleans, and which bytes are rejected |
| WireLaws.ReadsUnsigned | inf_client/msgpack_lite.h:154-157 | The value of each unsigned width in terms of its bytes, highest first |
| WireLaws.ReadsSigned | inf_client/msgpack_lite.h:158-161 | The value of each signed width, two's complement |
| WireLaws.ReadsLength | inf_client/msgpack_lite.h:140-168 | The length each string, byte-string, array and map header declares |
| WireLaws.ShortestHead | inf_client/msgpack_lite.h:29-78 | No header the reader takes for the same string, byte string, array, map or unsigned number is shorter than the written one |
| WireLaws.NegativeSize | inf_client/msgpack_lite.h:56-60 | A negative integer takes one byte down to -32 and nine below |
| WireLaws.Example | inf_client/msgpack_lite.h:20-79 | The format's own example, a map of compact and schema, is written as its eighteen bytes |
| MsgPack.ReadBack | inf_client/msgpack_lite.h:121-125 | The reader's shifting loop undoes the big-endian writer |
| MsgPackIO.Packer.ContainerHeader | inf_client/msgpack_lite.h:74-78 | Appends the header of the container family and nothing else |
| MsgPackIO.Packer.PutStr | inf_client/msgpack_lite.h:29-36 | Appends the encoding of a string |
| MsgPackIO.Packer.PutBin | inf_client/msgpack_lite.h:38-43 | Appends the encoding of a byte string |
| MsgPackIO.Packer.PutUInt | inf_client/msgpack_lite.h:45-51 | Appends the shortest encoding of an unsigned integer |
| MsgPackIO.Packer.PutInt | inf_client/msgpack_lite.h:56-60 | Appends the encoding of a signed integer |
| MsgPackIO.Packer.PutF64 | inf_client/msgpack_lite.h:63-66 | Appends the encoding of a double |
| MsgPackIO.Packer.Be | inf_client/msgpack_lite.h:70-73 | Appends the low bytes, highest first |
| MsgPackIO.Reader.ReadByte | inf_client/msgpack_lite.h:120 | One byte, or the truncation error at the end |
| MsgPackIO.Reader.Be | inf_client/msgpack_lite.h:121-125 | The big-endian number of the next bytes, or the truncation error |
| MsgPackIO.Reader.ReadHead | inf_client/msgpack_lite.h:135-170 | The tag dispatch: every first byte leads to its scalar, length or error |
| MsgPackIO.Reader.ReadValue | inf_client/msgpack_lite.h:135-171 | The cursor-moving parser returns what the parsing function says, error cases included, and ends on every byte string |
| MsgPackIO.Reader.ReadArr | inf_client/msgpack_lite.h:172-176 | Exactly the declared number of values, in order, or the first error |
| MsgPackIO.Reader.ReadMap | inf_client/msgpack_lite.h:177-182 | Exactly the declared number of pairs, in order, or the first error |
| Viz.PackNdarray | universe/viz_publisher.cpp:23-32 | The array envelope is one complete map of four entries |
| VizLaws.NdarraySays | universe/viz_publisher.cpp:23-32 | The envelope's four entries: marker, shape, type and bytes |
| VizMessages.GatherXYZ | universe/viz_publisher.cpp:36-47 | Coordinates of exactly the live, in-range points, in list order |
| VizMessages.PackEntity | universe/viz_publisher.cpp:121-133 | An entity is one complete map for every combination of kind and text |
| VizLaws.EntitySays | universe/viz_publisher.cpp:121-133 | What each entry of an entity holds, kind and text only when given |
| VizMessages.SendBegin | universe/viz_publisher.cpp:81-104 | An active publisher's begin buffer is one complete map; an inactive one sends nothing |
| VizMessages.SendFrame | universe/viz_publisher.cpp:106-205 | A frame buffer is one complete map for every combination of optional parts |
| VizLaws.HeadSays | universe/viz_publisher.cpp:138-149 | Type, index, capture time, poses and camera of a frame |
| VizLaws.CameraSays | universe/viz_publisher.cpp:149-154 | Intrinsics, pose and size of the camera |
| VizLaws.SegSays | universe/viz_publisher.cpp:163-175 | The label map, and the id map when its size fits |
| VizLaws.PartsSay | universe/viz_publisher.cpp:156-202 | Image, masks, objects, proposals and superpoints each stand under their own key |
| VizLaws.TextSays | universe/viz_publisher.cpp:181-185 | An object has a text exactly when a non-empty one is known for its id |
| VizLaws.BeginSays | universe/viz_publisher.cpp:85-102 | What each entry of the begin message holds |
| VizLaws.ClassSays | universe/viz_publisher.cpp:89-93 | Id, name and kind of a class |
| VizMessages.SendFinish | universe/viz_publisher.cpp:207-237 | The finish buffer is one complete map with three arrays of the live count |
| VizLaws.PositionAt | universe/viz_publisher.cpp:220-223 | The j-th twelve bytes of positions are those of the j-th live point |
| VizLaws.ClassAt | universe/viz_publisher.cpp:224 | The j-th two bytes of class ids are its class, cut to 16 bits |
| VizLaws.KindAt | universe/viz_publisher.cpp:225 | The j-th byte of kinds is its kind |
| VizLaws.FinishSays | universe/viz_publisher.cpp:228-235 | What each entry of the finish message holds |
| VizMessages.FieldCounts | universe/viz_publisher.cpp:136-137 | The declared count is the number of entries for every combination of optional parts |
| VizMessages.FrameIsOneValue | universe/viz_publisher.cpp:135-204 | A frame buffer reads back as exactly one value consuming every byte if and only if its lengths fit |
| VizMessages.WholeBuffer | universe/viz_publisher.cpp:84-103 | The same for any buffer that is the encoding of one item, begin and finish included |
| PoseInterp.PoseInterpolator.Push | dog_log_adaptor/pose_interp.cpp:14-21 | A pose not newer than the newest is ignored, otherwise the oldest make room; the ring stays strictly rising and bounded |
| PoseInterp.PoseInterpolator.Query | dog_log_adaptor/pose_interp.cpp:23-61 | The status and the bracketing pair with its weight |
| PoseInterp.SampledBrackets | dog_log_adaptor/pose_interp.cpp:25-44 | A query has an answer exactly between the oldest and the newest pose, and the answer brackets it with neighbouring buffered poses |
| PoseInterp.WeightDivides | dog_log_adaptor/pose_interp.cpp:43-44 | The weight lies strictly between 0 and 1 and divides the span at the query time |
| DogStream.NearestIsNearest | dog_log_adaptor/dog_stream.cpp:57-65 | No buffered scan is nearer than the one found, and no earlier one as near |
| DogStream.DogStream.FindNearest | dog_log_adaptor/dog_stream.cpp:57-65 | The search loop finds the nearest scan, -1 without scans |
| DogStream.DogStream.Judge | dog_log_adaptor/dog_stream.cpp:69-104 | The verdict for the head of the queue: wait, out of range, or a frame with its pose mix and nearest scan |
| DogStream.VerdictOk | dog_log_adaptor/dog_stream.cpp:69-104 | The head waits exactly without a flush and without a pose as new as the image, and is emitted exactly when some pose is not newer and some not older than it |
| DogStream.DogStream.Drain | dog_log_adaptor/dog_stream.cpp:67-110 | Everything that can be placed leaves from the front, in order, and the hook receives exactly the emitted frames |
| DogStream.DogStream.PushScan | dog_log_adaptor/dog_stream.cpp:17-41 | The pose and the scan enter their rings, then the queue is drained |
| DogStream.DogStream.PushImage | dog_log_adaptor/dog_stream.cpp:43-53 | A full queue drops its oldest image as overflow, the image is queued, then the queue is drained |
| DogStream.DogStream.Flush | dog_log_adaptor/dog_stream.cpp:55 | A flush empties the queue |
| DogStream.RunSafe | dog_log_adaptor/dog_stream.cpp:17-110 | For arbitrary pushes and flushes: buffers within bounds, images leaving in order, every frame bracketed, and between calls the head of the queue cannot be placed |
| DogStream.Conservation | dog_log_adaptor/dog_stream.cpp:43-110 | Images pushed = emitted + out of range + overflow + pending |
| DogStream.OverflowIff | dog_log_adaptor/dog_stream.cpp:43-53 | Exactly an image pushed onto a full queue crowds one out, and it is the head; images are queued by image pushes only |
| DogStream.ImageLosesNone | dog_log_adaptor/dog_stream.cpp:43-53 | An image pushed in order, even one that crowds out the head, makes no waiting image too old |
| DogStream.WaitingNeverTooOld | dog_log_adaptor/dog_stream.cpp:17-110 | Over any further pushes of scans and of images in order, an image waiting on a non-empty pose buffer is never classed too old |
| DogStream.NeverTooOldInRun | dog_log_adaptor/dog_stream.cpp:17-110 | The same at every moment of any run from a fresh stream without a flush |
| DogReplay.MergeOne | dog_log_adaptor/dog_log_ingestor.cpp:49-61 | One step pushes one scan or considers one image, scans winning ties |
| DogReplay.Merge | dog_log_adaptor/dog_log_ingestor.cpp:42-61 | The cursors walk both streams to their ends, pushing exactly the merged order |
| DogReplay.RunReplay | dog_log_adaptor/dog_log_ingestor.cpp:13-65 | In its arguments: the images pushed are every stride-th (at least every first) from max(0, start) up to the end of the window, in order, and their number, the window over the stride rounded up, is returned; the scans pushed are the run from the first not before the first window image less 0.5 s while not after the last window image plus 0.5 s; nothing without images, scans or a window; then the stream is flushed |
| DogReplay.PlanReplays | dog_log_adaptor/dog_log_ingestor.cpp:16-59 | The merge walk pushes exactly those images and scans |
| DogComplete.PushedInTime | dog_log_adaptor/dog_log_ingestor.cpp:47-61 | With sorted streams everything is pushed in order of time, scans before images of the same time |
| DogReplay.SelectedCount | dog_log_adaptor/dog_log_ingestor.cpp:20-59 | The number of images pushed is the window length divided by the stride, rounded up |
| DogComplete.EqualTimesLoseTheTie | dog_log_adaptor/dog_stream.cpp:37-38 | A whole replay with three scans and an image at one time and a ring of two: the image is emitted with the second scan though the first is as near |
| DogComplete.RingNearest | dog_log_adaptor/dog_stream.cpp:57-65 | Of a ring with a scan on either side of a time, the nearest is as near as any scan of the whole recording |
| DogComplete.GivenIsNearest | dog_log_adaptor/dog_stream.cpp:57-65 | The scan an image is emitted with is as near as any scan of the whole recording |
| DogComplete.TieRuleIff | dog_log_adaptor/dog_stream.cpp:57-65 | It is the earliest of the nearest exactly when the earliest is still in the ring as the image is placed |
| DogComplete.DistinctTimesKeepTheTie | dog_log_adaptor/dog_stream.cpp:37-65 | When no two scans share a time that is always so |
| DogComplete.GuardKeepsTheTie | dog_log_adaptor/dog_log_ingestor.cpp:22-40 | The guard band never cuts the earliest nearest scan off |
| DogComplete.WalkDelivers | dog_log_adaptor/dog_log_ingestor.cpp:49-61 | From any point of the walk on, every selected image is delivered |
| DogComplete.ReplayComplete | dog_log_adaptor/dog_log_ingestor.cpp:13-65 | With sorted streams, equal times allowed, a pushed scan on each side of every selected image, a scan ring of at least 2 and room for the images between consecutive scans, every selected image is emitted exactly once, in order, with a scan no other of the recording is nearer than |
| DogComplete.CompleteMeans | dog_log_adaptor/dog_log_ingestor.cpp:13-65 | What that says of the i-th image, and that its scan is the earliest of the nearest exactly when the earliest is still in the ring |
| ZBuffer.SplatPoint | point_pixel_mapping/point_pixel_mapping_cpu.cpp:73-81 | Exactly the cells of the point's clipped window are lowered to its depth |
| ZBuffer.ProjectAll | point_pixel_mapping/point_pixel_mapping_cpu.cpp:41-82 | After pass 1 each cell is the least depth over in-frame points whose clipped window covers it, empty without one |
| PixelLaws.PixelIff | point_pixel_mapping/point_pixel_mapping_cpu.cpp:51-66 | With A, B, C the three dot products in coordinates, a point has pixel (u,v) exactly when C > 0, 2A-C < 2uC <= 2A+C, 2B-C < 2vC <= 2B+C and (u,v) lies in the frame; its depth is C |
| PixelLaws.OffFrameIff | point_pixel_mapping/point_pixel_mapping_cpu.cpp:59-63 | A point is off frame exactly when there is no such (u,v) |
| PixelLaws.RoundIs | point_pixel_mapping/point_pixel_mapping_cpu.cpp:61 | The integers nearest to a quotient, halves up, in terms of its parts |
| PixelLaws.RadiusIs | point_pixel_mapping/point_pixel_mapping_cpu.cpp:68-71 | The radius is the cap without a footprint, otherwise the integer nearest to footprint over depth, raised to the lower and cut to the upper bound |
| PixelLaws.DrawnIff | point_pixel_mapping/point_pixel_mapping_cpu.cpp:73-81 | A point draws over a cell exactly when the cell is in the frame and within its radius of its pixel in both directions |
| PixelLaws.VisibleIff | point_pixel_mapping/point_pixel_mapping_cpu.cpp:92-104 | A point is visible exactly when no point drawing over its pixel is nearer by more than the tolerance |
| ZBuffer.NearestUnique | point_pixel_mapping/point_pixel_mapping_cpu.cpp:77-81 | That cell value is unique |
| ZBuffer.OrderFree | point_pixel_mapping/point_pixel_mapping_cpu.cpp:46-82 | The buffer does not depend on the order of the points |
| ZBuffer.OwnCell | point_pixel_mapping/point_pixel_mapping_cpu.cpp:68-81 | A point's own pixel is never empty and at most as deep as the point |
| ZBuffer.NearestPointVisible | point_pixel_mapping/point_pixel_mapping_cpu.cpp:84-105 | For a non-negative tolerance a nearest in-frame point is visible |
| ZBuffer.ProjectPointsToPixels | point_pixel_mapping/point_pixel_mapping_cpu.cpp:13-108 | Pixels, visibility, correspondences and the visible count of both passes |
| ZBuffer.VisibleOrderFree | point_pixel_mapping/point_pixel_mapping_cpu.cpp:84-108 | Reordering the points changes neither which are visible nor how many |
| ZBuffer.StepInv | point_pixel_mapping/point_pixel_mapping.cu:84-88 | Any thread's next atomic minimum keeps every cell the least depth among the threads that have hit it |
| ZBuffer.RowOrder | point_pixel_mapping/point_pixel_mapping.cu:80-88 | The nested loops reach exactly the cells of the window |
| ZBuffer.WindowInFrame | point_pixel_mapping/point_pixel_mapping.cu:80-88 | No atomic minimum ever leaves the buffer |
| ZBuffer.NeverStuck | point_pixel_mapping/point_pixel_mapping.cu:84-88 | Under every interleaving, until the kernel has finished some thread can take its next step |
| ZBuffer.FinishedIff | point_pixel_mapping/point_pixel_mapping.cu:84-88 | No interleaving takes more steps than the clipped windows have cells, and it has finished exactly when it has taken that many |
| ZBuffer.InterleavingFree | point_pixel_mapping/point_pixel_mapping.cu:38-89 | Under every interleaving of the atomic steps the finished kernel leaves the very buffer the CPU loop leaves, if clamping the radius is defined |
| ZBuffer.KernelsAgree | point_pixel_mapping/point_pixel_mapping.cu:92-122 | After every finished interleaving the visibility kernel passes exactly the points the CPU passes find visible |
| ZBuffer.KernelRadiusIs | point_pixel_mapping/point_pixel_mapping.cu:76-78 | The kernel's radius is the clamped one whenever clamping is defined; otherwise it is the cap, below the lower bound |
| WorldMap.SameKey | universe/voxel_util.h:34-38 | Multiplying by the reciprocal edge gives the map's own voxel key |
| MapLaws.VoxelIff | universe/voxel_util.h:34-38 | A point has voxel key k exactly when each coordinate lies in [k, k+1) times the edge |
| WorldMap.MeanMore | universe/universe.cpp:144-150 | The running update yields the mean of all points folded so far |
| WorldMap.FusedStays | universe/universe.cpp:144-150 | The mean of points of one voxel stays in that voxel |
| WorldMap.CastVote | universe/universe.cpp:258-267 | Exactly one class, cut to 16 bits, gains one vote, saturating; the histogram lists each class once |
| WorldMap.ResolveClass | universe/universe.cpp:307-328 | The heaviest class under the stuff bias, lowest id among equals, gated by total votes and share |
| WorldMap.ResolveOrderFree | universe/universe.cpp:307-328 | The resolved class does not depend on the order in which classes were first seen |
| MapLaws.ResolvesIff | universe/universe.cpp:312-328 | The class is that of the bin of greatest votes (times the bias for stuff), lowest id among equals, if votes and share reach their minimums, else -1 |
| MapLaws.SomeLeads | universe/universe.cpp:315-323 | Every non-empty histogram has such a bin |
| Universe.Vocabulary.Intern | universe/universe.cpp:11-20 | Names and ids stay in bijection, ids never move, and the empty name has none |
| Universe.Vocabulary.Declare | universe/universe.cpp:21-25 | A kind once declared is never overwritten |
| Universe.ObservedOk | universe/universe.cpp:112-153 | One observation keeps the index a bijection, the arrays parallel, each point the mean of what was folded since its last birth and in its own voxel, and moves no index |
| MapLaws.NewPoint | universe/universe.cpp:115-125 | A point in a new voxel is appended with count 1, alive, without label, instance, votes or colour, and nothing else changes |
| MapLaws.Reborn | universe/universe.cpp:129-142 | A point in a dead voxel starts afresh under the old index, with count 1 and everything else discarded |
| MapLaws.Refines | universe/universe.cpp:143-150 | A point in a live voxel moves its mean by the running update and raises its count; label, votes and colour stay |
| MapLaws.AllTaken | universe/universe.cpp:112-153 | After a frame a voxel has taken what it had taken before and then exactly the frame's points in it, in order |
| MapLaws.LiveIsMean | universe/universe.cpp:112-153 | A live point's count and position are the number and mean of the points its voxel has taken since its last birth |
| Universe.KeysDistinct | universe/universe.cpp:113-125 | No two indices share a voxel |
| Universe.ObjectKeysDistinct | universe/voxel_util.h:34-38 | The key the object stages use is injective on map indices |
| Universe.VoxelsAfter | universe/universe.cpp:112-153 | After a frame the map holds exactly the voxels it held and those of the frame's points |
| Universe.Universe.Observe | universe/universe.cpp:113-152 | Append, rebirth or refinement, array by array |
| Universe.Universe.Integrate | universe/universe.cpp:95-156 | Every point folded in order, indices and their voxels stay; the view is appended with the robot as told or at the camera, and its index returned |
| Universe.Universe.VoteColor | universe/universe.cpp:279-289 | The colour joins those voted for the point and enters its running mean; nothing else changes |
| Universe.Universe.PointColor | universe/universe.cpp:291-297 | The mean colour, none without a vote |
| Universe.ColorIsMean | universe/universe.cpp:279-297 | In every map that keeps the invariant a point's colour is the mean, channel by channel, of exactly the colours voted for it since its last birth, none without one |
| Universe.Universe.KillPoint | universe/universe.cpp:345-351 | A tombstone clears label, instance and votes and keeps the index, its voxel and its colour |
| Universe.Universe.SetVoting | universe/universe.cpp:251-256 | The parameters are clamped to their ranges |
| Universe.Universe.ClearFrameLabels | universe/universe.cpp:243-249 | Every label is reset and nothing else |
| Universe.Universe.SetFrameLabel | universe/universe.cpp:269-277 | The instance is stored and the class voted for, or becomes the label, and nothing else about the map changes; out-of-range indices and empty names change nothing |
| Universe.Universe.PointClassId | universe/universe.cpp:303-329 | The frame label, or the resolved vote in voting mode |
| Universe.Universe.Local | universe/universe.cpp:158-194 | The live points around a centre with their map indices |
| Universe.NearbyIff | universe/universe.cpp:166-192 | Exactly the live points within the radius (all live ones for a non-positive radius), by rising index |
| MapLaws.WithinIff | universe/universe.cpp:166-192 | A point is in range exactly when it is alive and its squared distance, in coordinates, is at most the squared radius, or the radius is not positive |
| SignGate.SignBridge.Gate | sign_adaptor/sign_bridge.cpp:110-119 | A busy gate drops the frame |
| SignGate.SignBridge.Reserve | sign_adaptor/sign_bridge.cpp:141-152 | A new id is reserved and the footprint stashed under it, or the frame is counted as raced |
| SignGate.SignBridge.Undo | sign_adaptor/sign_bridge.cpp:163-169 | The reservation is taken back |
| SignGate.SignBridge.CountDispatched | sign_adaptor/sign_bridge.cpp:170-173 | An accepted request is counted, and nothing else changes |
| SignGate.SignBridge.OnResult | sign_adaptor/sign_bridge.cpp:179-199 | A known id moves from pending to resolved or failed, an unknown one is ignored, and the gate opens |
| SignGate.MockDetector.Enqueue | sign_adaptor/sign_detector_mock.cpp:42-48 | Accepts exactly while the queue has room |
| SignGate.MockDetector.Take | sign_adaptor/sign_detector_mock.cpp:56-62 | Takes the oldest request |
| SignGate.RunInv | sign_adaptor/sign_bridge.cpp:110-199 | The protocol invariant holds after every interleaving of the two threads |
| SignGate.SingleInFlight | sign_adaptor/sign_bridge.cpp:110-177 | In every reachable state the gate is closed exactly when the one id is pending, the detector holds at most that request, and neither the raced nor, with room for one request, the queue-full branch is ever taken |
| SignGate.DispatchedAccounted | sign_adaptor/sign_bridge.cpp:170-199 | Between frames, dispatched = resolved + failed + in flight |
| SignGate.TextsMatchFootprints | sign_adaptor/sign_bridge.cpp:179-199 | Every text stands with the footprint that was sent to be read, in the order of the requests |
| SignGate.ResolvedAre | sign_adaptor/sign_bridge.cpp:179-199 | In every run the signs kept are exactly the answers marked as read with a text, each with its own footprint |
| SignGate.TextsAre | sign_adaptor/sign_bridge.cpp:184-193 | An answer is kept exactly when it is marked as read and has a text |
| SignGate.DroppedCounted | sign_adaptor/sign_bridge.cpp:110-119 | In every run the drop counter is the number of frames that found the gate closed |
| SignGate.IdIs | sign_adaptor/sign_bridge.cpp:147 | The id is the counter cut to 32 bits, the counter itself below 2 to the 31 |
| SignGate.AnswerIsAwaited | sign_adaptor/sign_bridge.cpp:182-183 | The answered id is the reserved one, so an answer always finds its footprint |
| SignAnnotate.OverlapCount | sign_adaptor/sign_bridge.cpp:31-39 | The number of shared voxels, walking the smaller set |
| SignAnnotate.BestObject | sign_adaptor/sign_bridge.cpp:225-234 | The object holding most of the footprint, then the one with more points, then the first |
| SignAnnotate.BestUnique | sign_adaptor/sign_bridge.cpp:225-234 | That object is unique |
| SignAnnotate.BestRanks | sign_adaptor/sign_bridge.cpp:225-234 | No object shares more of the footprint, none as much with more points, none equal in both comes earlier; without one no object shares any |
| SignAnnotate.Match | sign_adaptor/sign_bridge.cpp:219-251 | An object is annotated exactly when a sign picks it, with the text of the strongest, the first among equals |
| SignAnnotate.Annotator.Annotate | sign_adaptor/sign_bridge.cpp:201-257 | The cached mapping is served until a new sign arrives or ten calls have passed |
| EuclideanSplit.Find | universe/object_seeds.cpp:122-125 | Path halving returns the root and changes none |
| EuclideanSplit.Join | universe/object_seeds.cpp:132 | The two sets become one and no other changes |
| EuclideanSplit.Split | universe/object_seeds.cpp:108-141 | The parts are exactly the connected components of the nearness relation, each in input order; the input itself when switched off or trivial |
| EuclideanSplit.SameRootIffConnected | universe/object_seeds.cpp:129-133 | Two positions share a root exactly when a chain of near points joins them |
| EuclideanSplit.ComponentsUnique | universe/object_seeds.cpp:135-140 | The parts do not depend on the order of points, neighbours or hash buckets |
| Seeding.ByClass | universe/object_seeds.cpp:263-272 | This frame's eligible points by class, the within-frame claim guard never firing |
| Seeding.PoolAll | universe/object_seeds.cpp:394-406 | The points of all classes dense enough, with their classes |
| GrowLaws.SurvivorIff | universe/object_seeds.cpp:263-271 | A class's survivors are its eligible points of the frame that the filter keeps |
| GrowLaws.PooledIff | universe/object_seeds.cpp:397-406 | A point is pooled under a class exactly when it survives there and the class has min_class_points survivors |
| GrowLaws.PooledScanIff | universe/object_seeds.cpp:407-408 | The pooled scan takes place exactly with more points than min_pts and at least sixteen |
| GrowLaws.ClassScanIff | universe/object_seeds.cpp:320-326 | The scan of one class takes place exactly with min_class_points survivors, more than min_pts and at least sixteen |
| Seeding.LabelBound | universe/object_seeds.cpp:422-424 | The number of labels is one more than the highest, none for all noise |
| Seeding.Group | universe/object_seeds.cpp:425-430 | The points of every label in order, and the class of its last point |
| GrowLaws.LastClassIs | universe/object_seeds.cpp:426-430 | A label's class is that of the last point under it |
| Seeding.MakeSeed | universe/object_seeds.cpp:278-302 | Class and kind, members and their centroid, a histogram spike at the class, and the members' instance ids sorted without duplicates |
| Centroids.CentroidOf | universe/object_seeds.cpp:284-294 | The mean of the positions, axis by axis |
| Centroids.CentroidShifts | universe/object_seeds.cpp:284-294 | Replacing one of n points moves the centroid by an n-th of the way, in each coordinate |
| Centroids.CentroidInBox | universe/object_grow.cpp:160-165 | A box around the points holds their centroid |
| Seeding.ProposalsPure | universe/object_seeds.cpp:390-436 | Every point of a proposal has the proposal's class, for the pooled scan provided no cluster spans two classes |
| ClassPurity.PureIffNoneOffends | universe/hdbscan_extract.cpp:126-176 | No label spans two classes exactly when no condensed cluster spanning two is a leaf cluster (in leaf mode) or is at least as stable as the best below it with no such cluster above it, the root counted only if allowed (by excess of mass) |
| ClassPurity.SpanningSplits | universe/hdbscan_extract.cpp:86-107 | If every class is what lies below one node and has min_cluster_size points, every node spanning two classes is a genuine split, worth its points times the density it spans |
| ClassPurity.LeafModePure | universe/object_seeds.cpp:391-421 | Leaf mode then never mixes two classes |
| ClassPurity.GapModePure | universe/object_seeds.cpp:391-421 | Excess of mass then never mixes them when at every merge across classes the two sides are worth more than its points at the density of the gap |
| ClassPurity.PooledProposalsPure | universe/object_seeds.cpp:390-436 | When no cluster of the pooled scan offends, every point of a proposal has the proposal's class |
| ClassPurity.OneLabel | universe/hdbscan_extract.cpp:126-176 | If no merge joins two big sides and the root is allowed, the flat clustering is label 0 for every point and nothing else |
| ClassPurity.PooledScanMixes | universe/object_seeds.cpp:390-436 | A pooled scan of twelve points of one class and four of another, far apart, with a cluster size of five and the root allowed: a point of the first class ends in a proposal of the second, in both modes and with or without splitting |
| Seeding.SeededApart | universe/object_seeds.cpp:247-442 | Distinct input points give disjoint proposals |
| Seeding.ApartIffLabelledOnce | universe/object_seeds.cpp:247-442 | No point is in two proposals exactly when no scan lists a point under two cluster labels |
| Seeding.DistinctLabelledOnce | universe/object_seeds.cpp:247-442 | Distinct input points are never under two labels |
| Seeding.DuplicatesDisagree | universe/object_seeds.cpp:301-304 | Sixteen copies of one point under alternating labels: ownership and membership disagree |
| Seeding.AgreesIffApart | universe/object_seeds.cpp:301-304 | After seeding, a point's owner is the proposal holding it exactly when no two proposals share a point |
| GrowLoop.ObjectSeeds.Claim | universe/object_seeds.h:188-193 | The owner index is grown with unowned points as needed and g becomes owned; a negative g changes nothing |
| GrowLoop.ObjectSeeds.Reset | universe/object_seeds.cpp:249-256 | Proposals and claims of the last frame are gone |
| GrowLoop.ObjectSeeds.AppendSeed | universe/object_seeds.cpp:278-305 | A non-empty proposal is appended and its points claimed |
| Growing.AppendAgreesIff | universe/object_seeds.cpp:301-304 | Appending a proposal keeps owner and membership in agreement exactly when none of its points is owned yet |
| GrowLoop.ObjectSeeds.AppendScan | universe/object_seeds.cpp:417-435 | Every label's points are split and appended, one proposal per component |
| GrowLoop.ObjectSeeds.SeedFromIndices | universe/object_seeds.cpp:247-442 | The proposals are the connected components of every cluster of every scan, every clustered point is in one, and ownership agrees with membership exactly when no scan lists a point under two labels, which distinct input points guarantee |
| Growing.AffOf | universe/object_grow.cpp:157-171 | -1 when class, box or overlap fail, otherwise cosine times containment |
| GrowLaws.AffinityIs | universe/object_grow.cpp:157-171 | -1 when the class differs, the centroid lies more than one voxel outside the box, or no voxel is shared; otherwise the affinity times the superpoint's voxels is the cosine times the shared ones |
| Growing.MakeCand | universe/object_grow.cpp:63-84 | The cache holds the voxels and the bounding box of the points in the map |
| GrowLaws.VoxIff | universe/object_grow.cpp:73-76 | The cached voxels are those of the listed points in the map |
| GrowLaws.BoxIsLeast | universe/object_grow.cpp:77-80 | The box holds every listed point in the map and lies in every box that does |
| Growing.BuildCands | universe/object_grow.cpp:57-88 | One cache for every proposal with a point in the map |
| Growth.BestIsBest | universe/object_grow.cpp:211-217 | The chosen candidate reaches the bar, none has a higher affinity and no later one as high |
| Growth.OfferedJudges | universe/object_grow.cpp:205-208 | In overlap mode a candidate annexes the superpoint exactly when its affinity before the visit reaches the bar and it has not done so, whatever the others annexed |
| AnnexLaws.AnnexGains | universe/object_grow.cpp:177-203 | A proposal that annexes a superpoint takes exactly its unowned points (all in overlap mode), and, if there are any, its instance ids and the mark for refreshing; owners and every other proposal stay |
| AnnexLaws.PassedOver | universe/object_grow.cpp:133-150 | A superpoint without a class, a histogram or a point in the map, in exclusive mode one nobody owns, is passed over |
| AnnexLaws.ExclusiveVisit | universe/object_grow.cpp:209-217 | Otherwise the last of the candidates of highest affinity at the bar, and it alone, gains those points; without one nothing happens |
| AnnexLaws.GrowingMarks | universe/object_grow.cpp:122-228 | Exactly the proposals that gained a point in some sweep are marked for refreshing |
| Growth.PointsMove | universe/object_grow.cpp:182-196 | A proposal gains a point exactly when one can be annexed; none ever loses a point |
| Growth.GrowingKeeps | universe/object_grow.cpp:118-221 | After any number of sweeps points were only gained, no owned point was stolen, ownership agrees with membership, and the caches mirror the proposals |
| Growth.VisitFixedIff | universe/object_grow.cpp:131-218 | Visiting a superpoint changes nothing exactly when it cannot grow, has no free point, or no candidate reaches the bar that has not annexed it |
| Growth.SweepFixedIff | universe/object_grow.cpp:129-220 | A sweep changes nothing exactly when every superpoint is settled |
| Growth.EarlyStopIsHarmless | universe/object_grow.cpp:129-221 | Stopping at the first sweep that changes nothing ends where all allowed sweeps would |
| Growth.ConvergedIff | universe/object_grow.cpp:220-220 | A run stops early exactly when one of the sweeps it is allowed changes nothing |
| Growth.SettledIffConverged | universe/object_grow.cpp:129-221 | After k sweeps every superpoint is settled exactly when a further sweep would change nothing; stopping early implies it |
| Growth.StopsWithin | universe/object_grow.cpp:129-221 | A run with more sweeps than free map points (in overlap mode, than candidate-superpoint pairs not annexed yet) stops early: every changing sweep uses one up |
| Growth.SweepsSuffice | universe/object_grow.cpp:118-221 | More sweeps than map points (in overlap mode, than candidates times superpoints) always settle every superpoint |
| GrowLoop.ObjectSeeds.Annex | universe/object_grow.cpp:177-203 | Exactly the unowned points (in overlap mode all, once) are appended and claimed, cache, ids and mark updated |
| GrowLoop.ObjectSeeds.PickBest | universe/object_grow.cpp:209-216 | The loop finds the last of the best candidates at or above the bar |
| GrowLoop.ObjectSeeds.Visit | universe/object_grow.cpp:131-218 | One superpoint offered to the proposals, in either mode |
| GrowLoop.ObjectSeeds.Sweep | universe/object_grow.cpp:129-220 | One pass over the superpoints, reporting whether anything changed |
| GrowLoop.HistOf | universe/object_grow.cpp:29-37 | The number of listed points of every class |
| GrowLoop.SpikeIffPure | universe/object_seeds.cpp:297-300 | The histogram a proposal starts with is the recount of its points exactly when they all have its class |
| GrowLoop.Refresh | universe/object_grow.cpp:223-253 | Exactly the proposals that grew are recomputed: members once each in overlap mode, centroid over the points in the map, histogram recounted, instance ids once each |
| NeighborPool.PoolAllHists | universe/object_grow.cpp:91-116 | Every superpoint gets its own histogram plus the decayed ones of its k nearest neighbours with as many classes, nearer and then earlier first; its own when pooling is off |
| NeighborPool.PooledAt | universe/object_grow.cpp:110-113 | Class by class that is the own weight plus the decay times the neighbours' total |
| NeighborPool.NearerIff | universe/voxel_util.h:40-43 | Nearer means a smaller squared distance, in coordinates, or the same and earlier |
| NeighborPool.NearestUnique | universe/object_grow.cpp:104-109 | The list of the k nearest is unique |
| NeighborPool.PooledUnique | universe/object_grow.cpp:91-116 | The pooled histograms are a function of the superpoints |
| NeighborPool.PooledNonNegative | universe/object_grow.cpp:110-113 | Pooling keeps weights non-negative |
| GrowLoop.ObjectSeeds.GrowWith | universe/object_grow.cpp:50-256 | Caches, bounded sweeps and refresh; exclusive ownership keeps agreeing with membership, the version rises exactly when something was annexed, and whether a sweep within the limit changed nothing, after which every superpoint is settled |
| GrowLoop.ObjectSeeds.GrowLocal | universe/object_grow.cpp:50-256 | The same on the pooled histograms of the superpoints |

## Left out

- Floating point: rounding, NaN, infinities and zero heights; arithmetic is over reals, a root is exact, and positive depths order as their bit patterns do.
- Sockets, timeouts, files, configuration, logging and timing; the Python servers and the viewer.
- Spherical interpolation, quaternions, pose matrices and the lifting of clouds; a pose is an opaque value with a weight.
- The parallel HDBSCAN runtime, KD-trees, superpoint computation and the outlier filter of the point-cloud library; a well-formed linkage, labels, survivors and an exact symmetric nearness relation are inputs.
- Seeding.ProposalsPure: for the pooled scan it assumes unmixed labels; `ClassPurity` says when the labels of a linkage are. That the linkage of points a class gap apart has every class below one node is not derived from coordinates.
- ClusterSelect.Births: the source's initial infinity is a placeholder zero, because every cluster but the root is given its birth by its own row before it is read.
- Objects.Objects.Consolidate: the ownership mode is fixed for the life of the object rather than passed per call, and the voxel keys of map points are given, not recomputed per call at another resolution.
- ObjectCache.BuildCache: ties between majority classes may break either way, as they do in the source.
- Outliers.StatisticalOutlierRemoval: the partial sort is an insertion sort on a value, not the library's algorithm.
- ConvexHull.SortUnique: the same for sorting and removing duplicates before the hull.
- RoomObjects.ObjectDelta.ChangedSince: the fingerprint's mixing is not modelled; a fingerprint is any function of the object, equal fingerprints count as equal as in the code.
- RoomObjects.DeltaSuffices: fails for different ids with one key and objects of one fingerprint, as `CollisionLosesOne` shows; `FaithfulIffSeparates` says that it fails for no others.
- MsgPackIO.Reader.ReadValue: memory limits when a declared count is reserved, the depth of the call stack, and the widening of a 32-bit float (kept as bits) are not modelled.
- Value accessors (`find`, `asInt`, `asDouble`, `asBool`): they only read.
- VizMessages.SendFinish: map indices and class ids of the cloud are given; sending and dropping of buffers is not modelled.
- DogComplete.ReplayComplete: with equal scan times the scan may be a later one of the nearest; `TieRuleIff` says exactly when, `EqualTimesLoseTheTie` gives a replay.
- DogStream.WaitingNeverTooOld: stated for non-decreasing image times, without which an old image can arrive late, and without a flush, which empties the queue.
- ZBuffer.ProjectPointsToPixels: for a depth-scaled radius the lower splat bound is at most the upper one, since clamping is undefined otherwise; the projection matrix is given, and the buffer is indexed by row and column.
- ZBuffer.InterleavingFree: the visibility kernel starts after the project kernel has finished, as the launch order guarantees, and writes no shared cell.
- Universe.Universe.Integrate: of a camera only its matrix is recorded; the voxel size is fixed, because changing it at run time invalidates the index.
- Whole-map and local projection, vocabulary listing, and text lookups by id.
- SignGate.SignBridge.Reserve: how a mask becomes a footprint is not modelled; a frame arrives with any footprint, an empty one ending it.
- SignGate.SingleInFlight: thread start, stop and scheduling, and any liveness; the callback is assumed not to re-enter.
- SignAnnotate.Annotator.Annotate: the voxel sets of the objects are given, and the log of attached signs is left out.
- NeighborPool.ByDistance: the partial sort is an insertion sort, not the library's algorithm.
- GrowLoop.ObjectSeeds.SeedFromIndices: a point dropped by the filter and a point labelled noise both end in no proposal.
- Cropping and maturity gating of the older window seeding (universe/object_seeds.cpp:150-244), which shares clustering and claiming with the modelled path.
- Image mask dilation and erosion, and stages described in documents that the code no longer has.
