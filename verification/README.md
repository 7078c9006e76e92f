# Distributed Barnes–Hut engines: models and proofs

Dafny models of the protocols and refinements on which the three engines of this
repository rest, and proofs about every run of them. Each `.dfy` file is one module;
its name begins with the engine (`charm_`, `ityr_`, `hpx_`). `dafny verify
dfyconfig.toml` checks the project.

## What is modelled

**Charm++ engine (`charm/`).** A PE's histogram of the leaf frontier, reduced over all
PEs, is refined into TreePieces (`Histogram`); particles are flushed to the TreePieces'
home PEs (`ParticleExchange`); each PE builds the tree above its own particles
(`TreeBuild`), asks owners for the moments of the rest (`MomentsWalk`, `Moments`,
`MomentsExchange`, `DataManagers`, and all PEs together in `MomentsSystem`,
`MomentsCompletion` and `MassCarried`), and walks the tree in a local and a remote half
(`GravityWalks`, `GroupWalks`), fetching subtrees and buckets through a cache
(`TreeViews`, `Subtrees`, `FetchCache`, `FetchInvariant`, `FetchSteps`, `WalkingPEs`, and all PEs together in `WalkSystem`, `WalkRuns`,
`WalkResults`), in messages packed by `Serialization`. A world (`Decomposition.World`)
is the list of TreePieces with cell, particles and home PE. `TreeBuild.Node` is a tree
node; trees are maps from cell (key and depth) to node. Both branch factors (2 and 8)
are covered by one uninterpreted constant. Methods that update tables in the program are
methods of classes here (`DataManager`, `MomentsWorker`, `GravityWalker`, `WalkingPE`,
`ParticleExchanger`); each is proved equal to a function, and the system-wide results
are about steps made of those functions, taken in any order by any PE.

The stages meet: `Histogram.FrontierMakesWorld` turns the last frontier into a valid
world, which the exchange delivers, the build and the moments exchange start from;
`WalkResults.ReadyRootView` turns the end of the moments exchange into the state from
which the walks start.

**ItoyoriFBC engine (`ItoyoriFBC/src/`).** Each parallel program is proved to compute
what a simple sequential one does, for any number of nodes, ranks and blocks, with
floating point left uninterpreted (`Octree.Ops`, `BlockedEnergy.Adds`), so that equal
results are the same operations in the same order: the slice sort (`RadixSort`,
`MergeHeap`, `KwayMerge`, `SliceSort`), the merge of all nodes' keys (`KeyMerge`), the
redistribution (`Redistribution`, `GlobalSort`), the cooperative tree build (`Octree`,
`BodyOrder`, `OctreeBuild`, `BuildPlan`, `CooperativeBuild`), the force walks
(`ForceWalk`), the work-stolen force phase and its combine (`Forces`), and the energy sums
(`BlockedEnergy`); `BuildStep` puts the sort, the tree builds and the forces of one step
together. Ranks are separate calls between barriers; each is proved to write its own
part and nothing else.

**HPX engine (`hpx/src/exchange.cpp`).** `EssentialTree`: the selection of the cells sent
to another locality, and the keys and boxes it rests on, over reals.

A sum is equal to a simpler one only as far as the simpler one is right, so what the sums
add is said separately. Any function that reads a sum's terms off it, and so turns adding
into appending, finds every body once and in order (`BodyOrder`, `BlockedEnergy.SumAddsAll`,
`ForceWalk.WalkMeetsAll`). For the masses of the Charm++ model, which are numbers,
`MassCarried` changes one particle and follows the difference through all runs.

## What the proofs found

- The moments exchange always completes, but a PE that owns everything need not call
  `treeReady`: when there is one TreePiece and the root is a bucket, nothing passes the
  root's moments up (`charm/DataManager.cpp:885`). `MomentsSystem.QuietMeansReady` says, of
  every run that has come to its end, that `treeReady` was called on a PE if and only if it
  is not that case, and `MomentsCompletion.LoneRootNeverReady` runs such a world, with one
  particle, to its end.
- A node with several owners of which none has particles is typed Remote even if all its
  owners are local, and then its parent is Boundary, not Internal. No result depends on
  it: `NodeFacts.FinalKind` is what the code computes.
- Leaf size and build cutoff are independent options, and with a cutoff below the leaf
  size the cooperative build can differ from the sequential one: the plan divides a range
  that the sequential build keeps as a leaf. `CooperativeBuild.BuildTreeSpmd` says what it
  builds for every cutoff, and that this is the sequential tree if and only if no leaf of
  that tree above the last level holds more bodies than the cutoff;
  `CooperativeBuild.LargeCutoff` that a cutoff of at least the leaf size is enough, and
  `CooperativeBuild.SmallCutoffExample` has two bodies, leaf 2 and cutoff 1, for which the
  trees differ.
- The distributed kinetic sum reads each block from its owner's slice alone, so blocks must
  not span slices; the program takes that path only when the slice granularity is a multiple
  of the block (`ItoyoriFBC/src/barneshut_ityr.cpp:1880`), and `BlockedEnergy.MultipleAligns`
  shows that this suffices.

## Model

| member | source | states |
|---|---|---|
| TreeKeys.Nested | charm/Node.h:88-105 | two octree cells whose particle-key intervals meet are nested, the deeper in the shallower |
| TreeKeys.ChildSpan | charm/Node.h:212-256 | the children's key intervals tile the parent's, in order |
| Histogram.AddNewNode | charm/ActiveBinInfo.h:41-62 | a bin's descriptor has the count, least and greatest key of the PE's particles inside it; equal keys when there are none |
| Histogram.GrowDescribes | charm/Descriptor.h:101-118 | growing one PE's descriptor by another's describes both PEs' particles together, empty sides included |
| Histogram.ReduceBin | charm/Reduction.cpp:21-32 | reducing all PEs' descriptors of a bin describes the particles of all PEs in it |
| Histogram.ProcessRefine | charm/ActiveBinInfo.h:74-91 | the new frontier is the old one with exactly the named bins replaced by their children, in place |
| Histogram.RefineFrontier | charm/ActiveBinInfo.h:74-91 | a refined frontier still tiles the key space with leaves of one octree in key order, with BRANCH-1 more leaves for each bin split |
| Histogram.SplittableIs | charm/DataManager.cpp:506-507 | a bin counts as splittable exactly when it holds two particles of different keys |
| Histogram.SplittableHasRoom | charm/DataManager.cpp:498-507 | a bin with two different keys is above the last key level and has at least two particles |
| Histogram.Heaviest | charm/DataManager.cpp:556-576 | exactly `take` candidates are chosen, each no lighter than any not chosen, ties to the lower bin |
| Histogram.WantedBins | charm/DataManager.cpp:504-523 | exactly the first bins above the target with two keys are taken, as many as the budget allows: all of them, or no refused one comes before a taken one and no further split fits; taken and refused ones add up to all that want splitting |
| Histogram.ReceiveHistogram | charm/DataManager.cpp:504-590 | if some bin wants splitting and one split fits, the bins chosen are exactly the first such bins the budget allows; otherwise as many splittable bins as there is room for, none lighter than any left out; the leaf count stays within the budget |
| Histogram.Decompose | charm/DataManager.cpp:437-691 | the refinement terminates with one leaf per TreePiece, no more than the budget, every leaf's descriptor exact over all PEs; then either no split fits or every leaf holds a single key |
| Histogram.FrontierMakesWorld | charm/DataManager.cpp:610-652 | TreePieces made of the frontier's leaves and all particles in them are a valid world: cells in key order tiling the key space, particles sorted and inside |
| Histogram.NothingLost | charm/DataManager.cpp:633-638 | the leaves' counts add up to the number of all particles, so the lost-particles abort is unreachable |
| Histogram.CountsExact | charm/DataManager.cpp:693-719 | the count recorded for a leaf is the number of particles its TreePiece owns |
| ParticleExchange.NextTotal | charm/DataManager.cpp:783-786 | the next message holds what is left of the runs, or the cap if that is more |
| ParticleExchange.FillMessage | charm/DataManager.cpp:787-795 | copying a message takes exactly its size from the front of what is left, across run boundaries |
| ParticleExchange.EmitFlushRun | charm/DataManager.cpp:779-799 | the messages are the flushed runs' concatenation cut into pieces of the cap |
| ParticleExchange.ChunksWhole | charm/DataManager.cpp:779-799 | those pieces concatenate to the runs, none is empty and none exceeds the cap |
| ParticleExchange.ParticleExchanger.SendParticlesToTreePiece | charm/DataManager.cpp:693-703 | a leaf's particles join the run for its home PE, after the run for another PE has been sent |
| ParticleExchange.ParticleExchanger.FlushParticles | charm/DataManager.cpp:655-664 | the messages sent are those of the specification, leaf by leaf |
| ParticleExchange.FlushDelivers | charm/DataManager.cpp:655-703 | for any homes, the payloads sent to a PE are exactly the particles of the leaves it is home to, in leaf order |
| ParticleExchange.ParticleExchanger.TryProcessParticles | charm/DataManager.cpp:814-860 | waits for ranges and the expected number, then takes all arrived payloads, and checks that none exceed |
| ParticleExchange.ParticleExchanger.ReceiveParticles | charm/DataManager.cpp:808-812 | a message is kept and counted before processing is tried |
| ParticleExchange.ParticleExchanger.ExpectParticles | charm/DataManager.cpp:802-806 | the expectation is the sum of the counts of the PE's TreePieces |
| ParticleExchange.ExpectedIs | charm/DataManager.cpp:802-806 | that sum is the number of particles of the PE's TreePieces |
| ParticleExchange.ParticleExchanger.SendParticles | charm/DataManager.cpp:721-737 | on the broadcast the PE flushes its old particles before it may process |
| ParticleExchange.NextKeeps | charm/DataManager.cpp:721-860 | arrived, in-flight and unflushed particles of a PE always make up exactly its own; it processes at most once; no assertion fails |
| ParticleExchange.EndIsExchanged | charm/DataManager.cpp:721-860 | no event is left if and only if every PE has processed exactly once, holding exactly its TreePieces' particles |
| ParticleExchange.EveryExchangeEnds | charm/DataManager.cpp:721-860 | in every run, for every message order: no assertion fails, no PE processes twice, each event brings the end one closer, and the end is the completed exchange |
| Decomposition.OwnerRangeExact | charm/ActiveBinInfo.h:153-200 | the owner range of a node holds exactly the TreePieces whose key range meets the node's interval |
| Decomposition.MultiOwnerContains | charm/DataManager.cpp:958-961 | a node with several owners contains each owner's cell and lies strictly above it |
| Decomposition.LocalTreeIsPruned | charm/DataManager.cpp:963-979 | a PE refines a node if and only if the tree of all particles does and the PE has particles there |
| Decomposition.RefinedHasRoom | charm/DataManager.cpp:950-979 | a node the criterion refines is above the last key level, coincident keys or not, so the depth assertion holds |
| TreeBuild.BinarySearchGE | charm/util.h:16-31 | the first index whose key is at least the one sought |
| TreeBuild.FindSplitters | charm/util.cpp:53-69 | consecutive splitters bound exactly the particles of each child |
| TreeBuild.ChildOwners | charm/ActiveBinInfo.h:153-200 | each child gets exactly its own owner range, and is an empty bucket with sentinel owners when that is empty |
| TreeBuild.RefineNode | charm/Node.h:212-256 | each child has its key interval's particles, owners and fresh counters |
| TreeBuild.ProcessRefine | charm/ActiveBinInfo.h:74-91 | the nodes after a round are the old ones plus the children of exactly the nodes refined, all right and linked |
| TreeBuild.BuildTree | charm/DataManager.cpp:919-986 | the build terminates; its nodes are exactly those below refined ancestors, each with its particles, owners and number of children; a node is divided if and only if it has particles and several owners, or more particles than the limit and two keys among them |
| NodeFacts.ServingOwnerLoop | charm/Descriptor.h:179-192 | finds the first owner with particles, cyclically from the hashed start, or says there is none |
| NodeFacts.ServedOrEmpty | charm/Descriptor.h:179-192 | when no owner is found the node is empty on every PE |
| NodeFacts.RemoteLeafContains | charm/Worker.cpp:66-111 | every owner of a leaf typed Remote has its whole cell inside the leaf |
| NodeFacts.ServerCanAnswer | charm/DataManager.cpp:1024-1046 | the PE asked has built the node, does not hold it as a Remote leaf, has particles in it, and its type turned remote is the node's |
| NodeFacts.LocallyDoneServes | charm/Worker.cpp:113-139 | below an Internal node every node built is Internal or a local leaf |
| NodeFacts.MassOfChildren | charm/Node.h:352-371 | the masses of a node's children's intervals add up to its own |
| NodeFacts.OwnershipFromChildren | charm/Node.h:153-199 | the scan over the children that yields owner range, type and gap check |
| NodeFacts.ScanRecovers | charm/Node.h:165-186 | sibling ranges step by 0 or 1 only, and the scan has the first start and last end so far |
| NodeFacts.ParentRecovered | charm/Node.h:153-199 | the scan over all children returns exactly the parent's owner range and never aborts |
| MomentsWalk.PostorderTraversal | charm/Traversal_defs.h:139-187 | the two-stack traversal visits the postorder of the tree |
| MomentsWalk.PostOrderIs | charm/Traversal_defs.h:139-187 | the postorder holds every node built, once |
| MomentsWalk.OrderInOrder | charm/Traversal_defs.h:139-187 | it meets leaves in key order and children before parents, which the cursor over TreePieces needs |
| MomentsWalk.MomentsWorker.RequestMomentsOf | charm/Worker.cpp:52-64 | the one request for a leaf goes to the home PE of an owner with particles; without one the leaf is noted empty |
| MomentsWalk.MomentsWorker.AdvanceCursor | charm/Worker.cpp:84-109 | the cursor reaches a TreePiece no earlier than the leaf's first owner, skipping none that a later leaf needs |
| MomentsWalk.MomentsWorker.SetLeafType | charm/Worker.cpp:66-111 | a leaf is typed Bucket, EmptyBucket or Remote as its owners and particles say, whatever the cursor did; buckets and requests are logged for just these |
| MomentsWalk.MomentsWorker.Work | charm/Worker.cpp:20-47 | one visit keeps: every visited node typed, local masses the sums of their particles' masses, ready counts the number of finished children |
| MomentsWalk.MassOfParticles | charm/Node.h:373-386 | a bucket's mass is the sum over its own run of particles: nothing for none, the particle's own mass for one |
| MomentsWalk.MakeMoments | charm/DataManager.cpp:988-998 | the walk leaves the table the exchange starts from, requests each remote leaf once, and collects exactly the PE's buckets in key order |
| DataManagers.DataManager.RequestMoments | charm/DataManager.cpp:1024-1046 | queues the asker; when built and ready answers all askers of the key and forgets them; aborts on an unknown key |
| DataManagers.DataManager.ReportTo | charm/DataManager.cpp:1111-1115 | counts a child, and on the last one completes mass, owner range and type from the children |
| DataManagers.DataManager.PassMomentsUpward | charm/DataManager.cpp:1097-1119 | answers who waits for the node, then completes ancestors as far as they are complete, ending in treeReady at the root |
| DataManagers.DataManager.ReceiveMoments | charm/DataManager.cpp:1079-1095 | stores the reply in the leaf, with its type turned remote and no particles, and passes it up |
| DataManagers.DataManager.SettleEmptyRemoteLeaves | charm/DataManager.cpp:1006-1015 | every leaf without a server becomes a remote empty bucket and is passed up |
| DataManagers.DataManager.ProcessSubmittedParticles | charm/DataManager.cpp:870-890 | build, moments walk, settling, an Internal root's upward pass and the flush together are the build step of the system |
| DataManagers.DataManager.FlushMomentRequests | charm/DataManager.cpp:1048-1066 | answers exactly the queued keys whose nodes are ready; unknown keys abort |
| Moments.PassUpKeeps | charm/DataManager.cpp:1097-1119 | an upward pass keeps the PE's invariant: finished nodes exact, counters right, nobody waiting on a finished node, treeReady fired only with a finished root |
| MomentsExchange.RequestKeeps | charm/DataManager.cpp:1024-1046 | a request at the PE chosen never aborts and is queued or answered with exact mass and type |
| MomentsExchange.ReplyKeeps | charm/DataManager.cpp:1079-1119 | a reply fills one leaf, keeps the invariant and answers exactly the askers it frees |
| MomentsExchange.AskedAnswerable | charm/DataManager.cpp:1030-1035 | every queued key is a node the PE has built and can finish, so the bad-request abort is unreachable |
| MomentsExchange.FinishKeeps | charm/DataManager.cpp:870-890 | the build step leaves a settled PE that waits for exactly the leaves it asked for |
| MomentsSystem.NextKeeps | charm/DataManager.cpp:988-1119 | every step of every PE keeps the invariant of the whole system |
| MomentsSystem.EveryRunIsExact | charm/DataManager.cpp:988-1119 | in every state of every run each reply and each finished node has the exact mass of all particles in its interval; nothing aborts; treeReady fires at most once per PE, with a finished root |
| MassCarried.NodeMassChanges | charm/Node.h:373-386 | adding d to one particle's mass adds d to the mass of every cell whose interval holds its key and nothing to any other |
| MassCarried.TreeStays | charm/DataManager.cpp:919-986 | the trees are the same whatever the masses: the same cells built and divided on every PE |
| MassCarried.EveryRunCarries | charm/DataManager.cpp:988-1119 | between any run with a particle's mass as it is and any run with d more, finished nodes and replies differ by d for the cells that hold its key and not at all for the others |
| MomentsSystem.SomeStep | charm/DataManager.cpp:988-1119 | as long as a PE is not built or a message is in flight some step is possible |
| MomentsSystem.RunLength | charm/DataManager.cpp:988-1119 | every step uses up one unit of a bounded amount of work, so every run ends, after the same number of steps |
| MomentsSystem.QuietMeansReady | charm/DataManager.cpp:1097-1130 | when nothing is left every PE's root is finished, and treeReady has fired on every PE but the home of a lone unrefined root |
| MomentsCompletion.EveryRunCompletes | charm/DataManager.cpp:988-1119 | every run, whatever its message order so far, extends to one that ends with all PEs built, no message in flight and every root finished |
| MomentsCompletion.LoneRootNeverReady | charm/DataManager.cpp:884-887 | one TreePiece with one particle: a run that ends with the root finished and treeReady never called |
| GravityWalks.WalkSplits | charm/Worker.cpp:149-150 | the local and remote walks together meet exactly what one walk of the global tree meets, whatever is opened |
| GravityWalks.WalkCovers | charm/Traversal_defs.h:56-104 | one global walk's hits cover each particle of the node exactly once |
| GravityWalks.WalkHits | charm/Traversal_defs.h:56-104 | the walk meets, once each, exactly the nodes with particles whose ancestors the bucket opens: as a whole those it does not open, by their particles the leaves it does |
| GravityWalks.EveryParticleOnce | charm/Worker.h:156-255 | a bucket's local and remote hits cover every particle of the system once, so the interacted mass is the system's; together they are exactly the nodes its opening test selects |
| GravityWalks.KindSays | charm/Worker.cpp:66-139 | a node's final type says whether it is empty, divided or a bucket, on any PE |
| GravityWalks.KidsKinds | charm/Worker.cpp:113-139 | below Internal everything is local, below Remote everything is remote |
| GroupWalks.GravityWalker.Visit | charm/Worker.h:156-225 | returns the buckets that open the node; each other bucket of the mask applies it exactly if its half keeps and applies the type |
| GroupWalks.GravityWalker.ApplyParticles | charm/Worker.h:227-255 | every bucket of the mask meets the leaf once, no other does |
| GroupWalks.GravityWalker.GravityLeaf | charm/Traversal_defs.h:106-137 | a leaf is met, suspended or skipped by type and presence of particles, for each bucket of the mask |
| GroupWalks.GravityWalker.GravityWalk | charm/Traversal_defs.h:56-104 | the shared walk with mask and node stacks gives each bucket exactly its own walk's hits and suspensions, in order |
| GroupWalks.FitsStack | charm/Traversal_defs.h:60-66 | the walk's stack never holds as many as its 64*BRANCH_FACTOR+1 frames |
| TreeViews.WalkAccounts | charm/Traversal_defs.h:56-137 | over a partly fetched tree, hits plus what the suspended walks are owed is always the same whole |
| TreeViews.ResumedPays | charm/Request.cpp:12-56 | resuming at an arrived node yields exactly what was owed there |
| Subtrees.CutFits | charm/DataManager.cpp:1309-1323 | a served subtree fits every asker's tree: linked, typed remote, rooted in the children of the node asked for |
| Subtrees.AttachKeepsView | charm/DataManager.cpp:1374-1378 | attaching it keeps the asker's tree a true view and changes nothing else |
| Subtrees.FillKeepsView | charm/DataManager.cpp:1347-1351 | so does attaching a bucket's particles |
| Serialization.TreeSize | charm/Worker.cpp:152-159 | the size traversal counts the nodes of the subtree cut at the depth |
| Serialization.Serialize | charm/Node.h:272-310 | fills the buffer with exactly that many nodes, at their places, with relative child and parent offsets |
| Serialization.Deserialize | charm/Node.h:312-332 | turns each node's offsets into links and its type remote, touching nothing past the count |
| Serialization.UnpackingRebuilds | charm/Node.h:272-332 | a serialized buffer unpacked has the subtree's nodes at their places with right parents and children |
| Serialization.ReceivedIsCut | charm/Node.h:272-350 | the received tree is the sender's tree cut at the depth, types made remote, no particles |
| Serialization.Transfer | charm/DataManager.cpp:1309-1323 | size, serialize and deserialize together: the buffer is exactly full and the result is the cut |
| FetchInvariant.AskedOnce | charm/DataManager.cpp:1255-1286 | a suspension sends a request for its key only if none was sent before |
| FetchInvariant.AccountKeeps | charm/State.h:30-41 | taking groups off `pending` keeps: pending is unwalked groups plus suspended walks, completion exactly at zero |
| FetchSteps.StartGroupKeeps | charm/TreePiece.cpp:128-149 | walking one remote group keeps the cache invariant of the PE |
| FetchSteps.ResumeAllKeeps | charm/Request.cpp:12-56 | resuming all requestors of a key keeps it, each exactly once |
| WalkSystem.Answerable | charm/DataManager.cpp:1288-1307 | every request in flight reaches a PE that has built the node, with children or as its own bucket, so the leaf-children abort is unreachable |
| WalkRuns.NextKeeps | charm/DataManager.cpp:1192-1397 | every step of the walks keeps the invariant of the whole system |
| WalkResults.ReadyRootView | charm/DataManager.cpp:1123-1130 | a PE whose root is finished has a tree the walks may start on |
| WalkResults.EachKeyOnce | charm/DataManager.cpp:1192-1286 | in every run each PE asks for each key at most once, nothing aborts, and a PE finishes at most once |
| WalkResults.FinishedIsComplete | charm/DataManager.cpp:1413-1435 | when a PE finishes, every bucket has met every particle of the system exactly once, through exactly the nodes its opening test selects, each once; no request is outstanding, each TreePiece reported once |
| WalkResults.SomeStep | charm/TreePiece.cpp:105-174 | as long as anything is left to do some step is possible |
| WalkResults.QuietMeansFinished | charm/DataManager.cpp:1413-1435 | when nothing is left to do every PE has finished |
| WalkingPEs.FormWalkGroups | charm/TreePiece.cpp:33-73 | the groups are runs of consecutive buckets, at most 32, within the particle bound unless alone, and tile the buckets; a group ends only at the last bucket, at 32, or where the next bucket would pass the bound |
| WalkingPEs.GroupsFormed | charm/TreePiece.cpp:33-73 | the groups of all TreePieces are nonempty and share no bucket, as the walks require |
| WalkingPEs.EveryBucketGrouped | charm/TreePiece.cpp:33-73 | every nonempty bucket is in a group |
| WalkingPEs.WalkingPE.StartTraversals | charm/TreePiece.cpp:75-101 | a TreePiece without groups is done at once, the others have all their groups pending |
| WalkingPEs.WalkingPE.TraversalDone | charm/TreePiece.cpp:159-174 | the second of the two traversals reports the TreePiece, the last report finishes the PE and checks that no request is out |
| WalkingPEs.WalkingPE.RequestData | charm/DataManager.cpp:1192-1286 | counts the suspension, sends the key's request the first time only, and joins the requestors |
| WalkingPEs.WalkingPE.DoRemoteGravity | charm/TreePiece.cpp:128-149 | walks groups until the yield period, leaving what the specification leaves waiting, then accounts for them all: a remote step of the system |
| WalkingPEs.WalkingPE.DoLocalGravity | charm/TreePiece.cpp:105-126 | walks groups locally and accounts for them: a local step of the system |
| WalkingPEs.WalkingPE.ReceiveReply | charm/DataManager.cpp:1330-1397 | attaches the reply, then resumes every requestor of the key once, in order: a reply step of the system |
| WalkingPEs.ReplyDeliverable | charm/DataManager.cpp:1357-1397 | in every reachable state a reply in flight meets the preconditions of its delivery |
| Octree.OctantRunEnd | ItoyoriFBC/src/barneshut_common.hpp:168-196 | linear scan or binary search, the end found is that of the run of equal octant digits |
| Octree.PackedRepresents | ItoyoriFBC/src/barneshut_common.hpp:296-332 | a preorder-packed array unfolds to its tree |
| Octree.UnfoldsOnce | ItoyoriFBC/src/barneshut_common.hpp:296-332 | an array unfolds to one tree only |
| BodyOrder.BuildAddsAll | ItoyoriFBC/src/barneshut_common.hpp:296-332 | the moments of the tree over any range add exactly the bodies of the range, each once, in key order |
| BodyOrder.BuildFinishesOnce | ItoyoriFBC/src/barneshut_common.hpp:296-332 | with one finalization per node of the tree |
| BodyOrder.BuildWhole | ItoyoriFBC/src/barneshut_common.hpp:296-332 | so for every node of the tree and its own range, and the children tile their parent |
| BodyOrder.BuildShaped | ItoyoriFBC/src/barneshut_common.hpp:296-332 | a node is divided if and only if it holds more bodies than the leaf size above the last level, and then into the runs of equal next digit of its keys, in growing order |
| OctreeBuild.BuildRecDirect | ItoyoriFBC/src/barneshut_ityr.cpp:892-926 | the recursive build appends the preorder packing of the specified tree and leaves what was there; the root's moments add the bodies lo to hi once each, in order |
| OctreeBuild.RecNodeCountRec | ItoyoriFBC/src/barneshut_ityr.cpp:1185-1205 | the count is the tree's number of nodes and the record is its preorder structure |
| OctreeBuild.FoldFromRec | ItoyoriFBC/src/barneshut_ityr.cpp:1209-1238 | replaying the record writes the packing of the same tree into its own stretch and nothing else; its moments add the bodies of the tree's leaves from left to right |
| OctreeBuild.FoldedReads | ItoyoriFBC/src/barneshut_ityr.cpp:1209-1238 | moments folded node by node hold the bodies of the leaves below, in order |
| BuildPlan.PlanNodeStruct | ItoyoriFBC/src/barneshut_ityr.cpp:1243-1258 | appends a plan whose nodes divide their ranges by octant runs, above the cutoff only |
| BuildPlan.RankPlan | ItoyoriFBC/src/barneshut_ityr.cpp:1298-1304 | a rank plans exactly the root octants c = q mod P, at the positions it publishes |
| BuildPlan.GatherPlan | ItoyoriFBC/src/barneshut_ityr.cpp:1305-1343 | gathering all ranks' sub-plans with shifted links is one plan of the whole range, for any number of ranks |
| BuildPlan.EightChildren | ItoyoriFBC/src/barneshut_ityr.cpp:1240-1258 | no plan node has more than eight children |
| BuildPlan.DividedAlike | ItoyoriFBC/src/barneshut_ityr.cpp:1240-1258 | a divided plan node has its children's trees in order below it, and their masses folded in that order |
| BuildPlan.UndividedAlike | ItoyoriFBC/src/barneshut_ityr.cpp:1356-1361 | an undivided one has the tree the sequential build makes of its range |
| BuildPlan.PlannedExactly | ItoyoriFBC/src/barneshut_ityr.cpp:1243-1258 | the plan's tree is the sequential tree if and only if no sequential leaf above the last level holds more bodies than the cutoff |
| BuildPlan.NoFatLeaf | ItoyoriFBC/src/barneshut_ityr.cpp:1243-1258 | which a cutoff no smaller than the leaf size ensures |
| CooperativeBuild.RankCount | ItoyoriFBC/src/barneshut_ityr.cpp:1356-1361 | a rank's counts and records are those of the trees of its share of the plan leaves |
| CooperativeBuild.SubtreeSizes | ItoyoriFBC/src/barneshut_ityr.cpp:1367-1375 | every plan node's size is its whole subtree's |
| CooperativeBuild.PrefixOffsets | ItoyoriFBC/src/barneshut_ityr.cpp:1376-1381 | each offset is the sum of the sizes before it, inner nodes included, and the total the sum of all |
| CooperativeBuild.Apart | ItoyoriFBC/src/barneshut_ityr.cpp:1376-1381 | so the subtrees' stretches never overlap |
| CooperativeBuild.RankFold | ItoyoriFBC/src/barneshut_ityr.cpp:1398-1422 | a rank writes its leaves' packed trees at their offsets and leaves every other slot as it was |
| CooperativeBuild.FoldAll | ItoyoriFBC/src/barneshut_ityr.cpp:1398-1427 | after all ranks' folds every plan leaf's packed tree is in place |
| CooperativeBuild.Assemble | ItoyoriFBC/src/barneshut_ityr.cpp:1432-1449 | the reverse pass over inner plan nodes makes the array unfold to the tree of the plan's root |
| BuildPlan.PlannedAddsAll | ItoyoriFBC/src/barneshut_ityr.cpp:1263-1455 | however the plan divides a range, the moments add exactly its bodies, each once, in key order |
| BuildPlan.PlannedFinishesOnce | ItoyoriFBC/src/barneshut_ityr.cpp:1263-1455 | with one finalization per node |
| BuildPlan.PlannedWhole | ItoyoriFBC/src/barneshut_ityr.cpp:1263-1455 | and so does every node of the plan's tree for its own range |
| CooperativeBuild.BuildTreeSpmd | ItoyoriFBC/src/barneshut_ityr.cpp:1263-1455 | for any number of ranks and any cutoff the array unfolds to the plan's tree, and to the sequential build's if and only if no leaf of that above the last level holds more bodies than the cutoff; the moments in its first element add all bodies once each, in key order |
| CooperativeBuild.SameUnfolding | ItoyoriFBC/src/barneshut_ityr.cpp:892-1455 | the cooperative and the recursive build, run on the same keys, unfold to the same trees exactly then |
| CooperativeBuild.LargeCutoff | ItoyoriFBC/src/barneshut_ityr.cpp:1263-1303 | a cutoff of at least the leaf size is enough |
| CooperativeBuild.SmallCutoffExample | ItoyoriFBC/src/barneshut_common.hpp:637-640 | two bodies in different octants, leaf 2, cutoff 1: the trees differ |
| SortOrder.SortedOnce | ItoyoriFBC/src/barneshut_ityr.cpp:319-321 | a bag of distinct (key, index) pairs has one sorted arrangement |
| RadixSort.CountingPass | ItoyoriFBC/src/barneshut_ityr.cpp:328-341 | one counting pass is the stable arrangement by the digit |
| RadixSort.PassSorted | ItoyoriFBC/src/barneshut_ityr.cpp:319-344 | a stable pass sorts by one more digit |
| RadixSort.RadixSortKeypairs | ItoyoriFBC/src/barneshut_ityr.cpp:322-344 | the array ends as a permutation sorted by key and, for equal keys, by index |
| MergeHeap.MinHeap.Push | ItoyoriFBC/src/barneshut_ityr.cpp:497-508 | the hole-based sift-up keeps the heap and adds one head |
| MergeHeap.MinHeap.Pop | ItoyoriFBC/src/barneshut_ityr.cpp:509-526 | removes a least head by key, then run, and keeps the heap |
| KwayMerge.TopIsNext | ItoyoriFBC/src/barneshut_ityr.cpp:527-533 | the least head by (key, run) is the least remaining pair by (key, index) over all runs |
| KwayMerge.EmitRuns | ItoyoriFBC/src/barneshut_ityr.cpp:527-534 | the loop writes the sorted arrangement of what lies between the cursors, and nothing else |
| SliceSort.SortBlock | ItoyoriFBC/src/barneshut_ityr.cpp:366-373 | a block is sorted with its elements' global indices |
| SliceSort.RankRun | ItoyoriFBC/src/barneshut_ityr.cpp:374-431 | a rank's blocks merge into its sorted run |
| SliceSort.Select | ItoyoriFBC/src/barneshut_ityr.cpp:464-472 | the greatest value with at most j keys below it |
| SliceSort.Cuts | ItoyoriFBC/src/barneshut_ityr.cpp:473-492 | the cuts take all lesser keys and share the equal ones by run order |
| SliceSort.CutSplits | ItoyoriFBC/src/barneshut_ityr.cpp:473-492 | everything before the cuts is less, by (key, index), than everything after |
| SliceSort.ChunkCut | ItoyoriFBC/src/barneshut_ityr.cpp:464-492 | the cuts at j separate exactly the first j elements of the sorted slice |
| SliceSort.EmitChunk | ItoyoriFBC/src/barneshut_ityr.cpp:447-534 | a rank's chunk is that stretch of the sorted slice, written there and nowhere else |
| SliceSort.SliceKeysPhase | ItoyoriFBC/src/barneshut_ityr.cpp:351-535 | for any number of ranks and any block size the chunks together are the slice sorted by (key, index) |
| KeyMerge.FindSplit | ItoyoriFBC/src/barneshut_ityr.cpp:639-649 | the binary search finds a split of the two runs with o elements before it, ties to the left run |
| KeyMerge.SplitAll | ItoyoriFBC/src/barneshut_ityr.cpp:639-649 | everything before such a split is less than everything after |
| KeyMerge.MergeChunk | ItoyoriFBC/src/barneshut_ityr.cpp:650-671 | a rank's chunk of a pair's output is that stretch of the stable merge, and nothing else is written |
| KeyMerge.MergeRound | ItoyoriFBC/src/barneshut_ityr.cpp:620-682 | a round merges neighbouring groups and copies an odd one, halving their number |
| KeyMerge.MergeRounds | ItoyoriFBC/src/barneshut_ityr.cpp:610-683 | all rounds, between two buffers in turn, end with the stable merge of all nodes' runs |
| KeyMerge.RecordShare | ItoyoriFBC/src/barneshut_ityr.cpp:684-689 | a rank notes the places of the node's elements in its own stretch, and touches no other position |
| KeyMerge.MergeKeysParallel | ItoyoriFBC/src/barneshut_ityr.cpp:572-691 | every node gets the same sorted keys, and each of its elements its place in the order by key, node, index |
| KeyMerge.PositionsClimb | ItoyoriFBC/src/barneshut_ityr.cpp:684-689 | a node's positions strictly increase along its run |
| Redistribution.ComputeSliceLayout | ItoyoriFBC/src/barneshut_ityr.cpp:239-248 | the slice bounds climb from 0 to n; each inner one is a multiple of the granularity and less than one granule a node short of the even share |
| Redistribution.CountDestinations | ItoyoriFBC/src/barneshut_ityr.cpp:766-783 | the counts are how many positions fall into each slice |
| Redistribution.Displacements | ItoyoriFBC/src/barneshut_ityr.cpp:796-803 | the displacements are where each destination's stretch begins |
| Redistribution.PieceOf | ItoyoriFBC/src/barneshut_ityr.cpp:766-803 | the packed pairs for a destination are one contiguous stretch |
| Redistribution.Receive | ItoyoriFBC/src/barneshut_ityr.cpp:786-816 | a node receives from all nodes exactly the pairs whose positions lie in its slice, each with its body |
| Redistribution.ReceivedAll | ItoyoriFBC/src/barneshut_ityr.cpp:796-802 | as many pairs arrive as the slice is long, one for each place |
| Redistribution.ScatterShare | ItoyoriFBC/src/barneshut_ityr.cpp:820-834 | a rank writes its own pairs' slots and no other |
| Redistribution.Scatter | ItoyoriFBC/src/barneshut_ityr.cpp:820-836 | every live slot gets the body its position names |
| GlobalSort.MergedIsSorted | ItoyoriFBC/src/barneshut_ityr.cpp:565-698 | the stable merge of the slices' sorted runs is the sequential sort of all keys |
| GlobalSort.SortAndRedistribute | ItoyoriFBC/src/barneshut_ityr.cpp:1458-1475 | the live slices in node order are the bodies in global (key, index) order, and every node has the same replica of the sorted keys, for any number of nodes and ranks |
| BuildStep.BuildAll | ItoyoriFBC/src/barneshut_ityr.cpp:1458-1503 | one step's sort and tree builds: slices, replicas, and on every node an array that unfolds to the plan's tree over the sorted keys |
| BuildStep.Step | ItoyoriFBC/src/barneshut_ityr.cpp:1458-1556 | and its forces: every node ends with every body's walk through that tree, which stands for every other body exactly once |
| ForceWalk.WalkCompact | ItoyoriFBC/src/barneshut_common.hpp:252-272 | the walk of one body meets, in order, the sources of the unfolded tree |
| ForceWalk.SourcesAre | ItoyoriFBC/src/barneshut_common.hpp:252-272 | a walk's sources are exactly the accepted cells and the bodies, itself left out, of the leaves that are reached through divided cells not accepted |
| ForceWalk.WalkMeetsAll | ItoyoriFBC/src/barneshut_common.hpp:252-272 | whatever is accepted, the sources stand for every other body of the tree exactly once, in order |
| ForceWalk.BuildShallow | ItoyoriFBC/src/barneshut_common.hpp:296-332 | the build makes leaves by the last level and at most eight children per node |
| ForceWalk.LaneWalker.PushKids | ItoyoriFBC/src/barneshut_simd.hpp:98-101 | pushing children last-first never passes the 7*NLEVELS+8 frames |
| ForceWalk.LaneWalker.WalkCompactN | ItoyoriFBC/src/barneshut_simd.hpp:65-103 | every lane of the mask gets exactly its own walk's interactions, in order, itself left out; other lanes nothing |
| Forces.ParFor | ItoyoriFBC/src/barneshut_ityr.cpp:289-305 | the recursive split yields exactly the chunks, in order |
| Forces.ChunksJoin | ItoyoriFBC/src/barneshut_ityr.cpp:289-305 | splitting at a chunk boundary loses and changes no chunk |
| Forces.ForceTask | ItoyoriFBC/src/barneshut_ityr.cpp:1508-1544 | a task marks its chunks on its node, writes each of its bodies' own walk, by lanes and tail, and no other slot |
| Forces.TaskKeeps | ItoyoriFBC/src/barneshut_ityr.cpp:1508-1544 | whichever node runs a chunk, finished chunks are marked on one node each and their forces are right there |
| Forces.CombineReady | ItoyoriFBC/src/barneshut_ityr.cpp:1546-1556 | after the last task the masks partition the chunks and every node is right where it marked |
| Forces.PlanPulls | ItoyoriFBC/src/barneshut_ityr.cpp:1681-1701 | the runs planned are owned by one other node each and cover exactly the chunks not owned here |
| Forces.CombineAccel | ItoyoriFBC/src/barneshut_ityr.cpp:1625-1757 | reading the other nodes' arrays, a node makes its own whole array right and changes no other |
| Forces.PullKeeps | ItoyoriFBC/src/barneshut_ityr.cpp:1702-1733 | an element pulled from a node that may itself be pulling is right |
| Forces.EveryRunCompletes | ItoyoriFBC/src/barneshut_ityr.cpp:1508-1757 | from zeroed arrays, for every node that steals each chunk, every order of the tasks and every interleaving of the planned pulls: the masks partition the chunks and every node's whole array is the sequential forces |
| Forces.SomeStep | ItoyoriFBC/src/barneshut_ityr.cpp:1508-1757 | before that end some task, plan or pull is possible |
| Forces.ForcesPhase | ItoyoriFBC/src/barneshut_ityr.cpp:1546-1757 | the phase as the program runs it, tasks on any nodes and then the combines, leaves every node with the sequential forces |
| BlockedEnergy.SumAddsAll | ItoyoriFBC/src/barneshut_common.hpp:345-366 | for any block size the blocked sum misses no body and repeats none |
| BlockedEnergy.BlockedSum | ItoyoriFBC/src/barneshut_common.hpp:345-366 | the sequential sum, one-block shortcut included, is the fixed tree over serial block sums, and adds the term of every body once, in index order |
| BlockedEnergy.MultipleAligns | ItoyoriFBC/src/barneshut_ityr.cpp:1914-1920 | slices whose granularity is a multiple of the block size end at block bounds |
| BlockedEnergy.BlockInSlice | ItoyoriFBC/src/barneshut_ityr.cpp:1914-1926 | every block lies inside its owner's slice |
| BlockedEnergy.OwnersClimb | ItoyoriFBC/src/barneshut_ityr.cpp:1921-1926 | owners do not decrease along the blocks |
| BlockedEnergy.MyRange | ItoyoriFBC/src/barneshut_ityr.cpp:1931-1941 | the two scans find a range that is exactly the node's own blocks |
| BlockedEnergy.KineticBlock | ItoyoriFBC/src/barneshut_ityr.cpp:1946-1957 | a block summed from its owner's live slice alone is the sequential block sum: alignment keeps every read inside the slice |
| BlockedEnergy.KineticSum | ItoyoriFBC/src/barneshut_ityr.cpp:1914-1987 | from aligned slices the distributed kinetic sum is the sequential blocked sum, operation for operation, and adds the term of every body once, in order |
| BlockedEnergy.PotentialSum | ItoyoriFBC/src/barneshut_ityr.cpp:1927-1987 | so is the potential sum, whose blocks are dealt out evenly |
| EssentialTree.MinDistanceIsLeast | hpx/src/bounding_box.cpp:13-21 | no two points of the boxes are closer than min_distance_sq |
| EssentialTree.MinDistanceAttained | hpx/src/bounding_box.cpp:13-21 | two points of the boxes are exactly that close |
| EssentialTree.OpeningFails | hpx/src/exchange.cpp:154-161 | the criterion fails if and only if it fails for some bucket box |
| EssentialTree.FailsExactly | hpx/src/exchange.cpp:147-161 | a box fails the test exactly when some point of the cell and some point of the box are too close for the cell's size |
| EssentialTree.CellSize | hpx/src/bounding_box.cpp:88-112 | the size tested is the side of a cubic cell of its depth |
| EssentialTree.PushChildren | hpx/src/exchange.cpp:167-182 | exactly the children of the mask are pushed; the test against 256 never drops one |
| EssentialTree.CreateInteractionListForRank | hpx/src/exchange.cpp:120-199 | each record has the key, mass and mark of its kept cell; the cells kept are a non-nested cover of all leaves with the root's mass, each a leaf, at the depth cap, or passing the criterion; every cell of the tree around a kept cell could be opened and failed for some box, so a root that need not be opened is the only record; empty for an empty tree or no boxes |
| EssentialTree.RootAlone | hpx/src/exchange.cpp:145-186 | a root that passes for every box, is a leaf or is at the cap is all that is kept |
| EssentialTree.KidAround | hpx/src/exchange.cpp:166-181 | the cells around a child are the opened cells around its parent and the parent itself, whatever else the tree holds |
| EssentialTree.CoveredOnce | hpx/src/exchange.cpp:190-198 | no key position is covered twice |
| EssentialTree.KeptCellsSmall | hpx/src/exchange.cpp:147-161 | a kept cell above the cap that is no leaf meets the criterion for every point of it against every point of every destination box |
| EssentialTree.BodyInCell | hpx/src/bounding_box.cpp:88-112 | the box of a cell contains the last-level box of every key the cell covers, for corners decoded from the keys |
| EssentialTree.Decoded | hpx/src/morton_keys.cpp:24-65 | decoding a key gives back the coordinates that were interleaved, at every level and along every axis |
| EssentialTree.PointInOwnCell | hpx/src/morton_keys.cpp:67-111 | a point's key decodes to a last-level cell that holds the point |
| EssentialTree.PointInCells | hpx/src/bounding_box.cpp:88-112 | and so does every cell that covers the key |
| EssentialTree.KeptBodiesSmall | hpx/src/exchange.cpp:147-161 | so the criterion holds for every body of the box whose key the kept cell covers |

## Left out

- Object references and aliasing: nodes are entries of maps from cells, so a child or parent link is a key; the offsets that Serialization turns into links are the exception. What the classes update in place is these maps and sequences.
- Moments are masses: boxes, centres of mass and opening radii are not part of the Charm++ model, and the opening test is an arbitrary predicate on bucket and node. The masses are reals.
- The force kernels, packet walks and interaction lists: a hit stands for the interactions with one node or one bucket. `-walkgroup` packets change the kernel, not which nodes are met.
- Requests that reach a PE before its tree is ready stay in the network instead of in its buffers; requests and replies are delivered in any order.
- WalkingPEs.WalkingPE.DoRemoteGravity: the requests of one walk are sent after the walk, in the order in which it met the leaves, rather than during it; nothing reads the tables in between.
- WalkingPEs.WalkingPE.ReceiveReply: both request tables are one map and all requestor lists one sequence, since no node is in both and each key's requestors keep their order.
- ParticleExchange.ParticleExchanger.TryProcessParticles: the particles are taken in arrival order; the quickSort after it, and with it the order of equal keys, is not part of the model.
- Histogram.ReceiveHistogram: weights are arbitrary numbers; the warning, the balance report and the abort of a run whose bodies all share one key are left out.
- The hash of servingOwner is an arbitrary function of asker and node.
- MomentsSystem.QuietMeansReady: speaks of one step of the simulation; resetting tables between steps is left out.
- KeyMerge.MergeRounds: a triple is a pair of key and position in the gathered keys, and the two-run fast path that reads keys without triples is the first of these rounds.
- GlobalSort.SortAndRedistribute: the single-node shortcut is the general path with one slice, and all nodes have the same number of ranks; the barriers are the sequence of the calls, the exchanges their arguments.
- CooperativeBuild.BuildTreeSpmd: sizes and offsets are arrays beside the plan nodes; remote puts and local folds are the same writes.
- BuildPlan.PlanNodeStruct: parent links are set as the program sets them, and nothing is said of them, since nothing reads them.
- SliceSort.RankRun: a rank's run is returned, and its place in the shared buffer left out.
- Redistribution.CountDestinations: the ranks' histograms and their sum are one count over the whole run.
- Forces.CombineAccel: masks are sets of chunk numbers, and a pull copies single elements; a task is one step, since tasks of different chunks share no element.
- EssentialTree.CreateInteractionListForRank: arithmetic is over the reals, records carry no centre of mass, and the octree's documented invariants are a hypothesis; the cells around a kept one are those whose key is a prefix, as every key the build makes is (`hpx/src/linear_octree.cpp:86`).
- EssentialTree.Decoded: the masks and shifts that spread and compact the bits are one interleaving of bits.
- Integer widths: keys are natural numbers shown to fit their words where they are used as such; counts and indices are unbounded.
- The runtimes, I/O, file formats, particle generation, time integration, diagnostics, load balancing, and the other engines of the repository.
