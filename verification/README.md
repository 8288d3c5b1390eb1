# Route planner core in Dafny

This project models the core of a small Java route planner: a road map is a weighted graph of points or
locations, connected by roads in both directions. The planner finds shortest routes between them with
Dijkstra's algorithm. The repository has several versions of that search:

- `Algorithms.computeShortestPathsFrom` over the vertices' own cost, parent and visited fields;
- `graph.PathFinder.dijkstra`, driven by a `MinVertexPQ`;
- the `graph.search` finders over search nodes created on demand or for every vertex;
- the two `RoutePlanner` facades, one in the main package and one in the school (`schule`) package;
- `RoadMapPathFinder`, which also prints every route between every pair of locations.

Two map readers build road maps from the lines of a map file.

Every search is proved against one specification (`Paths`). A path is a chain of edges, and the shortest
distance is the minimum over all paths. `ShortestPathTree` says that every vertex carries its shortest
distance and that every parent link is an edge realising it. The invariant set of the search lives in
`DijkstraCore`, and every loop of the repository is proved by the same steps (`Relaxation`). Those
steps establish four facts:

- costs only decrease;
- an expanded vertex is never improved;
- the queue holds no duplicates;
- when the queue runs empty, every reachable vertex has its shortest distance and a parent chain, and
  exactly the reachable vertices were expanded.

Route reconstruction (`Routes`) proves that the parent walk to a reachable goal is a shortest path, and
that the walk to an unreachable goal is the goal alone.

Modelling choices:

- Java `float` costs are exact reals. `Float.POSITIVE_INFINITY` is the explicit cost `Inf`.
- Vertex objects are identified by their string keys.
- A `java.util.PriorityQueue` is the sequence of its entries. `poll` returns some entry of least cost;
  the model leaves the tie order open.
- `Float.parseFloat` is a parameter `parse: string -> Option<real>`; `None` is a NumberFormatException.
- A map file is the sequence of its lines.
- The `onNewPathFound` callbacks are a trace of `PathFound` events.

## Model

| member | source | states |
|---|---|---|
| Costs.Plus | src/main/java/de/amr/routeplanner/graph/Algorithms.java:59 | `u.cost + w`: +infinity absorbs every finite weight; a finite cost adds the weight |
| Costs.CostOf | src/main/java/de/amr/routeplanner/graph/MinVertexPQ.java:49-51 | `getOrDefault(v, +infinity)`: a key without an entry costs +infinity, any other its entry |
| Costs.BelowIsStrictTotalOrder | src/main/java/de/amr/routeplanner/graph/MinVertexPQ.java:45 | the `Float.compare` order on costs is irreflexive, transitive and total |
| Paths.PathAppend | src/main/java/de/amr/routeplanner/graph/Algorithms.java:57-59 | a path to `u` followed by an outgoing edge of `u` is a path to its target, costing the sum |
| Paths.PathCostNonNegative | src/main/java/de/amr/routeplanner/graph/Algorithms.java:40 | with non-negative weights no path costs less than zero |
| Paths.SourceAtZero | src/main/java/de/amr/routeplanner/graph/Algorithms.java:51 | the source's shortest distance from itself is 0 |
| Paths.TreeKeepsCosts | src/main/java/de/amr/routeplanner/graph/search/ShortestPathFinder.java:53-55 | cost tables that agree on the graph's vertices describe the same shortest-path tree |
| Graphs.Vertex.constructor | src/main/java/de/amr/routeplanner/graph/Vertex.java:43-45 | a new vertex has its id, no edges, no parent, cost 0 and is unvisited |
| Graphs.Vertex.SetParent | src/main/java/de/amr/routeplanner/graph/Vertex.java:55-57 | the parent field becomes the argument |
| Graphs.Vertex.SetCost | src/main/java/de/amr/routeplanner/graph/Vertex.java:63-65 | the cost field becomes the argument |
| Graphs.Vertex.SetVisited | src/main/java/de/amr/routeplanner/graph/Vertex.java:71-73 | the visited field becomes the argument |
| Graphs.Vertex.AddOutgoingEdge | src/main/java/de/amr/routeplanner/graph/Vertex.java:75-80 | exactly one edge from this vertex is appended; earlier edges keep their order |
| Graphs.Vertex.OutgoingEdges | src/main/java/de/amr/routeplanner/graph/Vertex.java:82-84 | every outgoing edge starts at this vertex |
| Graphs.AddArc | src/main/java/de/amr/routeplanner/graph/Graph.java:66-68 | a directed edge is appended to the source's list and no other list changes |
| Graphs.FlattenContents | src/main/java/de/amr/routeplanner/graph/Graph.java:57-59 | an edge is in the flattened lists exactly when it is an outgoing edge of a listed vertex |
| Graphs.Graph.constructor | src/main/java/de/amr/routeplanner/graph/Graph.java:40 | a new graph has no vertices, no edges and empty search tables |
| Graphs.Graph.AddVertex | src/main/java/de/amr/routeplanner/graph/Graph.java:42-47 | a key already present is refused and nothing changes; otherwise the vertex is added last, without edges, in the initial search state |
| Graphs.Graph.Vertex | src/main/java/de/amr/routeplanner/graph/Graph.java:49-51 | present exactly for a stored key, and then the stored vertex |
| Graphs.Graph.Vertices | src/main/java/de/amr/routeplanner/graph/Graph.java:53-55 | every key exactly once |
| Graphs.EdgesAreAllOutgoingEdges | src/main/java/de/amr/routeplanner/graph/Graph.java:57-59 | `edges()` lists exactly the outgoing edges of all vertices, as many as they have |
| Graphs.Graph.AddEdge | src/main/java/de/amr/routeplanner/graph/Graph.java:61-64 | the edge is added in both directions with the same weight |
| Graphs.Graph.AddDirectedEdge | src/main/java/de/amr/routeplanner/graph/Graph.java:66-68 | only the source's list grows, by one edge |
| Graphs.AddEdgeBothWays | src/main/java/de/amr/schule/routeplanner/graph/Graph.java:58-61 | between distinct vertices `a` gains `a -> b`, `b` gains `b -> a`, and no other list changes |
| Graphs.DirectedEdgeOneWay | src/main/java/de/amr/schule/routeplanner/graph/Graph.java:63-65 | a directed edge adds nothing to its target's list |
| Graphs.DuplicateEdgeKept | src/main/java/de/amr/routeplanner/graph/Graph.java:66-68 | the same directed edge added twice is kept twice |
| QueueContents.RemoveFirst | src/main/java/de/amr/routeplanner/graph/search/SearchNodePQ.java:60-65 | one occurrence fewer of `x`; a queue without `x` is unchanged |
| QueueContents.RemoveThenAppend | src/main/java/de/amr/routeplanner/graph/MinVertexPQ.java:63-68 | remove-then-add keeps the queue free of duplicates, with `x` queued once |
| QueueContents.RemoveFirstOfDistinct | src/main/java/de/amr/routeplanner/graph/MinVertexPQ.java:70-75 | on distinct keys removal deletes the key outright |
| PriorityQueues.MinimumExists | src/main/java/de/amr/routeplanner/graph/search/SearchNodePQ.java:49-53 | every non-empty queue has an entry of least cost |
| PriorityQueues.SearchNodePQ.constructor | src/main/java/de/amr/routeplanner/graph/search/SearchNodePQ.java:41-43 | a new queue is empty |
| PriorityQueues.SearchNodePQ.IsEmpty | src/main/java/de/amr/routeplanner/graph/search/SearchNodeMinPQ.java:47-49 | true exactly when no entry is queued |
| PriorityQueues.SearchNodePQ.Insert | src/main/java/de/amr/routeplanner/graph/search/SearchNodePQ.java:55-58 | one more occurrence of the node |
| PriorityQueues.SearchNodePQ.Remove | src/main/java/de/amr/routeplanner/graph/search/SearchNodeMinPQ.java:62-67 | reports whether the node was queued and removes one occurrence of it |
| PriorityQueues.SearchNodePQ.ExtractMin | src/main/java/de/amr/routeplanner/graph/search/SearchNodeMinPQ.java:51-55 | null on an empty queue, otherwise an entry of least cost, removed once |
| PriorityQueues.MinVertexPQ.constructor | src/main/java/de/amr/routeplanner/graph/MinVertexPQ.java:44-47 | empty queue, empty cost table |
| PriorityQueues.MinVertexPQ.Cost | src/main/java/de/amr/routeplanner/graph/MinVertexPQ.java:49-51 | a vertex never updated costs +infinity, any other its recorded cost |
| PriorityQueues.MinVertexPQ.IsEmpty | src/main/java/de/amr/routeplanner/graph/MinVertexPQ.java:53-55 | true exactly when no vertex is queued |
| PriorityQueues.MinVertexPQ.ExtractMinCostVertex | src/main/java/de/amr/routeplanner/graph/MinVertexPQ.java:57-61 | null on an empty queue, otherwise a vertex of least recorded cost, which leaves the queue |
| PriorityQueues.MinVertexPQ.Update | src/main/java/de/amr/routeplanner/graph/MinVertexPQ.java:63-68 | records the cost and requeues the vertex: queued exactly once afterwards, no duplicates |
| PriorityQueues.MinVertexPQ.Remove | src/main/java/de/amr/routeplanner/graph/MinVertexPQ.java:70-75 | reports whether the vertex was queued and removes it |
| DijkstraCore.Seed | src/main/java/de/amr/routeplanner/graph/Algorithms.java:46-52 | after the reset and seeding, the search invariant holds |
| DijkstraCore.FrontierWitness | src/main/java/de/amr/routeplanner/graph/Algorithms.java:53-56 | a path leaving the expanded vertices passes a queued vertex that costs no more than the path |
| DijkstraCore.ExtractedIsExact | src/main/java/de/amr/routeplanner/graph/Algorithms.java:54 | a queued vertex of least cost carries its shortest distance |
| DijkstraCore.SettleMin | src/main/java/de/amr/routeplanner/graph/Algorithms.java:54-56 | the polled vertex was not expanded before, and expanding it keeps the invariant |
| DijkstraCore.ImprovedRealised | src/main/java/de/amr/routeplanner/graph/Algorithms.java:59-60 | an improving cost is the cost of a real path, and its target is not expanded |
| DijkstraCore.ImprovedParents | src/main/java/de/amr/routeplanner/graph/Algorithms.java:64 | the new parent link is a realising edge from an expanded vertex |
| DijkstraCore.ImprovedRanked | src/main/java/de/amr/routeplanner/graph/Algorithms.java:64 | parent walks still terminate after the new link |
| DijkstraCore.ImprovedCosts | src/main/java/de/amr/routeplanner/graph/Algorithms.java:63 | every finite cost stays the cost of some path |
| DijkstraCore.ImprovedCore | src/main/java/de/amr/routeplanner/graph/Algorithms.java:60-65 | lowering the cost of an unexpanded vertex keeps every core clause |
| DijkstraCore.ImprovedEdges | src/main/java/de/amr/routeplanner/graph/Algorithms.java:60-65 | relaxed edges stay relaxed, and the improving edge becomes relaxed |
| DijkstraCore.ImprovedLowers | src/main/java/de/amr/routeplanner/graph/Algorithms.java:60-63 | a relaxation never raises any cost |
| DijkstraCore.ExpandingIntro | src/main/java/de/amr/routeplanner/graph/Algorithms.java:57 | the clauses of an expansion in progress pack into `Expanding` |
| DijkstraCore.RelaxImproves | src/main/java/de/amr/routeplanner/graph/Algorithms.java:60-65 | an improvement never touches an expanded vertex or the source, lowers costs only, and keeps the invariant |
| DijkstraCore.RelaxSkips | src/main/java/de/amr/routeplanner/graph/Algorithms.java:60 | an edge that does not improve leaves the state as it is |
| DijkstraCore.ExpansionDone | src/main/java/de/amr/routeplanner/graph/Algorithms.java:57-67 | once all edges of the vertex are scanned, the invariant between expansions holds |
| DijkstraCore.Finished | src/main/java/de/amr/routeplanner/graph/Algorithms.java:53-69 | with an empty queue the costs and parents form a shortest-path tree, and the expanded vertices are exactly the reachable ones |
| Relaxation.SeedStep | src/main/java/de/amr/routeplanner/graph/Algorithms.java:51-52 | the seeded queue `[source]` has no duplicates and the invariant holds |
| Relaxation.SettleStep | src/main/java/de/amr/routeplanner/graph/Algorithms.java:54-56 | a polled least-cost entry is never already visited, and the rest of the queue stays duplicate-free |
| Relaxation.ImproveStep | src/main/java/de/amr/routeplanner/graph/Algorithms.java:59-65 | remove-then-insert keeps the queue duplicate-free, no cost rises, the callback reports a real path, and the invariant holds |
| Algorithms.RelaxEdge | src/main/java/de/amr/routeplanner/graph/Algorithms.java:58-66 | one edge step: an improvement lowers one cost, sets the parent and reports the path; otherwise nothing changes |
| Algorithms.ExpandVertex | src/main/java/de/amr/routeplanner/graph/Algorithms.java:57-67 | after the scan every edge out of an expanded vertex is relaxed and the trace is sound |
| Algorithms.Search | src/main/java/de/amr/routeplanner/graph/Algorithms.java:51-69 | the loop ends with a shortest-path tree, exactly the reachable vertices visited, and only real paths reported |
| Algorithms.ComputeShortestPathsFrom | src/main/java/de/amr/routeplanner/graph/Algorithms.java:44-70 | the graph's cost, parent and visited fields end as a shortest-path tree, with exactly the reachable vertices visited and every reported path real |
| Algorithms.ComputeShortestPathsFromSilently | src/main/java/de/amr/routeplanner/graph/Algorithms.java:72-75 | the same outcome with a callback that does nothing |
| VertexSearch.RelaxVertexEdge | src/main/java/de/amr/routeplanner/model/RoutePlanner.java:99-106 | one edge step through `q.update`: the queue stays duplicate-free and the invariant holds with one more edge relaxed |
| VertexSearch.ExpandVertexEdges | src/main/java/de/amr/routeplanner/model/RoutePlanner.java:99-107 | after the scan every edge of the expanded vertex is relaxed |
| VertexSearch.PollVertex | src/main/java/de/amr/routeplanner/model/RoutePlanner.java:96-108 | one loop turn keeps the invariant; either the visited set grows or the queue shrinks |
| VertexSearch.PollUntilEmpty | src/main/java/de/amr/routeplanner/model/RoutePlanner.java:95-109 | the loop ends with an empty queue and the invariant |
| VertexSearch.MinVertexSearch | src/main/java/de/amr/routeplanner/model/RoutePlanner.java:91-110 | the queue's cost table and the parents form a shortest-path tree; exactly the reachable vertices are visited |
| GraphPathFinder.RunAsWritten | src/main/java/de/amr/routeplanner/graph/PathFinder.java:52-68 | the loop as written, after the reset, visits only the source and sets no parent |
| GraphPathFinder.DijkstraAsWritten | src/main/java/de/amr/routeplanner/graph/PathFinder.java:45-69 | as written, every cost stays +infinity, no parent is set and only the source is visited |
| GraphPathFinder.AsWrittenNeverRelaxes | src/main/java/de/amr/routeplanner/graph/PathFinder.java:58-66 | on a two-vertex graph the as-written outcome misses the reachable vertex and is not a shortest-path tree |
| GraphPathFinder.Dijkstra | src/main/java/de/amr/routeplanner/graph/PathFinder.java:45-69 | corrected: the vertex fields end as a shortest-path tree, with exactly the reachable vertices visited |
| GraphPathFinder.SearchVertices | src/main/java/de/amr/routeplanner/graph/PathFinder.java:52-68 | the corrected loop gives a cost for every vertex, a shortest-path tree and the reachable vertices as visited |
| SearchNodes.NodeCosts | src/main/java/de/amr/routeplanner/graph/search/PathFinder.java:49-51 | a vertex without a node costs +infinity, any other its node's cost |
| SearchNodes.Parents | src/main/java/de/amr/routeplanner/graph/search/PathFinder.java:98-111 | the parent links are exactly the nodes' parents |
| SearchNodes.NodeTable | src/main/java/de/amr/routeplanner/graph/search/ShortestPathFinder.java:69-75 | one node per key, read off the search tables |
| SearchNodes.NodeTableKeepsTree | src/main/java/de/amr/routeplanner/graph/search/ShortestPathFinder.java:69-93 | the node table of a finished search carries the same shortest-path tree |
| SearchNodes.FreshNodeKeepsTree | src/main/java/de/amr/routeplanner/graph/search/PathFinder.java:49-51 | creating a fresh node changes neither costs nor parents |
| NodeFinder.PollNode | src/main/java/de/amr/routeplanner/graph/search/PathFinder.java:80-94 | one loop turn keeps the invariant and a sound trace; the unvisited part or the queue shrinks |
| NodeFinder.NodeSearch | src/main/java/de/amr/routeplanner/graph/search/PathFinder.java:73-96 | shortest-path tree, exactly the reachable nodes visited, and real reported paths |
| NodeFinder.SearchTable | src/main/java/de/amr/routeplanner/graph/search/PathFinder.java:73-96 | the node table holds exactly the reachable vertices, all visited, as a shortest-path tree |
| NodeFinder.PathFinder.constructor | src/main/java/de/amr/routeplanner/graph/search/PathFinder.java:49-51 | no nodes and no cached source |
| NodeFinder.PathFinder.Node | src/main/java/de/amr/routeplanner/graph/search/PathFinder.java:49-51 | only once a search has run; a fresh node on first access and the same node afterwards; costs and parents unchanged |
| NodeFinder.PathFinder.ComputeAllPaths | src/main/java/de/amr/routeplanner/graph/search/PathFinder.java:73-96 | the new table has a node for exactly the reachable vertices and is a shortest-path tree |
| NodeFinder.PathFinder.FindPath | src/main/java/de/amr/routeplanner/graph/search/PathFinder.java:98-111 | empty for a missing endpoint; the search reruns only for a new source, and for the cached source the tree's costs and parents stay as they were; a shortest path to a reachable goal and `[goal]` otherwise |
| ShortestPaths.SearchAllNodes | src/main/java/de/amr/routeplanner/graph/search/ShortestPathFinder.java:69-93 | a node for every vertex, a shortest-path tree, visited exactly when reachable, real reported paths |
| ShortestPaths.ShortestPathFinder.constructor | src/main/java/de/amr/routeplanner/graph/search/ShortestPathFinder.java:53-55 | no nodes, no source, nothing reported |
| ShortestPaths.ShortestPathFinder.Node | src/main/java/de/amr/routeplanner/graph/search/ShortestPathFinder.java:53-55 | only once a search has run; null for a vertex without a node; each searched vertex's node carries its shortest distance |
| ShortestPaths.ShortestPathFinder.ComputeShortestPathsFrom | src/main/java/de/amr/routeplanner/graph/search/ShortestPathFinder.java:69-93 | a fresh node per vertex, then a shortest-path tree with exactly the reachable nodes visited |
| ShortestPaths.ShortestPathFinder.ComputeRoute | src/main/java/de/amr/routeplanner/graph/search/ShortestPathFinder.java:95-109 | empty for a missing endpoint or node; a rerun only for a new source; a shortest path to a reachable goal and `[goal]` otherwise |
| Routes.BuildRoute | src/main/java/de/amr/routeplanner/model/RoutePlanner.java:77-83 | the route is the parent walk ending at the goal |
| Routes.UnreachedGoalRoute | src/main/java/de/amr/routeplanner/model/RoutePlanner.java:79-81 | a goal without a parent gives the route `[goal]` |
| Routes.ParentWalkUnique | src/main/java/de/amr/routeplanner/model/RoutePlanner.java:79-81 | the parent links determine the walk |
| Routes.WalkPrefixPath | src/main/java/de/amr/routeplanner/model/RoutePlanner.java:79-81 | each prefix of a walk from the source is a path costing the last stop's cost |
| Routes.RouteIsShortestPath | src/main/java/de/amr/routeplanner/model/RoutePlanner.java:77-83 | the walk to a reachable goal starts at the source and follows a path of shortest cost |
| Routes.SourceCostZero | src/main/java/de/amr/routeplanner/model/RoutePlanner.java:94 | the source carries cost zero |
| Planner.ParentedIsReachable | src/main/java/de/amr/routeplanner/model/RoutePlanner.java:105 | only reachable locations get a parent |
| Planner.WalkOfTree | src/main/java/de/amr/routeplanner/model/RoutePlanner.java:77-83 | the walk is a shortest path to a reachable goal and the goal alone otherwise |
| Planner.RoutePlanner.constructor | src/main/java/de/amr/routeplanner/model/RoutePlanner.java:50-53 | the map, an empty queue, no start location |
| Planner.RoutePlanner.Cost | src/main/java/de/amr/routeplanner/model/RoutePlanner.java:55-57 | after a search, the shortest distance from the start |
| Planner.RoutePlanner.Dijkstra | src/main/java/de/amr/routeplanner/model/RoutePlanner.java:90-110 | the queue's costs and the map's parent links become a shortest-path tree from the start |
| Planner.RoutePlanner.BuildRoute | src/main/java/de/amr/routeplanner/model/RoutePlanner.java:77-83 | the parent walk: a shortest path to a reachable goal, `[goal]` otherwise |
| Planner.RoutePlanner.ComputeRoute | src/main/java/de/amr/routeplanner/model/RoutePlanner.java:65-75 | empty for a missing endpoint; a rerun only for a new start; otherwise as BuildRoute |
| Planner.RoutePlanner.ComputeRouteByName | src/main/java/de/amr/routeplanner/model/RoutePlanner.java:59-63 | unknown names give `[]` and change nothing; the cached start changes nothing; a new start reruns on the current map; a shortest path to a reachable goal, `[goal]` otherwise |
| SchoolPlanner.PollLocation | src/main/java/de/amr/schule/routeplanner/model/RoutePlanner.java:95-111 | without a visited set the polled location is still one never expanded, so the expanded set grows |
| SchoolPlanner.SchoolSearch | src/main/java/de/amr/schule/routeplanner/model/RoutePlanner.java:89-112 | the new cost and parent tables form a shortest-path tree |
| SchoolPlanner.SchoolRoutePlanner.constructor | src/main/java/de/amr/schule/routeplanner/model/RoutePlanner.java:51-53 | the map and no start location |
| SchoolPlanner.SchoolRoutePlanner.Cost | src/main/java/de/amr/schule/routeplanner/model/RoutePlanner.java:55-57 | +infinity for a location without cost; after a search the shortest distance |
| SchoolPlanner.SchoolRoutePlanner.Dijkstra | src/main/java/de/amr/schule/routeplanner/model/RoutePlanner.java:88-113 | new tables holding the shortest-path tree from the start |
| SchoolPlanner.SchoolRoutePlanner.BuildRoute | src/main/java/de/amr/schule/routeplanner/model/RoutePlanner.java:77-83 | the parent walk: a shortest path to a reachable goal, `[goal]` otherwise |
| SchoolPlanner.SchoolRoutePlanner.ComputeRoute | src/main/java/de/amr/schule/routeplanner/model/RoutePlanner.java:65-75 | empty for a missing endpoint; a rerun only for a new start; otherwise as BuildRoute |
| SchoolPlanner.SchoolRoutePlanner.ComputeRouteByName | src/main/java/de/amr/schule/routeplanner/model/RoutePlanner.java:59-63 | unknown names give `[]` and change nothing; the cached start changes nothing; a new start reruns on the current map; a shortest path to a reachable goal, `[goal]` otherwise |
| GeoCoords.MakeGeoCoord | src/main/java/de/amr/routeplanner/model/GeoCoord.java:31-40 | succeeds exactly in range and keeps the values; the latitude is checked first |
| Names.NameLessIrreflexive | src/main/java/de/amr/routeplanner/model/RoadMap.java:43-45 | no name precedes itself |
| Names.NameLessTotal | src/main/java/de/amr/routeplanner/model/RoadMap.java:43-45 | any two names are equal or ordered |
| Names.NameLessTransitive | src/main/java/de/amr/routeplanner/model/RoadMap.java:43-45 | the name order is transitive |
| Names.NameLessAsymmetric | src/main/java/de/amr/schule/routeplanner/model/RoadMap.java:39-41 | never both `a < b` and `b < a` |
| Names.InsertByName | src/main/java/de/amr/routeplanner/model/RoadMap.java:78-80 | insertion adds exactly the one key |
| Names.InsertKeepsSorted | src/main/java/de/amr/routeplanner/model/RoadMap.java:78-80 | inserting into a sorted list keeps it sorted |
| Names.SortByName | src/main/java/de/amr/routeplanner/model/RoadMap.java:78-80 | sorting keeps every key exactly as often as before |
| Names.SortByNameSorted | src/main/java/de/amr/routeplanner/model/RoadMap.java:78-84 | the result is in name order and a permutation of the keys |
| Names.FirstNamed | src/main/java/de/amr/routeplanner/model/RoadMap.java:49-51 | a found index points at a key with that name |
| Names.FirstNamedIsFirst | src/main/java/de/amr/routeplanner/model/RoadMap.java:49-51 | the earliest key with the name is found; nothing is found only when no key has it |
| RoadMaps.RoadMap.constructor | src/main/java/de/amr/routeplanner/model/RoadMap.java:41-47 | an empty map without a cached source |
| RoadMaps.RoadMap.CreateAndAddPoint | src/main/java/de/amr/routeplanner/model/RoadMap.java:72-76 | bad coordinates or a taken id are refused and change nothing; otherwise the point is the newest vertex |
| RoadMaps.RoadMap.AddEdge | src/main/java/de/amr/routeplanner/graph/Graph.java:61-64 | a road both ways between two points |
| RoadMaps.RoadMap.PointsOrderedByLocationName | src/main/java/de/amr/routeplanner/model/RoadMap.java:82-84 | every point exactly as often as it is stored |
| RoadMaps.RoadMap.PointsInNameOrder | src/main/java/de/amr/routeplanner/model/RoadMap.java:82-84 | the points come in non-decreasing order of location name |
| RoadMaps.RoadMap.FindPoint | src/main/java/de/amr/routeplanner/model/RoadMap.java:49-51 | a found point is stored and has that location name |
| RoadMaps.RoadMap.FindPointIsFirst | src/main/java/de/amr/routeplanner/model/RoadMap.java:49-51 | null exactly when no point has the name; otherwise the first such point in name order |
| RoadMaps.RoadMap.Locations | src/main/java/de/amr/routeplanner/model/RoadMap.java:86-88 | one location name per point, in the order of the sorted points |
| RoadMaps.RoadMap.LocationsInNameOrder | src/main/java/de/amr/routeplanner/model/RoadMap.java:86-88 | the names are in non-decreasing order and are exactly the points' names |
| RoadMaps.RoadMap.ComputeRoute | src/main/java/de/amr/routeplanner/model/RoadMap.java:57-70 | empty for a missing endpoint; a rerun only for a new source; a shortest path to a reachable goal and `[goal]` otherwise |
| RoadMaps.RoadMap.ComputeRouteByName | src/main/java/de/amr/routeplanner/model/RoadMap.java:53-55 | an unknown name gives `[]` and changes nothing; the cached source changes nothing; a new source reruns on the current map; a shortest path between the points found when the goal is reachable, `[goal]` otherwise |
| RoadMapPaths.TraceNewPathFound | src/main/java/de/amr/routeplanner/model/RoadMapPathFinder.java:47-56 | a first-path message exactly when the target costs +infinity, otherwise a shorter-path message; names and cost as given |
| RoadMapPaths.TraceSafeDuringSearch | src/main/java/de/amr/routeplanner/model/RoadMapPathFinder.java:50-54 | wherever the search calls the trace, the target has a node and, with a finite cost, a parent |
| RoadMapPaths.WalkStaysInTable | src/main/java/de/amr/routeplanner/model/RoadMapPathFinder.java:72-74 | the parent walk over the nodes never leaves the node table |
| RoadMapPaths.RoadMapPathFinder.constructor | src/main/java/de/amr/routeplanner/model/RoadMapPathFinder.java:45 | no cached source and a finder that has not run |
| RoadMapPaths.RoadMapPathFinder.ComputeRoute | src/main/java/de/amr/routeplanner/model/RoadMapPathFinder.java:62-76 | empty for a missing endpoint or node; a rerun only for a new source; a shortest path to a reachable goal and `[goal]` otherwise |
| RoadMapPaths.RoadMapPathFinder.ComputeRouteByName | src/main/java/de/amr/routeplanner/model/RoadMapPathFinder.java:58-60 | an unknown location name gives `[]` and changes nothing; the cached source changes nothing; a new source reruns on the map; `[]` when the goal has no node; a shortest path between the points found when the goal is reachable, `[goal]` otherwise |
| RoadMapPaths.RoadMapPathFinder.PrintRoute | src/main/java/de/amr/routeplanner/model/RoadMapPathFinder.java:82-84 | one line: its names, and each stop with its shortest distance from the start |
| RoadMapPaths.RoadMapPathFinder.RoutesFrom | src/main/java/de/amr/routeplanner/model/RoadMapPathFinder.java:81-85 | one line per goal; at most one search per start location |
| RoadMapPaths.RoadMapPathFinder.StopsOf | src/main/java/de/amr/routeplanner/model/RoadMapPathFinder.java:83 | one stop per route point, each with its shortest distance |
| RoadMapPaths.RoadMapPathFinder.PrintAllRoutes | src/main/java/de/amr/routeplanner/model/RoadMapPathFinder.java:78-87 | a line for every pair of location names, in name order, with correct stop costs; at most one search per start |
| RoadMapPaths.RoadMapPathFinder.AllRoutes | src/main/java/de/amr/routeplanner/model/RoadMapPathFinder.java:80-86 | the lines of every start location, at most one search each |
| RoadMapPaths.FindAll | src/main/java/de/amr/routeplanner/model/RoadMapPathFinder.java:80-81 | each name is mapped to the point found for it |
| CsvLines.LeadingSpace | src/main/java/de/amr/routeplanner/model/RoadMapReader.java:48 | the leading characters `trim` removes are all at most a space |
| CsvLines.TrailingEnd | src/main/java/de/amr/routeplanner/model/RoadMapReader.java:48 | the trailing characters `trim` removes are all at most a space |
| CsvLines.Trim | src/main/java/de/amr/routeplanner/model/RoadMapReader.java:48 | the result starts and ends above a space and is part of the input |
| CsvLines.TrimIdempotent | src/main/java/de/amr/routeplanner/model/RoadMapReader.java:48 | trimming twice is trimming once; only space is cut off |
| CsvLines.TrimOfTrimmed | src/main/java/de/amr/routeplanner/model/RoadMapReader.java:63 | a trimmed line is left as it is |
| CsvLines.Fields | src/main/java/de/amr/routeplanner/model/RoadMapReader.java:48 | at least one part and none contains a comma |
| CsvLines.JoinFields | src/main/java/de/amr/routeplanner/model/RoadMapReader.java:48 | joining the parts gives the line back |
| CsvLines.FieldsOfJoin | src/main/java/de/amr/routeplanner/model/RoadMapReader.java:48 | comma-free parts joined and cut again are the same parts |
| CsvLines.FieldsOfCommaFree | src/main/java/de/amr/routeplanner/model/RoadMapReader.java:48 | a comma-free string is a single part |
| CsvLines.FieldsAfterPrefix | src/main/java/de/amr/routeplanner/model/RoadMapReader.java:48 | a comma-free prefix before a comma is the first part |
| CsvLines.DropTrailingEmpty | src/main/java/de/amr/routeplanner/model/RoadMapReader.java:48 | only trailing empty parts are dropped, and the last kept part is not empty |
| CsvLines.Split | src/main/java/de/amr/routeplanner/model/RoadMapReader.java:48 | no part contains a comma |
| CsvLines.SplitOfJoin | src/main/java/de/amr/schule/routeplanner/model/RoadMapReader.java:49-51 | a line joined from parts whose last is not empty splits into exactly those parts |
| CsvLines.Tokens | src/main/java/de/amr/schule/routeplanner/model/RoadMapReader.java:49-51 | one trimmed, comma-free token per part |
| CsvLines.TokensOfJoin | src/main/java/de/amr/schule/routeplanner/model/RoadMapReader.java:49-51 | a line written from trimmed tokens is read back as exactly those tokens |
| RoadMapReading.ValidMapData | src/main/java/de/amr/routeplanner/model/RoadMap.java:41 | a map never searched holds well-formed content |
| RoadMapReading.AddRoadKeepsData | src/main/java/de/amr/routeplanner/model/RoadMapReader.java:148 | a road both ways keeps the content well formed and only appends |
| RoadMapReading.AddPoint | src/main/java/de/amr/routeplanner/model/RoadMap.java:72-76 | succeeds exactly for in-range coordinates and a new id, adding the point last without roads |
| RoadMapReading.AddPointKeepsData | src/main/java/de/amr/routeplanner/model/RoadMapReader.java:114-121 | a new point keeps the content well formed and keeps what was there |
| RoadMapReading.LocationEffect | src/main/java/de/amr/routeplanner/model/RoadMapReader.java:91-122 | success adds a point; the read ends exactly when four tokens have a parsing latitude and a non-parsing longitude |
| RoadMapReading.RoadEffect | src/main/java/de/amr/routeplanner/model/RoadMapReader.java:124-150 | never ends the read; success needs three tokens with two known ends and keeps the points |
| RoadMapReading.LocationKeepsData | src/main/java/de/amr/routeplanner/model/RoadMapReader.java:91-122 | a location line keeps the content well formed and extends it |
| RoadMapReading.RoadKeepsData | src/main/java/de/amr/routeplanner/model/RoadMapReader.java:124-150 | a road line keeps the content well formed and extends it |
| RoadMapReading.LineOutcome | src/main/java/de/amr/routeplanner/model/RoadMapReader.java:75-89 | a header switches the state and succeeds; only location lines can end the read |
| RoadMapReading.Step | src/main/java/de/amr/routeplanner/model/RoadMapReader.java:58-68 | each line is counted and at most one report is added, with that line's number; an ended read stays as it is |
| RoadMapReading.ReadAll | src/main/java/de/amr/routeplanner/model/RoadMapReader.java:54-73 | the content stays well formed; all lines are counted unless the read ends |
| RoadMapReading.ReadAllAppend | src/main/java/de/amr/routeplanner/model/RoadMapReader.java:58-68 | reading two pieces in turn is reading the whole |
| RoadMapReading.AbortedIsFinal | src/main/java/de/amr/routeplanner/model/RoadMapReader.java:69-71 | an ended read ignores further lines |
| RoadMapReading.AbortEndsRead | src/main/java/de/amr/routeplanner/model/RoadMapReader.java:107 | a non-numeric longitude ends the read: later lines change nothing |
| RoadMapReading.SkippedLinesOnlyCount | src/main/java/de/amr/routeplanner/model/RoadMapReader.java:60-61 | comment and blank lines are only counted |
| RoadMapReading.PointsAreKept | src/main/java/de/amr/routeplanner/model/RoadMapReader.java:54-73 | the first point read under an id stays; order and road lists only grow |
| RoadMapReading.RefusedAreLines | src/main/java/de/amr/routeplanner/model/RoadMapReader.java:63-66 | the reported line numbers are increasing and name lines already seen |
| RoadMapReading.RoadMapReader.constructor | src/main/java/de/amr/routeplanner/model/RoadMapReader.java:51-52 | no section yet, line number 0 |
| RoadMapReading.RoadMapReader.Read | src/main/java/de/amr/routeplanner/model/RoadMapReader.java:54-73 | a new valid map holding what `ReadAll` reads from the previous section state, and the reported line numbers |
| RoadMapReading.RoadMapReader.ReadLine | src/main/java/de/amr/routeplanner/model/RoadMapReader.java:59-67 | the reader and map move by exactly one `Step` |
| RoadMapReading.RoadMapReader.ProcessLine | src/main/java/de/amr/routeplanner/model/RoadMapReader.java:75-89 | state, content and result are those of `LineOutcome` |
| RoadMapReading.RoadMapReader.ParseLocation | src/main/java/de/amr/routeplanner/model/RoadMapReader.java:91-122 | success, end of read and content are those of `LocationEffect` |
| RoadMapReading.RoadMapReader.ParseRoad | src/main/java/de/amr/routeplanner/model/RoadMapReader.java:124-150 | success and content are those of `RoadEffect` |
| SchoolRoadMaps.SchoolRoadMap.constructor | src/main/java/de/amr/schule/routeplanner/model/RoadMap.java:37 | an empty map |
| SchoolRoadMaps.SchoolRoadMap.GetOrCreateLocation | src/main/java/de/amr/schule/routeplanner/model/RoadMap.java:43-51 | an existing name returns the stored location and changes nothing; otherwise a new location without roads |
| SchoolRoadMaps.SchoolRoadMap.AddRoad | src/main/java/de/amr/schule/routeplanner/model/RoadMap.java:53-55 | a road both ways between the two locations |
| SchoolRoadMaps.SchoolRoadMap.Locations | src/main/java/de/amr/schule/routeplanner/model/RoadMap.java:57-63 | one stored location per vertex |
| SchoolRoadMaps.SchoolRoadMap.LocationNames | src/main/java/de/amr/schule/routeplanner/model/RoadMap.java:65-67 | the names of `locations()`, in the same order |
| SchoolRoadMaps.SchoolRoadMap.LocationsInNameOrder | src/main/java/de/amr/schule/routeplanner/model/RoadMap.java:57-67 | names strictly increasing; exactly the stored locations and names |
| SchoolRoadMaps.DistinctInOrder | src/main/java/de/amr/schule/routeplanner/model/RoadMap.java:57-59 | a permutation of distinct keys has distinct entries |
| SchoolRoadMapReading.GetOrCreate | src/main/java/de/amr/schule/routeplanner/model/RoadMap.java:43-51 | the location stored under the name; an existing name leaves the content as it is |
| SchoolRoadMapReading.GetOrCreateKeepsData | src/main/java/de/amr/schule/routeplanner/model/RoadMap.java:43-51 | the content stays well formed and extends the old one |
| SchoolRoadMapReading.NewAliasResolves | src/main/java/de/amr/schule/routeplanner/model/RoadMapReader.java:115 | every key, including the new one, stands for a stored location |
| SchoolRoadMapReading.AddRoadKeepsData | src/main/java/de/amr/schule/routeplanner/model/RoadMapReader.java:142 | a road both ways keeps the content well formed and only appends |
| SchoolRoadMapReading.LocationOutcome | src/main/java/de/amr/schule/routeplanner/model/RoadMapReader.java:92-116 | the read ends exactly when four tokens have a parsing latitude and a non-parsing longitude |
| SchoolRoadMapReading.RoadOutcome | src/main/java/de/amr/schule/routeplanner/model/RoadMapReader.java:118-143 | only road lists change; mode, count and keys stay |
| SchoolRoadMapReading.LocationKeepsRead | src/main/java/de/amr/schule/routeplanner/model/RoadMapReader.java:92-116 | a location line keeps the reading well formed and extends the content |
| SchoolRoadMapReading.RoadKeepsRead | src/main/java/de/amr/schule/routeplanner/model/RoadMapReader.java:118-143 | a road line keeps the reading well formed and extends the content |
| SchoolRoadMapReading.LineOutcome | src/main/java/de/amr/schule/routeplanner/model/RoadMapReader.java:80-90 | the result stays well formed and extends the content; only location mode ends the read |
| SchoolRoadMapReading.Step | src/main/java/de/amr/schule/routeplanner/model/RoadMapReader.java:67-74 | each line is counted; an ended read stays as it is |
| SchoolRoadMapReading.ReadAll | src/main/java/de/amr/schule/routeplanner/model/RoadMapReader.java:62-78 | stays well formed; every line is counted unless the read ends |
| SchoolRoadMapReading.ReadAllAppend | src/main/java/de/amr/schule/routeplanner/model/RoadMapReader.java:67-74 | reading two pieces in turn is reading the whole |
| SchoolRoadMapReading.AbortedIsFinal | src/main/java/de/amr/schule/routeplanner/model/RoadMapReader.java:75-77 | an ended read ignores further lines |
| SchoolRoadMapReading.AbortEndsRead | src/main/java/de/amr/schule/routeplanner/model/RoadMapReader.java:108 | a non-numeric longitude ends the read: later lines change nothing |
| SchoolRoadMapReading.LocationsAreKept | src/main/java/de/amr/schule/routeplanner/model/RoadMapReader.java:92-116 | a location never changes once it exists; order and road lists only grow |
| SchoolRoadMapReading.SkippedLinesOnlyCount | src/main/java/de/amr/schule/routeplanner/model/RoadMapReader.java:69-71 | comment and blank lines are only counted |
| SchoolRoadMapReading.SchoolRoadMapReader.constructor | src/main/java/de/amr/schule/routeplanner/model/RoadMapReader.java:62-78 | a new valid map, with the fields holding what `ReadAll` reads from a fresh reader |
| SchoolRoadMapReading.SchoolRoadMapReader.ReadLine | src/main/java/de/amr/schule/routeplanner/model/RoadMapReader.java:68-73 | the reader moves by exactly one `Step` |
| SchoolRoadMapReading.SchoolRoadMapReader.ProcessLine | src/main/java/de/amr/schule/routeplanner/model/RoadMapReader.java:80-90 | the result and new state are those of `LineOutcome` |
| SchoolRoadMapReading.SchoolRoadMapReader.ParseLocation | src/main/java/de/amr/schule/routeplanner/model/RoadMapReader.java:92-116 | the result and new state are those of `LocationOutcome` |
| SchoolRoadMapReading.SchoolRoadMapReader.ParseRoad | src/main/java/de/amr/schule/routeplanner/model/RoadMapReader.java:118-143 | the new state is that of `RoadOutcome` |
| SchoolRoadMapReading.ReadMap | src/main/java/de/amr/schule/routeplanner/model/RoadMapReader.java:53-55 | a valid map holding what `ReadAll` reads from a fresh reader |

## Left out

- Java `float` arithmetic: costs are exact reals, and rounding is not modelled. NaN and
  `Float.parseFloat` itself are not modelled; parsing is the parameter `parse`.
- Streams, character decoding and line splitting of the input: a map file is its sequence of lines.
  I/O exceptions are not modelled.
- Logging and printing: `LOGGER` calls, `RoadMap.print` and the `printer` consumer are left out.
  `printAllRoutes` returns its lines instead of printing them. The main reader's error log is the list
  of refused line numbers. The school reader drops bad lines silently, as its code does.
- Java `String` characters are UTF-16 code units; the model uses Dafny characters.
  `Character.isWhitespace` is written out for the characters it names.
- The heap order of `java.util.PriorityQueue`: `poll` returns some entry of least cost, and ties are
  left open. `HashMap` iteration order is the explicit `order` sequence.
- `SearchNode.java`, `VertexPQ.java`, `RoadMapLocation.java`, `Location.java` and `Edge.java` are not
  part of this model. The search node is a datatype with the fields the finders use, and a new node
  (`Fresh`) is assumed to start at cost +infinity, with no parent and unvisited: the guard at
  RoadMapPathFinder.java:50 and both finders' relaxations rely on that. `VertexPQ` is
  modelled by the search-node queue ordered by the vertices' costs. A location is a datatype with a name
  and coordinates.
- Some calls in the source do not match the declared signatures. The model gives each call the meaning
  stated after it:
  - `RoadMap.createAndAddPoint` calls a four-argument `RoadMapPoint` constructor and a one-argument
    `addVertex`: the point is stored under its id;
  - `RoadMap.computeRoute` calls `computeShortestPathsFrom(source)`: the search of
    `Algorithms.computeShortestPathsFrom` on the map;
  - `RoadMapPathFinder` calls `computeShortestPathsFrom(map, currentSource, this::traceNewPathFound)`
    (RoadMapPathFinder.java:69): the node search of `ShortestPathFinder` on the map
    (RoadMapPaths.RoadMapPathFinder.ComputeRoute). The `traceNewPathFound` callback is not passed to
    it; RoadMapPaths.TraceNewPathFound models that callback on its own;
  - `RoadMapPathFinder` calls `map.point` and `map.locationNames`: `findPoint` and `locations()`;
  - Graph.java:67 calls `source.addEdge(target, cost)`, but Vertex.java declares `addOutgoingEdge`:
    the edge is added to the source's outgoing edges;
  - graph/PathFinder.java:60-62 calls `getCost()`, but Vertex.java declares `cost()`: the vertex's own
    cost field (the finding below depends on this reading);
  - model/RoutePlanner.java:79 calls `getParent()`: the vertex's parent field, `parent()`;
  - RoadMap.java:44 and :50 call `locationName()`, but RoadMapPoint.java declares only `location()`:
    the name of the point's location.
- Names.SortByName: the model proves sortedness and permutation, but not the stability of `Stream.sorted`.
- RoadMapPaths.RoadMapPathFinder.PrintAllRoutes: `map.locationNames()` and `findPoint` are evaluated once
  before the loops, not on every iteration. The map does not change inside the loops, so the values are
  the same.
- RoadMapPaths.TraceNewPathFound: the model states when the message can be formed and what it says, not
  the text of the message.
- Every search requires non-negative weights, as Algorithms.java:40 documents, and neither reader checks
  distances. A map with a negative distance is outside what the search contracts cover.
- SchoolRoadMaps.SchoolRoadMap.AddRoad requires both locations to be in the map. The school reader only
  passes locations it resolved from keys.
- GraphPathFinder.Dijkstra computes on values and writes the vertices' fields once at the end. The reset
  (+infinity, no parent, unvisited) is part of that final write: a vertex the search never reaches gets
  exactly those values.
- Concurrency and object identity beyond keys: vertices with equal keys are the same vertex.
- The catch block at schule/routeplanner/model/RoadMapReader.java:109-114 is dead code. The
  `parseFloat` at line 108 already throws outside it, and the exception ends the whole read at line 75.
  The same happens in the main reader at lines 107-113, where the exception ends the read at line 69.
- Graph.addDirectedEdge does not refuse a duplicate edge (Graphs.DuplicateEdgeKept). The model follows
  the code, although src/test/java/dijkstra/GraphTest.java:101-109 expects an exception.
- A goal that the search does not reach yields the route `[goal]` from every `computeRoute`, as the code
  does.

## Findings

| source | as written | input that shows it | evidently intended | confidence | as-written member | corrected member |
|---|---|---|---|---|---|---|
| src/main/java/de/amr/routeplanner/graph/PathFinder.java:58-66 | the relaxation reads `v.getCost()` and `u.getCost()` but only the queue's cost (`q.update`) is written, so every vertex keeps the +infinity of the reset; the guard never holds and no edge is relaxed | the graph `s -> t` with one edge of weight 1: `t` is never visited, has no parent and costs +infinity, and `s` costs +infinity instead of 0 | also write the new cost into the vertex (or read the queue's cost), so every reachable vertex gets its shortest distance and a parent | not executed | GraphPathFinder.DijkstraAsWritten, GraphPathFinder.AsWrittenNeverRelaxes | GraphPathFinder.Dijkstra |
