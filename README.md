# Personalized PageRank for fraud scoring, in Dafny

This project models the core of a fraud-scoring backend. The backend ranks the accounts of a
transaction graph by personalized PageRank (PPR), with the personalization biased toward
accounts already known to be suspicious. The model has three parts.

- **The graph store** (`Graph.SparseGraph`, graph.dfy). It is a weighted graph kept as a dict
  of dicts, source -> target -> weight. It keeps a dense node index in insertion order and an
  edge counter. When the graph is undirected, every edge is stored in both directions. The
  class invariant `Valid` says three things: the two index maps are inverse to each other over
  `0..n-1`; the counter equals the number of stored entries; and an undirected graph stays
  symmetric. Inner dicts are insertion-ordered sequences (`OrderedDicts.Dict`), so the order
  of `get_nodes` and `get_edges` is part of the model.
- **The strategies** (strategies.dfy).
  - The two dangling-node strategies (uniform, teleport) copy a matrix and overwrite the rows
    a mask selects.
  - The two personalization strategies (suspicion-based, transaction-volume) build a weight
    vector from seed maps and normalise it. Each loop of the source is a method over an
    `array`, proved equal to a specification function (`SuspicionRaw`, `VolumeRaw`,
    `Personalization`).
- **The engine** (`PageRank.PowerIterationEngine`, pagerank.dfy).
  - Parameter validation and the default strategies.
  - `build_transition_matrix`: the column normalisation loop over an `array2`, then the
    dangling strategy.
  - The cached personalization vector.
  - The sparse power iteration of `compute_sparse_page_rank`, with its for-else bookkeeping.
    iteration.dfy states this iteration as functions and proves a loop against them.
  - `get_convergence_info`.
  - The top-k ranking (ranking.dfy): a stable insertion sort followed by a Python prefix slice.

Weights, scores and ranks are exact `real`s. Every sum-to-1 property is proved for exact
arithmetic only. Errors that the source raises (a `ValueError` from the constructor, or the
numpy broadcast error of a dangling strategy) are `Failure` results. A Python dict is a map or
an ordered sequence of pairs with distinct keys. An absent optional dict (`None`) is the empty
one, because the source only ever tests such a dict for truthiness.

Where the system's design description and its code disagree, the model follows the code.
- The damping factor d is the weight of the personalization vector in `(1 - d) * rM + d * p`,
  with default 0.85; the design describes the teleport probability with default 0.15.
- There is no error for an empty or all-zero seed map. The suspicion-based vector is then
  returned un-normalised, and the transaction-volume vector falls back to uniform.
- The transition matrix is not column-stochastic after the dangling correction (see Findings).

## Model

| member | source | states |
|---|---|---|
| Graph.SparseGraph.constructor | backend/infrastructure/graph.py:17-28 | A new graph has the given directedness, no node, no entry and an edge count of 0, and satisfies the invariant. |
| Graph.SparseGraph.AddNode | backend/infrastructure/graph.py:30-36 | An unknown node is appended to the node order with the next index (the previous node count) and no edges; a known node changes nothing; the index maps stay inverse and the edge count is unchanged. |
| Graph.AddNodeStore | backend/infrastructure/graph.py:30-36 | Inserting a new node at index `|adj|` keeps the store invariant: both index maps stay inverse, the counter still counts every entry, and symmetry is kept. |
| Graph.SparseGraph.AddEdge | backend/infrastructure/graph.py:38-60 | Missing endpoints are created first (source before target). Source->target is set to the weight. An undirected non-loop edge also sets target->source. The counter grows by the number of entries that are new, and the invariant (count = entries, symmetry) holds afterwards. |
| Graph.SparseGraph.WriteEntries | backend/infrastructure/graph.py:51-60 | Once both endpoints exist: the two dict writes of add_edge, with the counter raised once per new entry; the node index is unchanged. |
| Graph.WriteEdgeSound | backend/infrastructure/graph.py:51-60 | After the writes, u->v is an edge iff it was written or was already there. A written entry carries the new weight and every other entry keeps its own. The entry count grows by the number of new entries. An undirected graph stays symmetric. |
| Graph.AddEdgeStore | backend/infrastructure/graph.py:51-60 | The edge writes keep the store invariant, with the counter raised by the number of new entries. |
| Graph.SparseGraph.RemoveEdge | backend/infrastructure/graph.py:62-79 | Returns true iff source->target existed. When it returns false nothing changes. Otherwise the entry (and in an undirected graph its mirror) is deleted and the counter drops by the number of deleted entries. Nodes are never removed. |
| Graph.RemoveEdgeSound | backend/infrastructure/graph.py:69-76 | In a symmetric graph the mirror entry exists, so the second `del` cannot fail. Exactly the written entries disappear, every other entry keeps its weight, the entry count drops by one or two, and symmetry is kept. |
| Graph.RemoveEdgeStore | backend/infrastructure/graph.py:69-76 | Deleting the edge keeps the store invariant, with the counter lowered by the number of deleted entries. |
| Graph.SparseGraph.GetNeighbors | backend/infrastructure/graph.py:81-83 | The copy holds exactly the out-edges of the node, each with its weight, and is empty for an unknown node. |
| Graph.SparseGraph.GetOutDegree | backend/infrastructure/graph.py:85-88 | The sum of the node's outgoing weights over the node order, and 0 for an unknown node. |
| Graph.OutDegreeSum | backend/infrastructure/graph.py:85-88 | Summing the values of a node's dict equals summing the node's out-edge weight to every node in the node order. |
| Graph.SparseGraph.GetInDegree | backend/infrastructure/graph.py:90-99 | The sum over all nodes of the weight of their edge into the node. |
| Graph.InWeightSymmetric | backend/infrastructure/graph.py:92-93 | In a symmetric (undirected) graph, the in-degree equals the out-degree, so the shortcut the source takes for undirected graphs agrees with the directed loop. |
| Graph.SparseGraph.GetNodes | backend/infrastructure/graph.py:101-103 | The node ids in insertion order. |
| Graph.SparseGraph.Len | backend/infrastructure/graph.py:226-228 | The number of nodes, which is the length of the node list. |
| Graph.SparseGraph.GetEdges | backend/infrastructure/graph.py:105-111 | Every edge, grouped by source in node order and in each dict's order. The list length equals the edge counter. A triple is in the list iff it is a stored edge with that weight. |
| Graph.EdgeListMembers | backend/infrastructure/graph.py:105-111 | A triple (s, t, w) is in the edge list of a node order iff s is in that order and s->t is stored with weight w. |
| Graph.CollectEdges | backend/infrastructure/graph.py:107-111 | The nested append loops build exactly the edge list. |
| Graph.SparseGraph.GetAdjacencyMatrix | backend/infrastructure/graph.py:113-131 | Returns the node ids in insertion order and an n x n matrix whose entry (i, j) is the weight of node i -> node j, or 0 when there is no such edge. |
| Graph.DenseMatrix | backend/infrastructure/graph.py:123-129 | Filling a zero n x n array row by row gives exactly that matrix. |
| Graph.SparseGraph.GetDanglingNodes | backend/infrastructure/graph.py:246-255 | Entry i is true iff node i has no outgoing entry, so an edge of weight 0 still counts as an edge. |
| Graph.DanglingIffNoEdges | backend/infrastructure/graph.py:250-253 | For every indexed node, an empty dict is the same as having no out-edge. |
| Graph.SparseGraph.Subgraph | backend/infrastructure/graph.py:162-186 | A fresh graph with the same directedness. Its nodes are exactly the given nodes that are in the graph. Its edges are exactly the stored edges with both endpoints kept, with the same weights. It satisfies the invariant, and the original graph is not modified. |
| Graph.SubgraphStep | backend/infrastructure/graph.py:182-184 | Copying one edge between kept nodes adds that edge, keeps the copy a sound subgraph (only kept endpoints, original weights) and loses no entry already copied. |
| Graph.CopySource | backend/infrastructure/graph.py:180-184 | Copying the out-edges of one kept source keeps the subgraph sound and marks every kept edge of that source as copied. |
| Graph.Enumerate | backend/infrastructure/graph.py:175 | An iteration order over a set visits each element exactly once. |
| Strategies.HandleDanglingNodes | backend/domain/strategies.py:82-94 | Both strategies: the result is a copy in which every masked row is the strategy's fill and every other row is the input's. When the fill cannot be written to a masked row, the result is an error naming the first such row. |
| Strategies.RowFill | backend/domain/strategies.py:87-125 | Uniform fills a row with 1/n. Teleport without a vector also fills it with 1/n. Teleport with a vector uses numpy broadcasting: the vector is copied if it has one entry per column, repeated if it has length 1, and raises otherwise. |
| Strategies.Broadcast | backend/domain/strategies.py:125 | numpy row assignment succeeds iff the vector has the row's length or length 1. It then copies the vector entry by entry or repeats its one entry. |
| PageRank.ProbeFailure | backend/domain/strategies.py:109-127 | With k dangling columns out of n: the uniform strategy never raises. Teleport without a vector raises iff k < n. Teleport with a vector v raises iff v has neither k entries nor 1. |
| Strategies.NewSuspicionBased | backend/domain/strategies.py:138-143 | The suspicion weight is clamped to at least 1.0 and is kept when it is already at least 1.0. |
| Strategies.IndexMap | backend/domain/strategies.py:154 | The id-to-index map holds exactly the ids of the list, each mapped to a position that holds it. |
| Strategies.IndexMapLast | backend/domain/strategies.py:154 | A duplicated id is mapped to its last position. |
| Strategies.ApplyBaseWeights | backend/domain/strategies.py:160-164 | The base-weight loop replaces the entry of every known id with its weight. It also returns the sum of the weights of known ids, which the transaction-volume loop accumulates. |
| Strategies.ApplyBoosts | backend/domain/strategies.py:167-173 | The suspicion loop multiplies the entry of every known id by 1 + (w - 1) * score. |
| Strategies.SuspicionRawByLoops | backend/domain/strategies.py:157-173 | Running the two loops from the uniform vector gives SuspicionRaw: per node, its base weight or 1/n, multiplied by its boost when it is suspicious. |
| Strategies.SeedOfLast | backend/domain/strategies.py:161-173 | A seed reaches position i iff its id is there and occurs at no later position; it then carries the seed map's value. |
| Strategies.SeedOfIgnoresUnknown | backend/domain/strategies.py:160-173 | Adding to a seed map an id that is not a node changes no entry. |
| Strategies.SuspicionBasedVector | backend/domain/strategies.py:145-180 | The suspicion-based vector is SuspicionRaw scaled to sum 1 when its total is positive, and SuspicionRaw itself otherwise. |
| Strategies.SuspicionBasedSum | backend/domain/strategies.py:175-180 | The vector sums to 1 when the raw total is positive. Otherwise it is the raw vector: there is no error and no fallback. |
| Strategies.SuspicionBasedWithoutSeeds | backend/domain/strategies.py:157 | With no seed map at all, the suspicion-based vector is uniform. |
| Strategies.NormalizedSum | backend/domain/strategies.py:176-178 | Dividing by a positive total gives sum 1, and a non-positive total leaves the vector unchanged. |
| Strategies.ApplyVolumeBoosts | backend/domain/strategies.py:218-223 | The suspicion loop adds score * total_weight / n to the entry of every known id. |
| Strategies.VolumeRawByLoops | backend/domain/strategies.py:206-223 | Running the two loops from a zero vector gives VolumeRaw. Per node, that is its base weight (0 if it has none) plus its suspicion share of the known base weights. |
| Strategies.TransactionVolumeVector | backend/domain/strategies.py:191-232 | With no base weights the vector is uniform. Otherwise it is VolumeRaw scaled to sum 1 when its total is positive, and uniform when it is not. |
| Strategies.TransactionVolumeSumsToOne | backend/domain/strategies.py:199-232 | For a non-empty id list, the transaction-volume vector always sums to 1. |
| Strategies.ComputePersonalizationVector | backend/domain/strategies.py:145-232 | Dispatches on the strategy: the result is the chosen strategy's specification vector. |
| PageRank.NewEngine | backend/domain/pagerank.py:24-58 | An omitted argument takes its Python default: damping factor 0.85, 100 iterations, tolerance 1e-8, the uniform dangling strategy and suspicion-based personalization with weight 5.0. The call fails with "Damping factor must be between 0 and 1" iff the resulting damping factor is not strictly between 0 and 1, so the default never fails. Otherwise it returns a fresh engine with those parameters, all three caches empty, 0 iterations and not converged. |
| PageRank.PowerIterationEngine.constructor | backend/domain/pagerank.py:45-58 | Given a valid damping factor: the fields, the default strategies and empty caches, with 0 iterations and not converged. |
| PageRank.DanglingMask | backend/domain/pagerank.py:84-85 | Entry j is true iff column j of the weighted matrix sums to 0. |
| PageRank.NormalizeColumns | backend/domain/pagerank.py:88-93 | The loop over a zero n x n array leaves the normalised matrix: each column with a positive sum divided by that sum, every other column zero. |
| PageRank.NormalizedColumnSum | backend/domain/pagerank.py:88-93 | Before the strategy runs, a column sums to exactly 1 when its weighted sum is positive, and to 0 otherwise. |
| PageRank.NormalizedZeroColumn | backend/domain/pagerank.py:88-93 | Before the strategy runs, a column without a positive weighted sum (a dangling one among them) is all zero. |
| PageRank.HandledIsOverwrite | backend/domain/pagerank.py:96-98 | The strategy's result on the normalised matrix is RowsOverwritten. It fails iff some column is dangling and the fill raises. Otherwise every row with a dangling index is the fill and every other row is kept. |
| PageRank.PowerIterationEngine.BuildTransitionMatrix | backend/domain/pagerank.py:60-101 | The result is TransitionOf: the weighted matrix (the elementwise product when weights are given), normalised by columns, then passed to the strategy with the dangling mask. A successful result is cached, and no other cache changes. |
| PageRank.TransitionWithoutDangling | backend/domain/pagerank.py:84-98 | Without a dangling column the strategy plays no part: the transition matrix is the normalised matrix, and each column with a positive sum adds up to 1. |
| PageRank.RowFillBreaksColumnSums | backend/domain/pagerank.py:96-98 | The matrix as built is not column-stochastic. For the graph with the single edge 1 -> 0 and the uniform strategy, both columns of the result sum to 1/2. |
| PageRank.ColumnFilled | backend/domain/pagerank.py:84-98 | The corrected construction fills each dangling column instead of the row. It fails in exactly the cases TransitionOf fails, with the same error. |
| PageRank.FillsAreDistributions | backend/domain/strategies.py:87-125 | The uniform fill, and the teleport fill (with no vector, or with a distribution over the n nodes), sum to 1. |
| PageRank.ColumnFilledIsStochastic | backend/domain/pagerank.py:65-98 | With non-negative column sums and a fill that is a distribution, the corrected matrix succeeds and every column sums to 1. |
| PageRank.ColumnFilledColumn | backend/domain/pagerank.py:88-98 | Column j of the corrected matrix sums to 1: it is the fill when j is dangling and the normalised column otherwise. |
| PageRank.PowerIterationEngine.ComputePersonalizationVector | backend/domain/pagerank.py:103-125 | Returns the configured strategy's personalization vector and caches it; no other cache changes. |
| PageRank.PowerIterationEngine.GetConvergenceInfo | backend/domain/pagerank.py:198-212 | Reports the last run's converged flag and iteration count, the damping factor, the tolerance and both strategies. The count is at least 1 and at most max_iterations when converged, and 0 or max_iterations otherwise. |
| PageRank.OutDegrees | backend/domain/pagerank.py:246-248 | out_degree holds the column sums of the weighted matrix, and dangling_mask marks exactly the columns whose sum is zero. |
| PageRank.SparseIterate | backend/domain/pagerank.py:253-312 | From the uniform vector, the power iteration over the weighted matrix, p and the chosen teleport vector returns the iterate where it stopped. A converged run stopped within max_iterations, and an unconverged one reports max_iterations. |
| PageRank.SparseRun | backend/domain/pagerank.py:244-312 | After p is computed, the run fails iff the dangling-strategy probe raises. Otherwise it returns the iterate where the power iteration stopped, with dangling mass teleported along p, and a converged flag and count that the for-else can leave. |
| PageRank.PowerIterationEngine.CacheRun | backend/domain/pagerank.py:305-314 | Caches the rank, the converged flag and the iteration count; the transition matrix and personalization caches are untouched and the engine stays valid. |
| PageRank.Probe | backend/domain/pagerank.py:259-270 | The strategy call on the n x k identity columns of the dangling nodes raises iff the strategy cannot fill a row of k entries. |
| PageRank.TrueIndices | backend/domain/pagerank.py:261 | np.where(mask): the true positions, each exactly once, in increasing order; empty iff no entry is true. |
| PageRank.DanglingTeleport | backend/domain/pagerank.py:256-276 | Fails iff the probe raises. Otherwise the teleport vector is p when some column is dangling and zero when none is, whatever the dangling strategy. |
| Iteration.NonDanglingLoop | backend/domain/pagerank.py:286-292 | The loop over non-dangling columns spreads r[j] along column j divided by its sum. A column with a negative sum contributes nothing. |
| Iteration.DanglingLoop | backend/domain/pagerank.py:294-297 | The loop over dangling columns spreads r[j] along the teleport vector. |
| Iteration.ApplyUpdate | backend/domain/pagerank.py:280-300 | One iteration computes Step: (1 - d) * rM + d * p. |
| Iteration.NextIterate | backend/domain/pagerank.py:280-303 | From the k-th iterate, returns the (k+1)-th iterate and its L1 distance from the k-th. |
| Iteration.PowerIterate | backend/domain/pagerank.py:279-312 | The loop returns the iterate at which it stopped. It stops at the first iteration k whose L1 change is below the tolerance, with converged true and count k + 1. Otherwise it runs max_iterations iterations (none when that is not positive) and reports not converged with count max_iterations. |
| Iteration.BookkeepingMeans | backend/domain/pagerank.py:305-312 | The engine reports converged iff some iteration below max_iterations changed the rank by less than the tolerance. Every iteration before the reported one changed it by at least the tolerance. |
| Iteration.UnconvergedMeans | backend/domain/pagerank.py:305 | "No early stop in the first K iterations" means every one of them changed the rank by at least the tolerance. |
| Iteration.FlowPreservesMass | backend/domain/pagerank.py:284-297 | rM has the same total as r when no column sum is negative and dangling columns teleport along a distribution (or there are none). |
| Iteration.StepKeepsMass | backend/domain/pagerank.py:300 | Under the same conditions, and with p summing to 1, one damped update maps a vector that sums to 1 to a vector that sums to 1. Non-negativity of the entries is not claimed. |
| Iteration.IterateSumsToOne | backend/domain/pagerank.py:279-300 | Under the same conditions, every iterate from a vector that sums to 1 sums to 1. |
| PageRank.PowerIterationEngine.ComputeSparsePageRank | backend/domain/pagerank.py:214-316 | The personalization vector is computed and cached first. The transition matrix cache is untouched. The result fails iff the dangling-strategy probe raises, and then the rank and bookkeeping are unchanged. Otherwise the iteration runs from the uniform vector with dangling mass teleported along p, and the rank and the for-else bookkeeping are cached. The result pairs each node id with its rank. |
| PageRank.SparsePageRankSumsToOne | backend/domain/pagerank.py:254-300 | With non-negative adjacency and weights and a personalization vector that sums to 1, every iterate from the uniform vector sums to 1. |
| PageRank.ZipDictKeys | backend/domain/pagerank.py:316 | The returned scores dict holds every node id exactly once and nothing else. |
| PageRank.ZipDictLookup | backend/domain/pagerank.py:316 | Each id carries the rank at its last position in the id list. |
| PageRank.ZipDictDistinct | backend/domain/pagerank.py:316 | With distinct ids, the scores dict pairs the i-th id with the i-th rank, in id order. |
| Ranking.CandidateAt | backend/domain/pagerank.py:176-191 | The candidate of a node keeps its id and PageRank score. Its key is the combined score pr * (1 + suspicion), with a missing suspicion counted as 0.0; with no suspicion scores, its key is the PageRank score. |
| Ranking.BuildCandidates | backend/domain/pagerank.py:176-191 | Both branches (the loop and the comprehension) build the candidate list of every node, in input order. |
| Ranking.SortDescendingSortedStable | backend/domain/pagerank.py:184-192 | The sort puts keys in non-increasing order and keeps equal keys in input order (Python's stable sort with reverse=True). |
| Ranking.SliceEnd | backend/domain/pagerank.py:195-196 | The length of `l[:k]`: min(k, n) for k >= 0, and max(n + k, 0) for negative k. |
| Ranking.GetTopFraudCandidates | backend/domain/pagerank.py:158-196 | Returns `top_k` results as a Python slice would. Each result is an input node with its own PageRank score, and its suspicion score (0.0 when missing or when no suspicion dict is given). No node appears twice. Keys are non-increasing and ties keep input order. A node left out ranks strictly below every kept node, or ties with it and comes later in the input, so a tie at the cut keeps the earlier node. |
| Ranking.RankingDistinct | backend/domain/pagerank.py:195-196 | A prefix of the stable ranking holds no node twice. |
| Ranking.RankingTop | backend/domain/pagerank.py:184-196 | Every node outside the prefix of the stable ranking has a key below every key inside it, or an equal key and a later input position. |

## Left out

- backend/api/app.py (the REST routes, CORS, the global graph registry, timing and random weights) is not part of this model.
- `computeـpage_rank` (pagerank.py:126-156) is not part of this model. It calls `graph.get_normalized_matrix()`, which no graph class defines.
- `SparseGraph.to_sparse_matrix` (graph.py:230-245) is not part of this model. Its inner loop is dedented out of the outer loop, and no caller uses it.
- `get_sparse_adjacency_matrix` and scipy's sparse formats are not modelled. Sparse matrices are dense `seq<seq<real>>`, and a column is read by index.
- `save_to_file`, `load_from_file`, `__str__` and the `get_description` strings are left out: they are file I/O and text formatting. GetConvergenceInfo reports the strategies themselves in place of their descriptions.
- Floating point is left out: every quantity is an exact `real`. Nothing is claimed about whether, or how fast, the tolerance is reached.
- Aliasing is not modelled: the engine caches the very numpy array it returns, and the model caches a value.
- PageRank.PowerIterationEngine.ComputeSparsePageRank: the Failure carries the first dangling index, but the ensures does not state it. The source raises numpy's broadcast `ValueError`, which carries no index.
- Strategies.HandleDanglingNodes: only the broadcast error of a masked row is modelled. A mask longer than the matrix is an error naming that row, where numpy would raise an `IndexError`.
- Shape mismatches between the adjacency and the weight matrix are excluded by `Shaped`: numpy would broadcast or raise there.
- The iteration order of a Python `set` in `subgraph` is not modelled: `Graph.Enumerate` picks some order. The contract of Subgraph holds for every order.
- Ranking.GetTopFraudCandidates is a module-level method, because it reads no field of the engine.
- The Python default arguments of `SparseGraph(directed=True)`, `add_edge(weight=1.0)` and `get_top_fraud_candidates(top_k=10)` are not applied: Graph.SparseGraph.constructor, Graph.SparseGraph.AddEdge and Ranking.GetTopFraudCandidates take every argument, and the constants Graph.DefaultWeight and Ranking.DefaultTopK record the defaults. The engine's defaults are applied by PageRank.NewEngine.
- The engine does not model `hasattr(self.dangling_strategy, 'handle_dangling_nodes')` (pagerank.py:264, 274-276). Both dangling strategies define the method, so the uniform-teleport fallback branch cannot be reached.
- backend/benchmark is not part of this model (networkx, plotting and wall-clock timing).

## Findings

| source | as written | input that shows it | evidently intended | confidence | as-written member | corrected member |
|---|---|---|---|---|---|---|
| backend/domain/pagerank.py:84-98 with backend/domain/strategies.py:91-92 | `dangling_mask[j]` marks column j (a node without out-weight), but the strategy overwrites ROW j (`adjusted_matrix[i, :]`), which holds the in-links of node j. The matrix that build_transition_matrix returns is not column-stochastic. | adjacency `[[0, 1], [0, 0]]` (a single edge 1 -> 0, node 0 dangling) with the uniform strategy: the result is `[[0.5, 0.5], [0, 0]]`, whose columns both sum to 0.5 | fill dangling COLUMN j with the strategy's distribution, so that every column sums to 1 (the docstring promises a column-stochastic matrix); the sparse iteration already treats dangling mass column-wise | high; not executed | PageRank.RowFillBreaksColumnSums | PageRank.ColumnFilledIsStochastic |
