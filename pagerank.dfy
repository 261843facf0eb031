/**
 * PowerIterationEngine: the personalized PageRank engine. It builds a
 * transition matrix from an adjacency matrix, computes and caches the
 * personalization vector, runs the sparse power iteration and reports on the
 * last run. Node ranks are exact reals.
 */
module PageRank {
  import opened Wrappers
  import opened Vectors
  import opened OrderedDicts
  import opened Strategies
  import opened Iteration

  const DefaultDampingFactor: real := 0.85
  const DefaultMaxIterations: int := 100
  const DefaultTolerance: real := 0.00000001

  // ---------------------------------------------------------------------------
  // Matrices derived from the adjacency
  // ---------------------------------------------------------------------------

  /** The adjacency is n x n and so are the weights, when there are any. */
  ghost predicate Shaped(adj: Matrix, weights: Option<Matrix>, n: nat) {
    IsMatrix(adj, n, n) && (weights.Some? ==> IsMatrix(weights.value, n, n))
  }

  /** No entry is negative. */
  ghost predicate NonNegative(m: Matrix) {
    forall i, j :: 0 <= i < |m| && 0 <= j < |m[i]| ==> m[i][j] >= 0.0
  }

  /** weighted_adj: the adjacency multiplied entry by entry by the weights when there are any,
      the adjacency itself otherwise. */
  function Weighted(adj: Matrix, weights: Option<Matrix>, n: nat): (w: Matrix)
    requires Shaped(adj, weights, n)
    ensures IsMatrix(w, n, n)
  {
    if weights.Some? then Hadamard(adj, weights.value, n, n) else adj
  }

  /** dangling_mask = out_degree == 0: the columns that sum to exactly zero. */
  function DanglingMask(w: Matrix, n: nat): (mask: seq<bool>)
    requires IsMatrix(w, n, n)
    ensures |mask| == n && forall j :: 0 <= j < n ==> (mask[j] <==> Sum(Column(w, j)) == 0.0)
  {
    seq(n, j requires 0 <= j < n => Sum(Column(w, j)) == 0.0)
  }

  /** np.where(mask)[0]: the positions holding true, in increasing order. */
  function TrueIndices(mask: seq<bool>): (idx: seq<nat>)
    ensures |idx| <= |mask|
    ensures forall c :: 0 <= c < |idx| ==> idx[c] < |mask| && mask[idx[c]]
    ensures forall j :: 0 <= j < |mask| && mask[j] ==> j in idx
    ensures forall c, e :: 0 <= c < e < |idx| ==> idx[c] < idx[e]
    ensures |idx| > 0 <==> true in mask
  {
    var idx := TrueFrom(mask, 0);
    assert |idx| > 0 ==> mask[idx[0]];
    idx
  }

  /** The positions from `i` on holding true, in increasing order. */
  function TrueFrom(mask: seq<bool>, i: nat): (idx: seq<nat>)
    requires i <= |mask|
    ensures |idx| <= |mask| - i
    ensures forall c :: 0 <= c < |idx| ==> i <= idx[c] < |mask| && mask[idx[c]]
    ensures forall j :: i <= j < |mask| && mask[j] ==> j in idx
    ensures forall c, e :: 0 <= c < e < |idx| ==> idx[c] < idx[e]
    decreases |mask| - i
  {
    if i == |mask| then []
    else if mask[i] then [i] + TrueFrom(mask, i + 1)
    else TrueFrom(mask, i + 1)
  }

  /** The first position holding true. */
  function FirstTrue(mask: seq<bool>): (i: nat)
    requires true in mask
    ensures i < |mask| && mask[i] && forall j :: 0 <= j < i ==> !mask[j]
  {
    if mask[0] then 0 else 1 + FirstTrue(mask[1..])
  }

  /** np.eye(n)[:, idx]: column c is the unit vector of node idx[c]. */
  function EyeColumns(n: nat, idx: seq<nat>): (e: Matrix)
    requires forall c :: 0 <= c < |idx| ==> idx[c] < n
    ensures IsMatrix(e, n, |idx|)
    ensures forall i, c :: 0 <= i < n && 0 <= c < |idx| ==> e[i][c] == if i == idx[c] then 1.0 else 0.0
  {
    seq(n, i requires 0 <= i < n => seq(|idx|, c requires 0 <= c < |idx| => if i == idx[c] then 1.0 else 0.0))
  }

  /** The matrix the normalisation loop of build_transition_matrix leaves: each column with a
      positive sum divided by that sum, every other column zero. */
  function ColumnNormalized(w: Matrix, n: nat): (t: Matrix)
    requires IsMatrix(w, n, n)
    ensures IsMatrix(t, n, n)
  {
    seq(n, i requires 0 <= i < n => seq(n, j requires 0 <= j < n =>
      if Sum(Column(w, j)) > 0.0 then w[i][j] / Sum(Column(w, j)) else 0.0))
  }

  /** handle_dangling_nodes on an n x n matrix with a mask of n entries: every masked row is
      overwritten with the strategy's fill; or, when some row is masked and the fill raises,
      the first masked row. */
  function RowsOverwritten(strategy: DanglingStrategy, m: Matrix, n: nat, mask: seq<bool>): (r: Result<Matrix, nat>)
    requires IsMatrix(m, n, n) && |mask| == n
    ensures r.Failure? <==> true in mask && RowFill(strategy, n, n).None?
    ensures r.Success? ==> IsMatrix(r.value, n, n)
    ensures r.Success? ==> forall i :: 0 <= i < n ==>
      r.value[i] == if mask[i] then RowFill(strategy, n, n).value else m[i]
  {
    var fill := RowFill(strategy, n, n);
    if true in mask && fill.None? then Failure(FirstTrue(mask))
    else Success(seq(n, i requires 0 <= i < n => if mask[i] then (assert mask[i] in mask; fill.value) else m[i]))
  }

  /** What build_transition_matrix returns for the weighted matrix `w`: the normalised matrix in
      which ROW j is overwritten with the strategy's fill for every dangling COLUMN j; or, when
      there is a dangling column and the fill raises, the first dangling column. */
  function TransitionOf(strategy: DanglingStrategy, w: Matrix, n: nat): (r: Result<Matrix, nat>)
    requires IsMatrix(w, n, n)
  {
    RowsOverwritten(strategy, ColumnNormalized(w, n), n, DanglingMask(w, n))
  }

  /** The data the sparse power iteration uses: dangling columns teleport along the
      personalization vector when there are any; the teleport vector stays zero otherwise. */
  function SparseUpdate(w: Matrix, p: Vector, damping: real, n: nat): (u: Update)
    requires IsMatrix(w, n, n) && |p| == n
    ensures WellShaped(u, n) && u.weighted == w && u.personalization == p && u.damping == damping
  {
    Update(w, if true in DanglingMask(w, n) then p else Fill(n, 0.0), p, damping)
  }

  /** The dangling-strategy call of compute_sparse_page_rank raises: there are k > 0 dangling
      columns and the strategy cannot fill a row of the n x k probe matrix. */
  predicate ProbeFails(strategy: DanglingStrategy, w: Matrix, n: nat)
    requires IsMatrix(w, n, n)
  {
    var k := |TrueIndices(DanglingMask(w, n))|;
    k > 0 && RowFill(strategy, n, k).None?
  }

  /** {node_id: score for node_id, score in zip(node_ids, r)}: a later duplicate id overwrites
      the score of an earlier one but keeps its position. */
  function ZipDict(ids: seq<string>, r: Vector): Dict<string, real>
    requires |ids| == |r|
  {
    if ids == [] then []
    else Put(ZipDict(ids[..|ids| - 1], r[..|r| - 1]), ids[|ids| - 1], r[|r| - 1])
  }

  // ---------------------------------------------------------------------------
  // The engine
  // ---------------------------------------------------------------------------

  /** What get_convergence_info reports. Each strategy stands in for its description. */
  datatype ConvergenceInfo = ConvergenceInfo(
    converged: bool,
    iterationsPerformed: int,
    dampingFactor: real,
    tolerance: real,
    danglingStrategy: DanglingStrategy,
    personalizationStrategy: PersonalizationStrategy)

  /** `dangling_strategy or UniformDanglingStrategy()`. */
  function DanglingOrDefault(s: Option<DanglingStrategy>): (r: DanglingStrategy)
    ensures s.Some? ==> r == s.value
    ensures s.None? ==> r == UniformDangling
  {
    if s.Some? then s.value else UniformDangling
  }

  /** `personalization_strategy or SuspicionBasedPersonalization()`. */
  function PersonalizationOrDefault(s: Option<PersonalizationStrategy>): (r: PersonalizationStrategy)
    ensures s.Some? ==> r == s.value
    ensures s.None? ==> r == NewSuspicionBased(DefaultSuspicionWeight)
  {
    if s.Some? then s.value else NewSuspicionBased(DefaultSuspicionWeight)
  }

  class PowerIterationEngine {
    const dampingFactor: real
    const maxIterations: int
    const tolerance: real
    const danglingStrategy: DanglingStrategy
    const personalizationStrategy: PersonalizationStrategy

    // The caches of the last computations.
    var transitionMatrix: Option<Matrix>
    var personalizationVector: Option<Vector>
    var pageRank: Option<Vector>
    var iterationsPerformed: int
    var converged: bool

    /** The damping factor is strictly between 0 and 1, and the convergence report is one the
        iteration's for-else can leave: a converged run stopped within maxIterations, and an
        unconverged one performed none (no run yet) or all maxIterations. */
    ghost predicate Valid()
      reads this
    {
      && 0.0 < dampingFactor < 1.0
      && (converged ==> 1 <= iterationsPerformed <= maxIterations)
      && (!converged ==> iterationsPerformed == 0 || iterationsPerformed == maxIterations)
    }

    /** __init__ once the damping factor has been checked (NewEngine raises otherwise). */
    constructor (dampingFactor: real, maxIterations: int, tolerance: real,
                 danglingStrategy: Option<DanglingStrategy>,
                 personalizationStrategy: Option<PersonalizationStrategy>)
      requires 0.0 < dampingFactor < 1.0
      ensures Valid()
      ensures this.dampingFactor == dampingFactor && this.maxIterations == maxIterations
      ensures this.tolerance == tolerance
      ensures this.danglingStrategy == DanglingOrDefault(danglingStrategy)
      ensures this.personalizationStrategy == PersonalizationOrDefault(personalizationStrategy)
      ensures transitionMatrix == None && personalizationVector == None && pageRank == None
      ensures iterationsPerformed == 0 && !converged
    {
      this.dampingFactor := dampingFactor;
      this.maxIterations := maxIterations;
      this.tolerance := tolerance;
      this.danglingStrategy := DanglingOrDefault(danglingStrategy);
      this.personalizationStrategy := PersonalizationOrDefault(personalizationStrategy);
      transitionMatrix := None;
      personalizationVector := None;
      pageRank := None;
      iterationsPerformed := 0;
      converged := false;
    }

    /** build_transition_matrix: the matrix TransitionOf describes, cached when it is built. */
    method BuildTransitionMatrix(adj: Matrix, weights: Option<Matrix>) returns (r: Result<Matrix, nat>)
      requires Shaped(adj, weights, |adj|)
      modifies this
      ensures r == TransitionOf(danglingStrategy, Weighted(adj, weights, |adj|), |adj|)
      ensures transitionMatrix == if r.Success? then Some(r.value) else old(transitionMatrix)
      ensures personalizationVector == old(personalizationVector) && pageRank == old(pageRank)
      ensures iterationsPerformed == old(iterationsPerformed) && converged == old(converged)
    {
      var n := |adj|;
      var w := Weighted(adj, weights, n);
      var outDegree, mask := OutDegrees(w, n);
      var t := NormalizeColumns(w, n, outDegree);
      r := HandleDanglingNodes(danglingStrategy, t, n, mask);
      HandledIsOverwrite(danglingStrategy, t, n, mask, r);
      if r.Success? {
        transitionMatrix := Some(r.value);
      }
    }

    /** compute_personalization_vector: the configured strategy's vector, cached. */
    method ComputePersonalizationVector(ids: seq<string>, scores: Dict<string, real>,
                                        baseWeights: Dict<string, real>) returns (p: Vector)
      requires DistinctKeys(scores) && DistinctKeys(baseWeights)
      modifies this
      ensures p == Personalization(personalizationStrategy, ids, scores, baseWeights)
      ensures personalizationVector == Some(p)
      ensures transitionMatrix == old(transitionMatrix) && pageRank == old(pageRank)
      ensures iterationsPerformed == old(iterationsPerformed) && converged == old(converged)
    {
      p := Strategies.ComputePersonalizationVector(personalizationStrategy, ids, scores, baseWeights);
      personalizationVector := Some(p);
    }

    /** get_convergence_info: the report of the last run, which Valid keeps consistent. */
    function GetConvergenceInfo(): (info: ConvergenceInfo)
      reads this
      requires Valid()
      ensures info.converged == converged && info.iterationsPerformed == iterationsPerformed
      ensures info.dampingFactor == dampingFactor && info.tolerance == tolerance
      ensures info.danglingStrategy == danglingStrategy
      ensures info.personalizationStrategy == personalizationStrategy
      ensures 0.0 < info.dampingFactor < 1.0
      ensures info.converged ==> 1 <= info.iterationsPerformed <= maxIterations
      ensures !info.converged ==> info.iterationsPerformed == 0 || info.iterationsPerformed == maxIterations
    {
      ConvergenceInfo(converged, iterationsPerformed, dampingFactor, tolerance,
                      danglingStrategy, personalizationStrategy)
    }

    /** compute_sparse_page_rank: the personalization vector is computed and cached first; the
        dangling strategy is then probed on the dangling columns, and when it raises nothing
        else changes. Otherwise the power iteration runs from the uniform vector, the rank
        and the for-else bookkeeping are cached, and the ranks are returned keyed by node id. */
    method ComputeSparsePageRank(ids: seq<string>, adj: Matrix, weights: Option<Matrix>,
                                 scores: Dict<string, real>, baseWeights: Dict<string, real>)
      returns (r: Result<Dict<string, real>, nat>)
      requires Valid() && Shaped(adj, weights, |ids|)
      requires DistinctKeys(scores) && DistinctKeys(baseWeights)
      modifies this
      ensures Valid()
      ensures personalizationVector == Some(Personalization(personalizationStrategy, ids, scores, baseWeights))
      ensures transitionMatrix == old(transitionMatrix)
      ensures r.Failure? <==> ProbeFails(danglingStrategy, Weighted(adj, weights, |ids|), |ids|)
      ensures r.Failure? ==>
        pageRank == old(pageRank) && converged == old(converged) && iterationsPerformed == old(iterationsPerformed)
      ensures r.Success? ==>
        var n := |ids|;
        var u := SparseUpdate(Weighted(adj, weights, n), personalizationVector.value, dampingFactor, n);
        && Bookkeeping(u, Uniform(n), n, maxIterations, tolerance, converged, iterationsPerformed)
        && pageRank == Some(Iterate(u, Uniform(n), n, if converged || maxIterations > 0 then iterationsPerformed else 0))
        && r.value == ZipDict(ids, pageRank.value)
    {
      var p := ComputePersonalizationVector(ids, scores, baseWeights);
      var run := SparseRun(danglingStrategy, adj, weights, |ids|, p, dampingFactor, maxIterations, tolerance);
      if run.Failure? {
        return Failure(run.error);
      }
      CacheRun(run.value);
      r := Success(ZipDict(ids, run.value.rank));
    }

    /** Caches a finished run: its rank and its for-else bookkeeping. */
    method CacheRun(run: Run)
      requires 0.0 < dampingFactor < 1.0
      requires run.converged ==> 1 <= run.iterations <= maxIterations
      requires !run.converged ==> run.iterations == maxIterations
      modifies this
      ensures Valid()
      ensures pageRank == Some(run.rank) && converged == run.converged && iterationsPerformed == run.iterations
      ensures transitionMatrix == old(transitionMatrix) && personalizationVector == old(personalizationVector)
    {
      pageRank := Some(run.rank);
      converged := run.converged;
      iterationsPerformed := run.iterations;
    }
  }

  /** __init__: an omitted argument takes its Python default (0.85, 100, 1e-8 and the default
      strategies); the call raises (here, a Failure) unless the damping factor is strictly
      between 0 and 1. The default damping factor always passes. */
  method NewEngine(dampingFactor: Option<real>, maxIterations: Option<int>, tolerance: Option<real>,
                   danglingStrategy: Option<DanglingStrategy>,
                   personalizationStrategy: Option<PersonalizationStrategy>)
    returns (r: Result<PowerIterationEngine, string>)
    ensures var d := UnwrapOr(dampingFactor, DefaultDampingFactor); r.Failure? <==> !(0.0 < d < 1.0)
    ensures dampingFactor.None? ==> r.Success?
    ensures r.Failure? ==> r.error == "Damping factor must be between 0 and 1"
    ensures r.Success? ==> fresh(r.value) && r.value.Valid()
    ensures r.Success? ==> r.value.dampingFactor == (if dampingFactor.Some? then dampingFactor.value else 0.85)
    ensures r.Success? ==> r.value.maxIterations == (if maxIterations.Some? then maxIterations.value else 100)
    ensures r.Success? ==> r.value.tolerance == (if tolerance.Some? then tolerance.value else 0.00000001)
    ensures r.Success? ==> r.value.danglingStrategy == DanglingOrDefault(danglingStrategy)
    ensures r.Success? ==> r.value.personalizationStrategy == PersonalizationOrDefault(personalizationStrategy)
    ensures r.Success? ==>
      && r.value.transitionMatrix == None && r.value.personalizationVector == None && r.value.pageRank == None
      && r.value.iterationsPerformed == 0 && !r.value.converged
  {
    var d := UnwrapOr(dampingFactor, DefaultDampingFactor);
    if !(0.0 < d < 1.0) {
      return Failure("Damping factor must be between 0 and 1");
    }
    var engine := new PowerIterationEngine(d, UnwrapOr(maxIterations, DefaultMaxIterations),
                                           UnwrapOr(tolerance, DefaultTolerance),
                                           danglingStrategy, personalizationStrategy);
    r := Success(engine);
  }

  /** The normalisation loop of build_transition_matrix over a zero-filled n x n array. */
  method NormalizeColumns(w: Matrix, n: nat, outDegree: Vector) returns (t: Matrix)
    requires IsMatrix(w, n, n) && outDegree == ColumnSums(w, n)
    ensures t == ColumnNormalized(w, n)
  {
    var a := new real[n, n]((i, j) => 0.0);
    for j := 0 to n
      invariant forall x, y :: 0 <= x < n && 0 <= y < n ==>
        a[x, y] == if y < j then ColumnNormalized(w, n)[x][y] else 0.0
    {
      if outDegree[j] > 0.0 {
        SetColumn(a, j, Divide(Column(w, j), outDegree[j]));
      }
    }
    t := Rows(a);
    MatrixEquality(t, ColumnNormalized(w, n), n, n);
  }

  /** The outcome of one sparse power iteration: the last iterate and the for-else bookkeeping. */
  datatype Run = Run(rank: Vector, converged: bool, iterations: int)

  /** The body of compute_sparse_page_rank after the personalization vector p: fails with the
      first dangling column iff the dangling-strategy probe raises; otherwise iterates from the
      uniform vector with dangling mass teleported along p. */
  method SparseRun(strategy: DanglingStrategy, adj: Matrix, weights: Option<Matrix>, n: nat, p: Vector,
                   damping: real, maxIterations: int, tolerance: real)
    returns (r: Result<Run, nat>)
    requires Shaped(adj, weights, n) && |p| == n
    ensures r.Failure? <==> ProbeFails(strategy, Weighted(adj, weights, n), n)
    ensures r.Success? ==> r.value.converged ==> 1 <= r.value.iterations <= maxIterations
    ensures r.Success? ==> !r.value.converged ==> r.value.iterations == maxIterations
    ensures r.Success? ==>
      var u := SparseUpdate(Weighted(adj, weights, n), p, damping, n);
      && Bookkeeping(u, Uniform(n), n, maxIterations, tolerance, r.value.converged, r.value.iterations)
      && r.value.rank == Iterate(u, Uniform(n), n, if r.value.converged || maxIterations > 0 then r.value.iterations else 0)
  {
    var w := Weighted(adj, weights, n);
    var outDegree, mask := OutDegrees(w, n);
    var teleport := DanglingTeleport(strategy, w, n, mask, p);
    if teleport.None? {
      return Failure(FirstTrue(mask));
    }
    var rank, conv, its := SparseIterate(w, n, outDegree, mask, teleport.value, p, damping, maxIterations, tolerance);
    r := Success(Run(rank, conv, its));
  }

  /** out_degree = column sums of the weighted matrix, and dangling_mask = out_degree == 0. */
  method OutDegrees(w: Matrix, n: nat) returns (outDegree: Vector, mask: seq<bool>)
    requires IsMatrix(w, n, n)
    ensures outDegree == ColumnSums(w, n) && mask == DanglingMask(w, n)
  {
    outDegree := ColumnSums(w, n);
    mask := seq(n, j requires 0 <= j < n => outDegree[j] == 0.0);
  }

  /** The power iteration of compute_sparse_page_rank from the uniform vector, over the weighted
      matrix, its out-degrees and dangling mask, and the teleport vector already chosen. */
  method SparseIterate(w: Matrix, n: nat, outDegree: Vector, mask: seq<bool>, teleport: Vector, p: Vector,
                       damping: real, maxIterations: int, tolerance: real)
    returns (rank: Vector, converged: bool, iterations: int)
    requires IsMatrix(w, n, n) && |p| == n
    requires outDegree == ColumnSums(w, n) && mask == DanglingMask(w, n)
    requires teleport == SparseUpdate(w, p, 0.0, n).teleport
    ensures converged ==> 1 <= iterations <= maxIterations
    ensures !converged ==> iterations == maxIterations
    ensures var u := SparseUpdate(w, p, damping, n);
      && Bookkeeping(u, Uniform(n), n, maxIterations, tolerance, converged, iterations)
      && rank == Iterate(u, Uniform(n), n, if converged || maxIterations > 0 then iterations else 0)
  {
    var u := Update(w, teleport, p, damping);
    assert u == SparseUpdate(w, p, damping, n);
    rank, converged, iterations := PowerIterate(u, Uniform(n), n, outDegree, mask, maxIterations, tolerance);
  }

  /** dangling_teleport of compute_sparse_page_rank: zero without dangling columns; otherwise
      the strategy is probed, and the teleport vector is the personalization vector unless the
      probe raises (None). */
  method DanglingTeleport(strategy: DanglingStrategy, w: Matrix, n: nat, mask: seq<bool>, p: Vector)
    returns (teleport: Option<Vector>)
    requires IsMatrix(w, n, n) && mask == DanglingMask(w, n) && |p| == n
    ensures teleport.None? <==> ProbeFails(strategy, w, n)
    ensures teleport.Some? ==> teleport.value == SparseUpdate(w, p, 0.0, n).teleport
  {
    teleport := Some(Fill(n, 0.0));
    if true in mask {
      var failed := Probe(strategy, mask);
      teleport := if failed then None else Some(p);
    }
  }

  /** The dangling-strategy call of compute_sparse_page_rank on np.eye(n)[:, dangling_indices]
      with an all-true mask; only whether it raises matters, the matrix is discarded. */
  method Probe(strategy: DanglingStrategy, mask: seq<bool>) returns (failed: bool)
    requires true in mask
    ensures failed <==> RowFill(strategy, |mask|, |TrueIndices(mask)|).None?
  {
    var n := |mask|;
    var idx := TrueIndices(mask);
    var k := |idx|;
    assert k > 0 by {
      assert mask[FirstTrue(mask)];
    }
    var handled := HandleDanglingNodes(strategy, EyeColumns(n, idx), k, seq(k, _ => true));
    failed := handled.Failure?;
    if RowFill(strategy, n, k).None? {
      assert BadRow(strategy, n, k, 0);
    }
  }

  /** What HandleDanglingNodes promises for an n x n matrix and a mask of n entries is
      RowsOverwritten. */
  lemma HandledIsOverwrite(strategy: DanglingStrategy, m: Matrix, n: nat, mask: seq<bool>, r: Result<Matrix, nat>)
    requires IsMatrix(m, n, n) && |mask| == n
    requires r.Success? <==> forall i :: 0 <= i < |mask| && mask[i] ==> !BadRow(strategy, |m|, n, i)
    requires r.Success? ==> IsMatrix(r.value, |m|, n)
    requires r.Success? ==> forall i :: 0 <= i < |m| ==>
      r.value[i] == if i < |mask| && mask[i] then RowFill(strategy, |m|, n).value else m[i]
    requires r.Failure? ==> r.error < |mask| && mask[r.error] && BadRow(strategy, |m|, n, r.error)
    requires r.Failure? ==> forall i :: 0 <= i < r.error && mask[i] ==> !BadRow(strategy, |m|, n, i)
    ensures r == RowsOverwritten(strategy, m, n, mask)
  {
    if true in mask {
      var f := FirstTrue(mask);
      assert BadRow(strategy, n, n, f) <==> RowFill(strategy, n, n).None?;
    }
    if r.Failure? {
      assert mask[r.error] in mask;
    } else {
      var o := RowsOverwritten(strategy, m, n, mask).value;
      assert forall i :: 0 <= i < n ==> r.value[i] == o[i];
      assert r.value == o;
    }
  }

  // ---------------------------------------------------------------------------
  // Properties
  // ---------------------------------------------------------------------------

  /** Every column of the normalised matrix sums to 1 when the weighted column has a positive
      sum, and to 0 otherwise. */
  lemma NormalizedColumnSum(w: Matrix, n: nat, j: nat)
    requires IsMatrix(w, n, n) && j < n
    ensures Sum(Column(ColumnNormalized(w, n), j)) == if Sum(Column(w, j)) > 0.0 then 1.0 else 0.0
  {
    var s := Sum(Column(w, j));
    if s > 0.0 {
      assert Column(ColumnNormalized(w, n), j) == Divide(Column(w, j), s);
      SumDivide(Column(w, j), s);
      assert s / s == 1.0;
    } else {
      SumZeros(Column(ColumnNormalized(w, n), j));
    }
  }

  /** A column without a positive sum, a dangling one among them, is all zero before the
      strategy runs. */
  lemma NormalizedZeroColumn(w: Matrix, n: nat, j: nat)
    requires IsMatrix(w, n, n) && j < n && Sum(Column(w, j)) <= 0.0
    ensures Column(ColumnNormalized(w, n), j) == Fill(n, 0.0)
  {
  }

  /** Without dangling columns the strategy plays no part: build_transition_matrix returns the
      normalised matrix, and each column with a positive sum is a distribution. */
  lemma TransitionWithoutDangling(strategy: DanglingStrategy, w: Matrix, n: nat)
    requires IsMatrix(w, n, n)
    requires forall j :: 0 <= j < n ==> Sum(Column(w, j)) != 0.0
    ensures TransitionOf(strategy, w, n) == Success(ColumnNormalized(w, n))
    ensures forall j :: 0 <= j < n && Sum(Column(w, j)) > 0.0 ==> Sum(Column(ColumnNormalized(w, n), j)) == 1.0
  {
    var mask := DanglingMask(w, n);
    assert true !in mask;
    MatrixEquality(TransitionOf(strategy, w, n).value, ColumnNormalized(w, n), n, n);
    forall j | 0 <= j < n && Sum(Column(w, j)) > 0.0
      ensures Sum(Column(ColumnNormalized(w, n), j)) == 1.0
    {
      NormalizedColumnSum(w, n, j);
    }
  }

  /** As written, build_transition_matrix is not column-stochastic: node 0 has no out-edge,
      so ROW 0 (the in-links of node 0) is overwritten with 1/2 while column 0 stays zero, and
      the edge from node 1 to node 0 loses half its weight. Both columns sum to 1/2. */
  lemma RowFillBreaksColumnSums()
    ensures var t := TransitionOf(UniformDangling, [[0.0, 1.0], [0.0, 0.0]], 2);
      && t == Success([[0.5, 0.5], [0.0, 0.0]])
      && Sum(Column(t.value, 0)) == 0.5 && Sum(Column(t.value, 1)) == 0.5
  {
    var w := [[0.0, 1.0], [0.0, 0.0]];
    assert Column(w, 0) == [0.0, 0.0] && Column(w, 1) == [1.0, 0.0];
    SumPair(0.0, 0.0);
    SumPair(1.0, 0.0);
    var mask := DanglingMask(w, 2);
    assert mask == [true, false];
    assert ColumnNormalized(w, 2)[1] == [0.0, 0.0];
    var t := TransitionOf(UniformDangling, w, 2);
    assert Fill(2, 1.0 / 2 as real) == [0.5, 0.5];
    assert t.value == [[0.5, 0.5], [0.0, 0.0]];
    assert Column(t.value, 0) == [0.5, 0.0] && Column(t.value, 1) == [0.5, 0.0];
    SumPair(0.5, 0.0);
  }

  /** The transition matrix the construction evidently intends: every dangling COLUMN j is
      overwritten with the strategy's fill, so node j's rank flows along the fill. It fails
      in the same cases as TransitionOf. */
  function ColumnFilled(strategy: DanglingStrategy, w: Matrix, n: nat): (r: Result<Matrix, nat>)
    requires IsMatrix(w, n, n)
    ensures r.Failure? <==> TransitionOf(strategy, w, n).Failure?
    ensures r.Failure? ==> r == TransitionOf(strategy, w, n)
    ensures r.Success? ==> IsMatrix(r.value, n, n)
  {
    var mask := DanglingMask(w, n);
    var fill := RowFill(strategy, n, n);
    if true in mask && fill.None? then Failure(FirstTrue(mask))
    else
      Success(seq(n, i requires 0 <= i < n => seq(n, j requires 0 <= j < n =>
        if mask[j] then (assert mask[j] in mask; fill.value[i]) else ColumnNormalized(w, n)[i][j])))
  }

  /** The strategy's fill over n nodes is a probability distribution. */
  ghost predicate FillIsDistribution(strategy: DanglingStrategy, n: nat) {
    RowFill(strategy, n, n).Some? && Sum(RowFill(strategy, n, n).value) == 1.0
  }

  /** The uniform fill, and the teleport fill without a vector or with a distribution over
      the n nodes, are distributions. */
  lemma FillsAreDistributions(strategy: DanglingStrategy, n: nat)
    requires n > 0
    requires strategy.TeleportDangling? && strategy.personalizationVector.Some? ==>
      |strategy.personalizationVector.value| == n && Sum(strategy.personalizationVector.value) == 1.0
    ensures FillIsDistribution(strategy, n)
  {
    SumUniform(n);
    if strategy.UniformDangling? {
      assert RowFill(strategy, n, n).value == Uniform(n);
    }
  }

  /** With non-negative column sums and a fill that is a distribution, the corrected matrix is
      column-stochastic: every column sums to 1. */
  lemma ColumnFilledIsStochastic(strategy: DanglingStrategy, w: Matrix, n: nat)
    requires IsMatrix(w, n, n) && FillIsDistribution(strategy, n)
    requires forall j :: 0 <= j < n ==> Sum(Column(w, j)) >= 0.0
    ensures ColumnFilled(strategy, w, n).Success?
    ensures forall j :: 0 <= j < n ==> Sum(Column(ColumnFilled(strategy, w, n).value, j)) == 1.0
  {
    forall j | 0 <= j < n
      ensures Sum(Column(ColumnFilled(strategy, w, n).value, j)) == 1.0
    {
      ColumnFilledColumn(strategy, w, n, j);
    }
  }

  /** Column j of the corrected matrix is the fill when j is dangling and column j of the
      normalised matrix otherwise; either way it sums to 1. */
  lemma ColumnFilledColumn(strategy: DanglingStrategy, w: Matrix, n: nat, j: nat)
    requires IsMatrix(w, n, n) && FillIsDistribution(strategy, n) && j < n
    requires Sum(Column(w, j)) >= 0.0
    ensures ColumnFilled(strategy, w, n).Success?
    ensures Sum(Column(ColumnFilled(strategy, w, n).value, j)) == 1.0
  {
    var t := ColumnFilled(strategy, w, n).value;
    var fill := RowFill(strategy, n, n).value;
    if DanglingMask(w, n)[j] {
      forall i | 0 <= i < n
        ensures Column(t, j)[i] == fill[i]
      {
        ColumnFilledEntry(strategy, w, n, i, j);
      }
      assert Column(t, j) == fill;
    } else {
      forall i | 0 <= i < n
        ensures Column(t, j)[i] == Column(ColumnNormalized(w, n), j)[i]
      {
        ColumnFilledEntry(strategy, w, n, i, j);
      }
      assert Column(t, j) == Column(ColumnNormalized(w, n), j);
      NormalizedColumnSum(w, n, j);
    }
  }

  /** One entry of the corrected matrix. */
  lemma ColumnFilledEntry(strategy: DanglingStrategy, w: Matrix, n: nat, i: nat, j: nat)
    requires IsMatrix(w, n, n) && i < n && j < n && ColumnFilled(strategy, w, n).Success?
    ensures var mask := DanglingMask(w, n);
      mask[j] ==> RowFill(strategy, n, n).Some?
    ensures var mask := DanglingMask(w, n);
      ColumnFilled(strategy, w, n).value[i][j] ==
        if mask[j] then RowFill(strategy, n, n).value[i] else ColumnNormalized(w, n)[i][j]
  {
    assert DanglingMask(w, n)[j] ==> DanglingMask(w, n)[j] in DanglingMask(w, n);
  }

  /** The probe never raises for the uniform strategy; the teleport strategy without a vector
      raises exactly when some but not all columns are dangling; with a vector v, exactly when
      v has neither one entry nor one per dangling column. */
  lemma ProbeFailure(strategy: DanglingStrategy, n: nat, k: nat)
    requires 0 < k <= n
    ensures strategy.UniformDangling? ==> RowFill(strategy, n, k).Some?
    ensures strategy == TeleportDangling(None) ==> (RowFill(strategy, n, k).None? <==> k < n)
    ensures strategy.TeleportDangling? && strategy.personalizationVector.Some? ==>
      var v := strategy.personalizationVector.value;
      RowFill(strategy, n, k).None? <==> |v| != k && |v| != 1
  {
  }

  /** The scores dict holds each id exactly once, and nothing else. */
  lemma {:induction false} ZipDictKeys(ids: seq<string>, r: Vector)
    requires |ids| == |r|
    ensures DistinctKeys(ZipDict(ids, r))
    ensures forall x :: HasKey(ZipDict(ids, r), x) <==> x in ids
  {
    if ids != [] {
      var n := |ids| - 1;
      var prev := ZipDict(ids[..n], r[..n]);
      ZipDictKeys(ids[..n], r[..n]);
      PutKeeps(prev, ids[n], r[n]);
      forall x
        ensures HasKey(ZipDict(ids, r), x) <==> x in ids
      {
        if x != ids[n] {
          PutOther(prev, ids[n], r[n], x);
          assert x in ids <==> x in ids[..n];
        }
      }
    }
  }

  /** Each id carries the rank of its last position in the id list. */
  lemma {:induction false} ZipDictLookup(ids: seq<string>, r: Vector, x: string)
    requires |ids| == |r| && x in ids
    ensures HasKey(ZipDict(ids, r), x) && Get(ZipDict(ids, r), x) == r[IndexMap(ids)[x]]
  {
    var n := |ids| - 1;
    var prev := ZipDict(ids[..n], r[..n]);
    ZipDictKeys(ids[..n], r[..n]);
    if x == ids[n] {
      PutLookup(prev, x, r[n]);
    } else {
      assert x in ids[..n];
      ZipDictLookup(ids[..n], r[..n], x);
      PutOther(prev, ids[n], r[n], x);
      assert IndexMap(ids)[x] == IndexMap(ids[..n])[x];
    }
  }

  /** With distinct ids, the scores dict pairs the i-th id with the i-th rank, in order. */
  lemma {:induction false} ZipDictDistinct(ids: seq<string>, r: Vector)
    requires |ids| == |r|
    requires forall i, j :: 0 <= i < j < |ids| ==> ids[i] != ids[j]
    ensures ZipDict(ids, r) == seq(|ids|, i requires 0 <= i < |ids| => (ids[i], r[i]))
  {
    if ids != [] {
      var n := |ids| - 1;
      ZipDictDistinct(ids[..n], r[..n]);
      ZipDictKeys(ids[..n], r[..n]);
      assert ids[n] !in ids[..n];
    }
  }

  /** Mass conservation of the sparse iteration: with non-negative weights and a personalization
      vector that sums to 1, every iterate from the uniform vector sums to 1. */
  lemma SparsePageRankSumsToOne(adj: Matrix, weights: Option<Matrix>, p: Vector, damping: real,
                                n: nat, k: nat)
    requires Shaped(adj, weights, n) && n > 0 && |p| == n && Sum(p) == 1.0
    requires NonNegative(adj) && (weights.Some? ==> NonNegative(weights.value))
    ensures Sum(Iterate(SparseUpdate(Weighted(adj, weights, n), p, damping, n), Uniform(n), n, k)) == 1.0
  {
    var w := Weighted(adj, weights, n);
    var u := SparseUpdate(w, p, damping, n);
    forall j | 0 <= j < n
      ensures OutDegree(u, n, j) >= 0.0
    {
      assert forall i :: 0 <= i < n ==> w[i][j] >= 0.0;
      SumNonNegative(Column(w, j));
    }
    if true !in DanglingMask(w, n) {
      assert forall j :: 0 <= j < n ==> !Dangling(u, n, j);
    }
    SumUniform(n);
    IterateSumsToOne(u, Uniform(n), n, k);
  }
}
