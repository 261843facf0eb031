/**
 * The power iteration of compute_sparse_page_rank over exact reals.
 *
 * One update maps the rank vector r to (1 - d) * rM + d * p, where rM spreads
 * r[j] along column j of the weighted adjacency divided by its sum when that
 * sum is positive, and along the teleport vector when column j is dangling
 * (its sum is 0). The damping factor d is the teleport weight.
 */
module Iteration {
  import opened Vectors

  /** The data one update uses: the weighted adjacency (n x n), the teleport vector for
      dangling columns, the personalization vector and the damping factor d. The out-degrees
      and the dangling mask are derived from the matrix (OutDegree, Dangling). */
  datatype Update = Update(
    weighted: Matrix,
    teleport: Vector,
    personalization: Vector,
    damping: real)

  /** Every part of the update has the size n nodes call for. */
  ghost predicate WellShaped(u: Update, n: nat) {
    IsMatrix(u.weighted, n, n) && |u.teleport| == n && |u.personalization| == n
  }

  /** out_degree[j]: the sum of column j of the weighted matrix. */
  function OutDegree(u: Update, n: nat, j: nat): real
    requires WellShaped(u, n) && j < n
  {
    Sum(Column(u.weighted, j))
  }

  /** dangling_mask[j]: column j sums to exactly 0. */
  predicate Dangling(u: Update, n: nat, j: nat)
    requires WellShaped(u, n) && j < n
  {
    OutDegree(u, n, j) == 0.0
  }

  /** The loop's out_degree and dangling_mask arrays hold OutDegree and Dangling. */
  ghost predicate Precomputed(u: Update, n: nat, outDegree: Vector, mask: seq<bool>)
    requires WellShaped(u, n)
  {
    && |outDegree| == n && (forall j :: 0 <= j < n ==> outDegree[j] == OutDegree(u, n, j))
    && |mask| == n && (forall j :: 0 <= j < n ==> (mask[j] <==> Dangling(u, n, j)))
  }

  /** Column j divided by its sum: where the rank of node j flows when j is not dangling. */
  function NormalizedColumn(u: Update, n: nat, j: nat): (c: Vector)
    requires WellShaped(u, n) && j < n && OutDegree(u, n, j) != 0.0
    ensures |c| == n
  {
    Divide(Column(u.weighted, j), OutDegree(u, n, j))
  }

  /** rM after the non-dangling loop has handled columns 0..J-1. Columns with a negative sum are
      neither normalised nor dangling, so they contribute nothing. */
  function NonDanglingFlow(u: Update, r: Vector, n: nat, J: nat): (f: Vector)
    requires WellShaped(u, n) && |r| == n && J <= n
    ensures |f| == n
  {
    if J == 0 then Fill(n, 0.0)
    else
      var prev := NonDanglingFlow(u, r, n, J - 1);
      if OutDegree(u, n, J - 1) > 0.0 then Add(prev, Scale(r[J - 1], NormalizedColumn(u, n, J - 1))) else prev
  }

  /** rM after the dangling loop, starting from `start`, has handled columns 0..J-1. */
  function DanglingFlow(u: Update, r: Vector, n: nat, start: Vector, J: nat): (f: Vector)
    requires WellShaped(u, n) && |r| == n && |start| == n && J <= n
    ensures |f| == n
  {
    if J == 0 then start
    else
      var prev := DanglingFlow(u, r, n, start, J - 1);
      if Dangling(u, n, J - 1) then Add(prev, Scale(r[J - 1], u.teleport)) else prev
  }

  /** rM = r_prev M: the non-dangling columns, then the dangling ones. */
  function Flow(u: Update, r: Vector, n: nat): (f: Vector)
    requires WellShaped(u, n) && |r| == n
    ensures |f| == n
  {
    DanglingFlow(u, r, n, NonDanglingFlow(u, r, n, n), n)
  }

  /** One update: r = (1 - d) * rM + d * p. */
  function Step(u: Update, r: Vector, n: nat): (next: Vector)
    requires WellShaped(u, n) && |r| == n
    ensures |next| == n
  {
    Add(Scale(1.0 - u.damping, Flow(u, r, n)), Scale(u.damping, u.personalization))
  }

  /** The iterate after k updates from r0. */
  function Iterate(u: Update, r0: Vector, n: nat, k: nat): (r: Vector)
    requires WellShaped(u, n) && |r0| == n
    ensures |r| == n
  {
    if k == 0 then r0 else Step(u, Iterate(u, r0, n, k - 1), n)
  }

  /** The L1 change made by update k + 1 (0-based iteration k). */
  function Change(u: Update, r0: Vector, n: nat, k: nat): real
    requires WellShaped(u, n) && |r0| == n
  {
    L1Distance(Iterate(u, r0, n, k + 1), Iterate(u, r0, n, k))
  }

  /** None of the first K iterations changed the rank by less than the tolerance. */
  ghost predicate Unconverged(u: Update, r0: Vector, n: nat, tolerance: real, K: nat)
    requires WellShaped(u, n) && |r0| == n
  {
    K == 0 || (Unconverged(u, r0, n, tolerance, K - 1) && Change(u, r0, n, K - 1) >= tolerance)
  }

  /** The for-else bookkeeping of the loop: `converged` iff some change among the first
      maxIterations fell below the tolerance; then `iterations` is one past the first such
      iteration, otherwise it is maxIterations (whatever its sign). */
  ghost predicate Bookkeeping(u: Update, r0: Vector, n: nat, maxIterations: int, tolerance: real,
                              converged: bool, iterations: int)
    requires WellShaped(u, n) && |r0| == n
  {
    if converged then
      && 1 <= iterations <= maxIterations
      && Change(u, r0, n, iterations - 1) < tolerance
      && Unconverged(u, r0, n, tolerance, iterations - 1)
    else
      && iterations == maxIterations
      && Unconverged(u, r0, n, tolerance, if maxIterations > 0 then maxIterations else 0)
  }

  /** Unconverged spelled out: every one of the first K changes is at least the tolerance. */
  lemma {:induction false} UnconvergedMeans(u: Update, r0: Vector, n: nat, tolerance: real, K: nat)
    requires WellShaped(u, n) && |r0| == n
    ensures Unconverged(u, r0, n, tolerance, K) <==> forall k: nat :: k < K ==> Change(u, r0, n, k) >= tolerance
  {
    if K > 0 {
      UnconvergedMeans(u, r0, n, tolerance, K - 1);
    }
  }

  /** The iteration count and flag determine the run: a converged run stops at the first
      change below the tolerance, and an unconverged one saw none. */
  lemma BookkeepingMeans(u: Update, r0: Vector, n: nat, maxIterations: int, tolerance: real,
                         converged: bool, iterations: int)
    requires WellShaped(u, n) && |r0| == n
    requires Bookkeeping(u, r0, n, maxIterations, tolerance, converged, iterations)
    ensures converged <==> exists k: nat :: k < maxIterations && Change(u, r0, n, k) < tolerance
    ensures converged ==> forall k: nat :: k < iterations - 1 ==> Change(u, r0, n, k) >= tolerance
  {
    if converged {
      UnconvergedMeans(u, r0, n, tolerance, iterations - 1);
      assert Change(u, r0, n, iterations - 1) < tolerance;
    } else {
      UnconvergedMeans(u, r0, n, tolerance, if maxIterations > 0 then maxIterations else 0);
    }
  }

  /** The non-dangling loop of one iteration. */
  method NonDanglingLoop(u: Update, r: Vector, n: nat, outDegree: Vector) returns (rM: Vector)
    requires WellShaped(u, n) && |r| == n
    requires |outDegree| == n && forall j :: 0 <= j < n ==> outDegree[j] == OutDegree(u, n, j)
    ensures rM == NonDanglingFlow(u, r, n, n)
  {
    rM := Fill(n, 0.0);
    for j := 0 to n
      invariant rM == NonDanglingFlow(u, r, n, j)
    {
      if outDegree[j] > 0.0 {
        rM := Add(rM, Scale(r[j], Divide(Column(u.weighted, j), outDegree[j])));
      }
    }
  }

  /** The dangling loop of one iteration, adding onto rM. */
  method DanglingLoop(u: Update, r: Vector, n: nat, mask: seq<bool>, start: Vector) returns (rM: Vector)
    requires WellShaped(u, n) && |r| == n && |start| == n
    requires |mask| == n && forall j :: 0 <= j < n ==> (mask[j] <==> Dangling(u, n, j))
    ensures rM == DanglingFlow(u, r, n, start, n)
  {
    rM := start;
    for j := 0 to n
      invariant rM == DanglingFlow(u, r, n, start, j)
    {
      if mask[j] {
        rM := Add(rM, Scale(r[j], u.teleport));
      }
    }
  }

  /** One iteration: r = (1 - d) * (r_prev M) + d * p. */
  method ApplyUpdate(u: Update, rPrev: Vector, n: nat, outDegree: Vector, mask: seq<bool>) returns (r: Vector)
    requires WellShaped(u, n) && |rPrev| == n
    requires Precomputed(u, n, outDegree, mask)
    ensures r == Step(u, rPrev, n)
  {
    var rM := NonDanglingLoop(u, rPrev, n, outDegree);
    rM := DanglingLoop(u, rPrev, n, mask, rM);
    r := Add(Scale(1.0 - u.damping, rM), Scale(u.damping, u.personalization));
  }

  /** Iteration k of the loop body: the next iterate and the L1 change it makes. */
  method NextIterate(u: Update, r0: Vector, n: nat, outDegree: Vector, mask: seq<bool>, k: nat, rPrev: Vector)
    returns (r: Vector, diff: real)
    requires WellShaped(u, n) && |r0| == n && rPrev == Iterate(u, r0, n, k)
    requires Precomputed(u, n, outDegree, mask)
    ensures r == Iterate(u, r0, n, k + 1) && diff == Change(u, r0, n, k)
  {
    r := ApplyUpdate(u, rPrev, n, outDegree, mask);
    diff := L1Distance(r, rPrev);
  }

  /** The power iteration loop with its for-else: returns the last iterate, the converged flag
      and the iteration count. */
  method PowerIterate(u: Update, r0: Vector, n: nat, outDegree: Vector, mask: seq<bool>,
                      maxIterations: int, tolerance: real)
    returns (r: Vector, converged: bool, iterations: int)
    requires WellShaped(u, n) && |r0| == n
    requires Precomputed(u, n, outDegree, mask)
    ensures Bookkeeping(u, r0, n, maxIterations, tolerance, converged, iterations)
    ensures r == Iterate(u, r0, n, if converged || maxIterations > 0 then iterations else 0)
  {
    r := r0;
    var iteration := 0;
    while iteration < maxIterations
      invariant 0 <= iteration <= (if maxIterations > 0 then maxIterations else 0)
      invariant r == Iterate(u, r0, n, iteration)
      invariant Unconverged(u, r0, n, tolerance, iteration)
      decreases maxIterations - iteration
    {
      var diff;
      r, diff := NextIterate(u, r0, n, outDegree, mask, iteration, r);
      if diff < tolerance {
        return r, true, iteration + 1;
      }
      iteration := iteration + 1;
    }
    assert iteration == if maxIterations > 0 then maxIterations else 0;
    converged, iterations := false, maxIterations;
  }

  // ---------------------------------------------------------------------------
  // Mass conservation
  // ---------------------------------------------------------------------------

  /** The rank held by columns 0..J-1 with a positive sum. */
  function ActiveMass(u: Update, r: Vector, n: nat, J: nat): real
    requires WellShaped(u, n) && |r| == n && J <= n
  {
    if J == 0 then 0.0
    else ActiveMass(u, r, n, J - 1) + (if OutDegree(u, n, J - 1) > 0.0 then r[J - 1] else 0.0)
  }

  /** The rank held by dangling columns among 0..J-1. */
  function DanglingMass(u: Update, r: Vector, n: nat, J: nat): real
    requires WellShaped(u, n) && |r| == n && J <= n
  {
    if J == 0 then 0.0
    else DanglingMass(u, r, n, J - 1) + (if Dangling(u, n, J - 1) then r[J - 1] else 0.0)
  }

  /** A normalised column carries exactly the rank put on it: each sums to 1. */
  lemma NormalizedColumnSum(u: Update, n: nat, j: nat)
    requires WellShaped(u, n) && j < n && OutDegree(u, n, j) > 0.0
    ensures Sum(NormalizedColumn(u, n, j)) == 1.0
  {
    var d := OutDegree(u, n, j);
    SumDivide(Column(u.weighted, j), d);
    assert d / d == 1.0;
  }

  /** Spreading x along a distribution adds exactly x to the total. */
  lemma SpreadSum(prev: Vector, x: real, c: Vector)
    requires Sum(c) == 1.0 && |prev| == |c|
    ensures Sum(Add(prev, Scale(x, c))) == Sum(prev) + x
  {
    SumScale(x, c);
    SumAdd(prev, Scale(x, c));
  }

  /** Spreading x along a normalised column adds exactly x to the total. */
  lemma ColumnSpreadSum(u: Update, n: nat, prev: Vector, x: real, j: nat)
    requires WellShaped(u, n) && j < n && OutDegree(u, n, j) > 0.0 && |prev| == n
    ensures Sum(Add(prev, Scale(x, NormalizedColumn(u, n, j)))) == Sum(prev) + x
  {
    NormalizedColumnSum(u, n, j);
    SpreadSum(prev, x, NormalizedColumn(u, n, j));
  }

  /** One column of the non-dangling loop adds the rank it holds when its sum is positive. */
  lemma NonDanglingFlowStep(u: Update, r: Vector, n: nat, J: nat)
    requires WellShaped(u, n) && |r| == n && 0 < J <= n
    ensures Sum(NonDanglingFlow(u, r, n, J)) ==
      Sum(NonDanglingFlow(u, r, n, J - 1)) + (if OutDegree(u, n, J - 1) > 0.0 then r[J - 1] else 0.0)
  {
    if OutDegree(u, n, J - 1) > 0.0 {
      ColumnSpreadSum(u, n, NonDanglingFlow(u, r, n, J - 1), r[J - 1], J - 1);
    }
  }

  lemma {:induction false} NonDanglingFlowSum(u: Update, r: Vector, n: nat, J: nat)
    requires WellShaped(u, n) && |r| == n && J <= n
    ensures Sum(NonDanglingFlow(u, r, n, J)) == ActiveMass(u, r, n, J)
  {
    if J == 0 {
      SumZeros(Fill(n, 0.0));
    } else {
      NonDanglingFlowSum(u, r, n, J - 1);
      NonDanglingFlowStep(u, r, n, J);
    }
  }

  /** When the teleport vector is a distribution, the dangling loop adds the dangling mass. */
  lemma {:induction false} DanglingFlowSum(u: Update, r: Vector, n: nat, start: Vector, J: nat)
    requires WellShaped(u, n) && |r| == n && |start| == n && J <= n && Sum(u.teleport) == 1.0
    ensures Sum(DanglingFlow(u, r, n, start, J)) == Sum(start) + DanglingMass(u, r, n, J)
  {
    if J > 0 {
      DanglingFlowSum(u, r, n, start, J - 1);
      if Dangling(u, n, J - 1) {
        SpreadSum(DanglingFlow(u, r, n, start, J - 1), r[J - 1], u.teleport);
      }
    }
  }

  /** Without dangling columns the dangling loop adds nothing. */
  lemma {:induction false} DanglingFlowNone(u: Update, r: Vector, n: nat, start: Vector, J: nat)
    requires WellShaped(u, n) && |r| == n && |start| == n && J <= n
    requires forall j :: 0 <= j < n ==> !Dangling(u, n, j)
    ensures DanglingFlow(u, r, n, start, J) == start && DanglingMass(u, r, n, J) == 0.0
  {
    if J > 0 {
      DanglingFlowNone(u, r, n, start, J - 1);
    }
  }

  /** With no negative column sum, every column is either normalised or dangling. */
  lemma {:induction false} MassSplit(u: Update, r: Vector, n: nat, J: nat)
    requires WellShaped(u, n) && |r| == n && J <= n
    requires forall j :: 0 <= j < n ==> OutDegree(u, n, j) >= 0.0
    ensures ActiveMass(u, r, n, J) + DanglingMass(u, r, n, J) == Sum(r[..J])
  {
    if J > 0 {
      MassSplit(u, r, n, J - 1);
      assert r[..J][..J - 1] == r[..J - 1];
    }
  }

  /** The update's total is preserved: rM holds the whole rank of r when dangling columns
      teleport along a distribution. */
  ghost predicate Conserving(u: Update, n: nat)
    requires WellShaped(u, n)
  {
    && Sum(u.personalization) == 1.0
    && (forall j :: 0 <= j < n ==> OutDegree(u, n, j) >= 0.0)
    && (Sum(u.teleport) == 1.0 || forall j :: 0 <= j < n ==> !Dangling(u, n, j))
  }

  /** The sum of (1 - d) * a + d * b, for vectors summing to sa and sb. */
  lemma AffineSum(a: Vector, b: Vector, d: real, sa: real, sb: real)
    requires |a| == |b| && Sum(a) == sa && Sum(b) == sb
    ensures Sum(Add(Scale(1.0 - d, a), Scale(d, b))) == (1.0 - d) * sa + d * sb
  {
    SumAdd(Scale(1.0 - d, a), Scale(d, b));
    SumScale(1.0 - d, a);
    SumScale(d, b);
  }

  /** Under exact arithmetic, rM = r_prev M carries the whole rank of r_prev: no column loses
      rank when none has a negative sum and dangling ones teleport along a distribution. */
  lemma FlowPreservesMass(u: Update, r: Vector, n: nat)
    requires WellShaped(u, n) && |r| == n && Conserving(u, n)
    ensures Sum(Flow(u, r, n)) == Sum(r)
  {
    var nd := NonDanglingFlow(u, r, n, n);
    NonDanglingFlowSum(u, r, n, n);
    MassSplitAll(u, r, n);
    DanglingFlowTotal(u, r, n, nd);
  }

  /** Every column with a non-negative sum is either normalised or dangling. */
  lemma MassSplitAll(u: Update, r: Vector, n: nat)
    requires WellShaped(u, n) && |r| == n
    requires forall j :: 0 <= j < n ==> OutDegree(u, n, j) >= 0.0
    ensures ActiveMass(u, r, n, n) + DanglingMass(u, r, n, n) == Sum(r)
  {
    MassSplit(u, r, n, n);
    assert r[..n] == r;
  }

  /** The dangling loop adds the dangling mass, whether it teleports along a distribution or
      there is no dangling column at all. */
  lemma DanglingFlowTotal(u: Update, r: Vector, n: nat, start: Vector)
    requires WellShaped(u, n) && |r| == n && |start| == n && Conserving(u, n)
    ensures Sum(DanglingFlow(u, r, n, start, n)) == Sum(start) + DanglingMass(u, r, n, n)
  {
    if Sum(u.teleport) == 1.0 {
      DanglingFlowSum(u, r, n, start, n);
    } else {
      DanglingFlowNone(u, r, n, start, n);
    }
  }

  /** Mixing an rM that sums to 1 with a personalization vector that sums to 1 gives a vector
      that sums to 1. */
  lemma StepSum(u: Update, r: Vector, n: nat)
    requires WellShaped(u, n) && |r| == n && Sum(Flow(u, r, n)) == 1.0 && Sum(u.personalization) == 1.0
    ensures Sum(Step(u, r, n)) == 1.0
  {
    AffineSum(Flow(u, r, n), u.personalization, u.damping, 1.0, 1.0);
  }

  /** Under exact arithmetic, one update maps a vector that sums to 1 to a vector that sums
      to 1 (the total mass is kept; the entries are not claimed non-negative). */
  lemma StepKeepsMass(u: Update, r: Vector, n: nat)
    requires WellShaped(u, n) && |r| == n && Conserving(u, n) && Sum(r) == 1.0
    ensures Sum(Step(u, r, n)) == 1.0
  {
    FlowPreservesMass(u, r, n);
    StepSum(u, r, n);
  }

  /** Under exact arithmetic, if p sums to 1 then every iterate from a vector that sums to 1
      sums to 1. */
  lemma {:induction false} IterateSumsToOne(u: Update, r0: Vector, n: nat, k: nat)
    requires WellShaped(u, n) && |r0| == n && Conserving(u, n) && Sum(r0) == 1.0
    ensures Sum(Iterate(u, r0, n, k)) == 1.0
  {
    if k > 0 {
      IterateSumsToOne(u, r0, n, k - 1);
      StepKeepsMass(u, Iterate(u, r0, n, k - 1), n);
    }
  }
}
