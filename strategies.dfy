/**
 * The pluggable strategies of the engine: how rows of dangling nodes are
 * rewritten in a transition matrix, and how a personalization vector is built
 * from seed maps (suspicion scores and base weights keyed by node id).
 */
module Strategies {
  import opened Wrappers
  import opened Vectors
  import opened OrderedDicts

  /** The two dangling-node strategies; Teleport carries its optional vector. */
  datatype DanglingStrategy =
    | UniformDangling
    | TeleportDangling(personalizationVector: Option<Vector>)

  /** The two personalization strategies; SuspicionBased carries its clamped weight. */
  datatype PersonalizationStrategy =
    | SuspicionBased(suspicionWeight: real)
    | TransactionVolume

  /** SuspicionBasedPersonalization(suspicion_weight): the weight is raised to at least 1.0. */
  function NewSuspicionBased(suspicionWeight: real): (s: PersonalizationStrategy)
    ensures s.SuspicionBased? && s.suspicionWeight >= 1.0
    ensures s.suspicionWeight == suspicionWeight || (suspicionWeight < 1.0 && s.suspicionWeight == 1.0)
  {
    SuspicionBased(if suspicionWeight < 1.0 then 1.0 else suspicionWeight)
  }

  /** The weight SuspicionBasedPersonalization() uses when none is given. */
  const DefaultSuspicionWeight: real := 5.0

  // ---------------------------------------------------------------------------
  // Dangling nodes
  // ---------------------------------------------------------------------------

  /** numpy's `row[:] = v` for a row of `cols` entries: a vector of the same length is copied, a
      vector of length 1 is repeated, any other length cannot be broadcast. */
  function Broadcast(v: Vector, cols: nat): (r: Option<Vector>)
    ensures r.Some? <==> |v| == cols || |v| == 1
    ensures r.Some? ==> |r.value| == cols && forall j :: 0 <= j < cols ==> r.value[j] == if |v| == cols then v[j] else v[0]
  {
    if |v| == cols then Some(v) else if |v| == 1 then Some(Fill(cols, v[0])) else None
  }

  /** What a masked row of a `rows` x `cols` matrix is overwritten with, or None when the
      strategy raises: Uniform divides 1.0 by the row count, Teleport broadcasts its vector
      (the uniform vector over the rows when it has none). */
  function RowFill(strategy: DanglingStrategy, rows: nat, cols: nat): (r: Option<Vector>)
    ensures r.Some? ==> |r.value| == cols
  {
    match strategy
    case UniformDangling => if rows == 0 then None else Some(Fill(cols, 1.0 / rows as real))
    case TeleportDangling(v) => Broadcast(if v.Some? then v.value else Uniform(rows), cols)
  }

  /** Row i is one the strategy cannot overwrite: it does not exist, or the fill raises. */
  predicate BadRow(strategy: DanglingStrategy, rows: nat, cols: nat, i: nat) {
    i >= rows || RowFill(strategy, rows, cols).None?
  }

  /** handle_dangling_nodes: a copy of `m` in which every row i with mask[i] set is overwritten by
      the strategy's fill; every other entry is the input's. When a masked row cannot be
      written, the result is the first such row, as the exception numpy raises there. */
  method HandleDanglingNodes(strategy: DanglingStrategy, m: Matrix, cols: nat, mask: seq<bool>)
    returns (r: Result<Matrix, nat>)
    requires IsMatrix(m, |m|, cols)
    ensures r.Success? <==> forall i :: 0 <= i < |mask| && mask[i] ==> !BadRow(strategy, |m|, cols, i)
    ensures r.Success? ==> IsMatrix(r.value, |m|, cols)
    ensures r.Success? ==> forall i :: 0 <= i < |m| ==>
      r.value[i] == if i < |mask| && mask[i] then RowFill(strategy, |m|, cols).value else m[i]
    ensures r.Failure? ==> r.error < |mask| && mask[r.error] && BadRow(strategy, |m|, cols, r.error)
    ensures r.Failure? ==> forall i :: 0 <= i < r.error && mask[i] ==> !BadRow(strategy, |m|, cols, i)
  {
    var fill := RowFill(strategy, |m|, cols);
    var adjusted := CopyToArray(m, cols);
    for i := 0 to |mask|
      invariant forall x :: 0 <= x < i && mask[x] ==> !BadRow(strategy, |m|, cols, x)
      invariant forall x, y :: 0 <= x < |m| && 0 <= y < cols ==>
        adjusted[x, y] == if x < i && x < |mask| && mask[x] then fill.value[y] else m[x][y]
    {
      if mask[i] {
        if i >= |m| || fill.None? {
          return Failure(i);
        }
        SetRow(adjusted, i, fill.value);
      }
    }
    r := Success(Rows(adjusted));
  }

  // ---------------------------------------------------------------------------
  // Personalization
  // ---------------------------------------------------------------------------

  /** node_to_idx = {node_id: i for i, node_id in enumerate(node_ids)}: every id is mapped to
      one of its positions (the last, by IndexMapLast). */
  function IndexMap(ids: seq<string>): (m: map<string, nat>)
    ensures forall x :: x in m <==> x in ids
    ensures forall x :: x in m ==> m[x] < |ids| && ids[m[x]] == x
  {
    if ids == [] then map[]
    else
      var n := |ids| - 1;
      assert forall x :: x in ids <==> x in ids[..n] || x == ids[n];
      IndexMap(ids[..n])[ids[n] := n]
  }

  /** A later entry of the comprehension overwrites an earlier one: each id is mapped to the
      position of its last occurrence. */
  lemma {:induction false} IndexMapLast(ids: seq<string>, x: string)
    requires x in ids
    ensures forall j :: IndexMap(ids)[x] < j < |ids| ==> ids[j] != x
  {
    var n := |ids| - 1;
    if ids[n] != x {
      assert x in ids[..n];
      IndexMapLast(ids[..n], x);
    }
  }

  /** The value a seed map gives position i: the map's entry for ids[i] when i is the position
      the index map keeps for that id, None otherwise (ids the map lacks, or earlier duplicates). */
  ghost function SeedOf(ids: seq<string>, seeds: Dict<string, real>, i: nat): Option<real>
    requires i < |ids|
  {
    if IndexMap(ids)[ids[i]] == i && HasKey(seeds, ids[i]) then Some(Get(seeds, ids[i])) else None
  }

  /** One more entry of a seed map changes only the position it is keyed to. */
  lemma SeedOfStep(ids: seq<string>, seeds: Dict<string, real>, k: nat, i: nat)
    requires DistinctKeys(seeds) && k < |seeds| && i < |ids|
    ensures SeedOf(ids, seeds[..k + 1], i) ==
      if seeds[k].0 in IndexMap(ids) && i == IndexMap(ids)[seeds[k].0] then Some(seeds[k].1) else SeedOf(ids, seeds[..k], i)
  {
    PrefixPut(seeds, k);
    PutLookup(seeds[..k], seeds[k].0, seeds[k].1);
  }

  /** The value a seed, if any, gives an entry; `default` without one. */
  function SeedOr(seed: Option<real>, default: real): real {
    if seed.Some? then seed.value else default
  }

  /** The factor a suspicion score multiplies an entry by: 1 + (w - 1) * score. */
  function Boost(suspicionWeight: real, score: real): (b: real)
    ensures score == 0.0 ==> b == 1.0
    ensures suspicionWeight >= 1.0 && score >= 0.0 ==> b >= 1.0
  {
    1.0 + (suspicionWeight - 1.0) * score
  }

  /** The factor an optional suspicion score multiplies an entry by (1 without one). */
  function BoostOf(suspicionWeight: real, score: Option<real>): real {
    if score.Some? then Boost(suspicionWeight, score.value) else 1.0
  }

  /** What an optional suspicion score adds to an entry under TransactionVolume. */
  function VolumeBoostOf(knownTotal: real, n: nat, score: Option<real>): real {
    if score.Some? && n > 0 then score.value * knownTotal / n as real else 0.0
  }

  /** The sum of the weights of a seed map whose ids are among `ids`. */
  function KnownWeight(ids: seq<string>, seeds: Dict<string, real>): real {
    if seeds == [] then 0.0
    else
      var last := seeds[|seeds| - 1];
      KnownWeight(ids, seeds[..|seeds| - 1]) + (if last.0 in ids then last.1 else 0.0)
  }

  /** How the three seed loops combine an entry with a seed. */
  function Replace(): (real, real) -> real {
    (x: real, s: real) => s
  }

  function BoostBy(suspicionWeight: real): (real, real) -> real {
    (x: real, s: real) => Boosted(x, suspicionWeight, s)
  }

  function RaiseBy(knownTotal: real, n: nat): (real, real) -> real {
    (x: real, s: real) => Raised(x, knownTotal, n, s)
  }

  /** personalization[idx] *= 1 + (w - 1) * score */
  function Boosted(x: real, suspicionWeight: real, score: real): real {
    x * Boost(suspicionWeight, score)
  }

  /** personalization[idx] += score * total_weight / n (n is positive wherever an id is found) */
  function Raised(x: real, knownTotal: real, n: nat, score: real): real {
    x + VolumeBoostOf(knownTotal, n, Some(score))
  }

  /** `v` after a seed loop: every position with a seed combines its entry with it. */
  ghost function Apply(v: Vector, ids: seq<string>, seeds: Dict<string, real>, f: (real, real) -> real): (r: Vector)
    requires |v| == |ids|
    ensures |r| == |v|
    ensures forall i :: 0 <= i < |v| ==> r[i] == if SeedOf(ids, seeds, i).Some? then f(v[i], SeedOf(ids, seeds, i).value) else v[i]
  {
    seq(|v|, i requires 0 <= i < |v| => if SeedOf(ids, seeds, i).Some? then f(v[i], SeedOf(ids, seeds, i).value) else v[i])
  }

  /** One iteration of a seed loop: the entry of the next seed's node (if it is one) is
      combined with the seed, still holding its starting value; no other entry changes. */
  lemma ApplyStep(v: Vector, ids: seq<string>, seeds: Dict<string, real>, f: (real, real) -> real, k: nat)
    requires DistinctKeys(seeds) && k < |seeds| && |v| == |ids|
    ensures var prev := Apply(v, ids, seeds[..k], f);
      var m := IndexMap(ids);
      && (seeds[k].0 in m ==> prev[m[seeds[k].0]] == v[m[seeds[k].0]])
      && Apply(v, ids, seeds[..k + 1], f) ==
         if seeds[k].0 in m then prev[m[seeds[k].0] := f(v[m[seeds[k].0]], seeds[k].1)] else prev
  {
    var m := IndexMap(ids);
    var key := seeds[k].0;
    var prev := Apply(v, ids, seeds[..k], f);
    var next := Apply(v, ids, seeds[..k + 1], f);
    var expected := if key in m then prev[m[key] := f(v[m[key]], seeds[k].1)] else prev;
    forall i | 0 <= i < |ids| ensures next[i] == expected[i] {
      SeedOfStep(ids, seeds, k, i);
    }
    if key in m {
      SeedOfStep(ids, seeds, k, m[key]);
      assert SeedOf(ids, seeds[..k], m[key]).None? by {
        assert !HasKey(seeds[..k], key);
      }
    }
  }

  /** The base weights loop: each id of `seeds` found in the index map overwrites its entry.
      Also accumulates the sum of the weights written (TransactionVolume's total_weight). */
  method ApplyBaseWeights(a: array<real>, ids: seq<string>, nodeToIdx: map<string, nat>, seeds: Dict<string, real>)
    returns (knownTotal: real)
    requires a.Length == |ids| && nodeToIdx == IndexMap(ids) && DistinctKeys(seeds)
    modifies a
    ensures a[..] == Apply(old(a[..]), ids, seeds, Replace())
    ensures knownTotal == KnownWeight(ids, seeds)
  {
    knownTotal := 0.0;
    for k := 0 to |seeds|
      invariant a[..] == Apply(old(a[..]), ids, seeds[..k], Replace())
      invariant knownTotal == KnownWeight(ids, seeds[..k])
    {
      var (nodeId, weight) := seeds[k];
      ApplyStep(old(a[..]), ids, seeds, Replace(), k);
      assert seeds[..k + 1][..k] == seeds[..k];
      if nodeId in nodeToIdx {
        var idx := nodeToIdx[nodeId];
        a[idx] := weight;
        knownTotal := knownTotal + weight;
      }
    }
    assert seeds[..|seeds|] == seeds;
  }

  /** The suspicious nodes loop of SuspicionBased: each score found multiplies its entry by
      its boost. */
  method ApplyBoosts(a: array<real>, ids: seq<string>, nodeToIdx: map<string, nat>, suspicionWeight: real,
                     scores: Dict<string, real>)
    requires a.Length == |ids| && nodeToIdx == IndexMap(ids) && DistinctKeys(scores)
    modifies a
    ensures a[..] == Apply(old(a[..]), ids, scores, BoostBy(suspicionWeight))
  {
    for k := 0 to |scores|
      invariant a[..] == Apply(old(a[..]), ids, scores[..k], BoostBy(suspicionWeight))
    {
      var (nodeId, score) := scores[k];
      ApplyStep(old(a[..]), ids, scores, BoostBy(suspicionWeight), k);
      if nodeId in nodeToIdx {
        var idx := nodeToIdx[nodeId];
        a[idx] := Boosted(a[idx], suspicionWeight, score);
      }
    }
    assert scores[..|scores|] == scores;
  }

  /** The suspicious nodes loop of TransactionVolume: each score found adds
      score * knownTotal / n to its entry. */
  method ApplyVolumeBoosts(a: array<real>, ids: seq<string>, nodeToIdx: map<string, nat>, knownTotal: real,
                           scores: Dict<string, real>)
    requires a.Length == |ids| && nodeToIdx == IndexMap(ids) && DistinctKeys(scores)
    modifies a
    ensures a[..] == Apply(old(a[..]), ids, scores, RaiseBy(knownTotal, |ids|))
  {
    for k := 0 to |scores|
      invariant a[..] == Apply(old(a[..]), ids, scores[..k], RaiseBy(knownTotal, |ids|))
    {
      var (nodeId, score) := scores[k];
      ApplyStep(old(a[..]), ids, scores, RaiseBy(knownTotal, |ids|), k);
      if nodeId in nodeToIdx {
        var idx := nodeToIdx[nodeId];
        a[idx] := Raised(a[idx], knownTotal, |ids|, score);
      }
    }
    assert scores[..|scores|] == scores;
  }

  /** SuspicionBased before normalisation: 1/n for every entry, replaced by the node's base
      weight if it has one, then multiplied by the boost of its suspicion score if it has one. */
  ghost function SuspicionRaw(suspicionWeight: real, ids: seq<string>, scores: Dict<string, real>,
                              baseWeights: Dict<string, real>): (r: Vector)
    ensures |r| == |ids|
  {
    seq(|ids|, i requires 0 <= i < |ids| =>
      SeedOr(SeedOf(ids, baseWeights, i), 1.0 / |ids| as real) * BoostOf(suspicionWeight, SeedOf(ids, scores, i)))
  }

  /** TransactionVolume before normalisation: the node's base weight (0 without one) plus
      score * total / n for its suspicion score, total being the weight of the known ids. */
  ghost function VolumeRaw(ids: seq<string>, scores: Dict<string, real>, baseWeights: Dict<string, real>): (r: Vector)
    ensures |r| == |ids|
  {
    seq(|ids|, i requires 0 <= i < |ids| =>
      SeedOr(SeedOf(ids, baseWeights, i), 0.0) + VolumeBoostOf(KnownWeight(ids, baseWeights), |ids|, SeedOf(ids, scores, i)))
  }

  /** SuspicionBased's two seed loops, run from the uniform vector, build SuspicionRaw. */
  lemma SuspicionRawByLoops(suspicionWeight: real, ids: seq<string>, scores: Dict<string, real>,
                            baseWeights: Dict<string, real>)
    ensures Apply(Apply(Uniform(|ids|), ids, baseWeights, Replace()), ids, scores, BoostBy(suspicionWeight))
         == SuspicionRaw(suspicionWeight, ids, scores, baseWeights)
  {
    var based := Apply(Uniform(|ids|), ids, baseWeights, Replace());
    var boosted := Apply(based, ids, scores, BoostBy(suspicionWeight));
    var raw := SuspicionRaw(suspicionWeight, ids, scores, baseWeights);
    forall i | 0 <= i < |ids| ensures boosted[i] == raw[i] {
      assert based[i] == SeedOr(SeedOf(ids, baseWeights, i), 1.0 / |ids| as real);
      var score := SeedOf(ids, scores, i);
      if score.Some? {
        assert boosted[i] == Boosted(based[i], suspicionWeight, score.value);
      } else {
        assert boosted[i] == based[i] == based[i] * BoostOf(suspicionWeight, score);
      }
    }
  }

  /** TransactionVolume's two seed loops, run from zeros, build VolumeRaw. */
  lemma VolumeRawByLoops(ids: seq<string>, scores: Dict<string, real>, baseWeights: Dict<string, real>)
    ensures Apply(Apply(Fill(|ids|, 0.0), ids, baseWeights, Replace()),
                  ids, scores, RaiseBy(KnownWeight(ids, baseWeights), |ids|))
         == VolumeRaw(ids, scores, baseWeights)
  {
    var based := Apply(Fill(|ids|, 0.0), ids, baseWeights, Replace());
    var raised := Apply(based, ids, scores, RaiseBy(KnownWeight(ids, baseWeights), |ids|));
    var raw := VolumeRaw(ids, scores, baseWeights);
    forall i | 0 <= i < |ids| ensures raised[i] == raw[i] {
      assert based[i] == SeedOr(SeedOf(ids, baseWeights, i), 0.0);
      var score := SeedOf(ids, scores, i);
      if score.Some? {
        assert raised[i] == Raised(based[i], KnownWeight(ids, baseWeights), |ids|, score.value);
      }
    }
  }

  /** The vector scaled to sum 1 when its sum is positive. */
  function Normalized(v: Vector): (r: Vector)
    ensures |r| == |v|
  {
    if Sum(v) > 0.0 then Divide(v, Sum(v)) else v
  }

  /** The personalization vector each strategy returns. */
  ghost function Personalization(strategy: PersonalizationStrategy, ids: seq<string>,
                                 scores: Dict<string, real>, baseWeights: Dict<string, real>): (r: Vector)
    ensures |r| == |ids|
  {
    match strategy
    case SuspicionBased(w) => Normalized(SuspicionRaw(w, ids, scores, baseWeights))
    case TransactionVolume =>
      if baseWeights == [] then Uniform(|ids|)
      else
        var raw := VolumeRaw(ids, scores, baseWeights);
        if Sum(raw) > 0.0 then Normalized(raw) else Uniform(|ids|)
  }

  /** compute_personalization_vector of either strategy. */
  method ComputePersonalizationVector(strategy: PersonalizationStrategy, ids: seq<string>,
                                      scores: Dict<string, real>, baseWeights: Dict<string, real>)
    returns (p: Vector)
    requires DistinctKeys(scores) && DistinctKeys(baseWeights)
    ensures p == Personalization(strategy, ids, scores, baseWeights)
  {
    match strategy
    case SuspicionBased(w) =>
      p := SuspicionBasedVector(w, ids, scores, baseWeights);
    case TransactionVolume =>
      p := TransactionVolumeVector(ids, scores, baseWeights);
  }

  /** SuspicionBasedPersonalization.compute_personalization_vector. */
  method SuspicionBasedVector(suspicionWeight: real, ids: seq<string>, scores: Dict<string, real>,
                              baseWeights: Dict<string, real>) returns (p: Vector)
    requires DistinctKeys(scores) && DistinctKeys(baseWeights)
    ensures p == Normalized(SuspicionRaw(suspicionWeight, ids, scores, baseWeights))
  {
    var n := |ids|;
    var nodeToIdx := IndexMap(ids);
    var personalization := new real[n](i requires 0 <= i < n => 1.0 / n as real);
    assert personalization[..] == Uniform(n);
    var _ := ApplyBaseWeights(personalization, ids, nodeToIdx, baseWeights);
    ApplyBoosts(personalization, ids, nodeToIdx, suspicionWeight, scores);
    SuspicionRawByLoops(suspicionWeight, ids, scores, baseWeights);
    var total := Sum(personalization[..]);
    if total > 0.0 {
      DivideInPlace(personalization, total);
    }
    p := personalization[..];
  }

  /** TransactionVolumePersonalization.compute_personalization_vector. */
  method TransactionVolumeVector(ids: seq<string>, scores: Dict<string, real>, baseWeights: Dict<string, real>)
    returns (p: Vector)
    requires DistinctKeys(scores) && DistinctKeys(baseWeights)
    ensures p == Personalization(TransactionVolume, ids, scores, baseWeights)
  {
    var n := |ids|;
    if baseWeights == [] {
      return Uniform(n);
    }
    var nodeToIdx := IndexMap(ids);
    var personalization := new real[n](_ => 0.0);
    assert personalization[..] == Fill(n, 0.0);
    var totalWeight := ApplyBaseWeights(personalization, ids, nodeToIdx, baseWeights);
    ApplyVolumeBoosts(personalization, ids, nodeToIdx, totalWeight, scores);
    VolumeRawByLoops(ids, scores, baseWeights);
    var total := Sum(personalization[..]);
    if total > 0.0 {
      DivideInPlace(personalization, total);
      p := personalization[..];
    } else {
      p := Uniform(n);
    }
  }

  // ---------------------------------------------------------------------------
  // Properties
  // ---------------------------------------------------------------------------

  /** Normalisation yields a distribution exactly when the total is positive, and leaves the
      vector as it is otherwise. */
  lemma NormalizedSum(v: Vector)
    ensures Sum(v) > 0.0 ==> Sum(Normalized(v)) == 1.0
    ensures Sum(v) <= 0.0 ==> Normalized(v) == v
  {
    if Sum(v) > 0.0 {
      SumDivide(v, Sum(v));
      assert Sum(v) / Sum(v) == 1.0;
    }
  }

  /** TransactionVolume always returns a probability distribution over a non-empty id list. */
  lemma TransactionVolumeSumsToOne(ids: seq<string>, scores: Dict<string, real>, baseWeights: Dict<string, real>)
    requires |ids| > 0
    ensures Sum(Personalization(TransactionVolume, ids, scores, baseWeights)) == 1.0
  {
    SumUniform(|ids|);
    NormalizedSum(VolumeRaw(ids, scores, baseWeights));
  }

  /** SuspicionBased returns a distribution when its raw total is positive, and the raw vector
      itself (no error, no fallback) when it is not. */
  lemma SuspicionBasedSum(suspicionWeight: real, ids: seq<string>, scores: Dict<string, real>,
                          baseWeights: Dict<string, real>)
    ensures var raw := SuspicionRaw(suspicionWeight, ids, scores, baseWeights);
      && (Sum(raw) > 0.0 ==> Sum(Personalization(SuspicionBased(suspicionWeight), ids, scores, baseWeights)) == 1.0)
      && (Sum(raw) <= 0.0 ==> Personalization(SuspicionBased(suspicionWeight), ids, scores, baseWeights) == raw)
  {
    NormalizedSum(SuspicionRaw(suspicionWeight, ids, scores, baseWeights));
  }

  /** With no seeds at all, SuspicionBased is uniform: every entry starts at 1/n. */
  lemma SuspicionBasedWithoutSeeds(suspicionWeight: real, ids: seq<string>)
    requires |ids| > 0
    ensures Personalization(SuspicionBased(suspicionWeight), ids, [], []) == Uniform(|ids|)
  {
    var raw := SuspicionRaw(suspicionWeight, ids, [], []);
    assert raw == Uniform(|ids|);
    SumUniform(|ids|);
    assert Sum(raw) == 1.0;
    assert Divide(raw, 1.0) == raw;
  }

  /** A seed reaches exactly the last position holding its id: earlier duplicates of an id in
      node_ids keep their starting value. */
  lemma SeedOfLast(ids: seq<string>, seeds: Dict<string, real>, i: nat)
    requires i < |ids|
    ensures SeedOf(ids, seeds, i).Some? <==> HasKey(seeds, ids[i]) && forall j :: i < j < |ids| ==> ids[j] != ids[i]
    ensures SeedOf(ids, seeds, i).Some? ==> SeedOf(ids, seeds, i).value == Get(seeds, ids[i])
  {
    var m := IndexMap(ids);
    IndexMapLast(ids, ids[i]);
    if m[ids[i]] > i {
      assert ids[m[ids[i]]] == ids[i];
    }
  }

  /** An id that is not a node changes nothing: its entry in a seed map is ignored. */
  lemma SeedOfIgnoresUnknown(ids: seq<string>, seeds: Dict<string, real>, x: string, v: real, i: nat)
    requires DistinctKeys(seeds) && x !in ids && i < |ids|
    ensures SeedOf(ids, Put(seeds, x, v), i) == SeedOf(ids, seeds, i)
  {
    PutLookup(seeds, x, v);
  }
}
