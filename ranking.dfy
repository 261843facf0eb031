/**
 * get_top_fraud_candidates: rank every node by its PageRank score, boosted by its suspicion
 * score when suspicion scores are given, and keep the first top_k of the ranking.
 *
 * Python's list.sort is stable, also with reverse=True: entries with equal keys keep their
 * input order. The model sorts candidates tagged with their input position by insertion,
 * which is stable, and proves the ranking sorted, stable and a permutation of the input.
 */
module Ranking {
  import opened OrderedDicts

  /** The top_k get_top_fraud_candidates uses when none is given. */
  const DefaultTopK: int := 10

  /** One ranked node: (node_id, pr_score, suspicion, combined_score). */
  datatype Candidate = Candidate(nodeId: string, score: real, suspicion: real, combined: real)

  /** A candidate with its position in the input dict. */
  datatype Entry = Entry(candidate: Candidate, position: nat)

  function Key(e: Entry): real {
    e.candidate.combined
  }

  /** The combined score pr_score * (1 + suspicion) of a node. */
  function Combined(score: real, suspicion: real): real {
    score * (1.0 + suspicion)
  }

  /** The candidate built for entry i of the PageRank scores: with a non-empty suspicion dict
      its suspicion defaults to 0.0 and its key is the combined score; otherwise its
      suspicion is 0.0 and its key is the PageRank score itself. */
  function CandidateAt(scores: Dict<string, real>, suspicion: Dict<string, real>, i: nat): (c: Candidate)
    requires i < |scores|
    ensures c.nodeId == scores[i].0 && c.score == scores[i].1
    ensures c.combined == Combined(c.score, c.suspicion)
  {
    var (nodeId, score) := scores[i];
    if |suspicion| > 0 then
      var s := GetOr(suspicion, nodeId, 0.0);
      Candidate(nodeId, score, s, Combined(score, s))
    else
      Candidate(nodeId, score, 0.0, score)
  }

  /** The candidate list before sorting, each tagged with its position. */
  function Candidates(scores: Dict<string, real>, suspicion: Dict<string, real>): (cs: seq<Entry>)
    ensures |cs| == |scores| && forall i :: 0 <= i < |scores| ==> cs[i] == Entry(CandidateAt(scores, suspicion, i), i)
  {
    seq(|scores|, i requires 0 <= i < |scores| => Entry(CandidateAt(scores, suspicion, i), i))
  }

  // ---------------------------------------------------------------------------
  // Stable sort, descending by key
  // ---------------------------------------------------------------------------

  ghost predicate SortedDesc(s: seq<Entry>) {
    forall p, q :: 0 <= p < q < |s| ==> Key(s[p]) >= Key(s[q])
  }

  /** Entries with equal keys appear in input order. */
  ghost predicate Stable(s: seq<Entry>) {
    forall p, q :: 0 <= p < q < |s| && Key(s[p]) == Key(s[q]) ==> s[p].position < s[q].position
  }

  /** Inserts x after every entry whose key is at least x's. */
  function Insert(s: seq<Entry>, x: Entry): (r: seq<Entry>)
    ensures |r| == |s| + 1 && multiset(r) == multiset(s) + multiset{x}
  {
    if s == [] then [x]
    else if Key(s[0]) >= Key(x) then
      assert s == [s[0]] + s[1..];
      [s[0]] + Insert(s[1..], x)
    else [x] + s
  }

  /** candidates.sort(key=..., reverse=True): insertion sort, last entry inserted last. */
  function SortDescending(s: seq<Entry>): (r: seq<Entry>)
    ensures |r| == |s| && multiset(r) == multiset(s)
  {
    if s == [] then []
    else
      assert s == s[..|s| - 1] + [s[|s| - 1]];
      Insert(SortDescending(s[..|s| - 1]), s[|s| - 1])
  }

  lemma {:induction false} InsertSorted(s: seq<Entry>, x: Entry)
    requires SortedDesc(s)
    ensures SortedDesc(Insert(s, x))
  {
    if s != [] && Key(s[0]) >= Key(x) {
      var t := Insert(s[1..], x);
      InsertSorted(s[1..], x);
      forall q | 0 <= q < |t| ensures Key(s[0]) >= Key(t[q]) {
        assert t[q] in multiset(s[1..]) + multiset{x};
      }
    }
  }

  lemma {:induction false} InsertStable(s: seq<Entry>, x: Entry)
    requires SortedDesc(s) && Stable(s)
    requires forall e :: e in s ==> e.position < x.position
    ensures Stable(Insert(s, x))
  {
    if s != [] && Key(s[0]) >= Key(x) {
      var t := Insert(s[1..], x);
      InsertStable(s[1..], x);
      forall q | 0 <= q < |t| && Key(s[0]) == Key(t[q]) ensures s[0].position < t[q].position {
        HeadBefore(s, x, q);
      }
    }
  }

  /** The head of a stable list comes before every entry of the rest, x included, that has
      its key, when x comes after every entry. */
  lemma HeadBefore(s: seq<Entry>, x: Entry, q: nat)
    requires s != [] && Stable(s)
    requires forall e :: e in s ==> e.position < x.position
    requires q < |Insert(s[1..], x)| && Key(s[0]) == Key(Insert(s[1..], x)[q])
    ensures s[0].position < Insert(s[1..], x)[q].position
  {
    var e := Insert(s[1..], x)[q];
    assert e in multiset(s[1..]) + multiset{x};
    if e != x {
      var j :| 0 <= j < |s[1..]| && s[1..][j] == e;
      assert s[j + 1] == e;
    }
  }

  /** Positions strictly increase along s, as they do in the candidate list. */
  ghost predicate InInputOrder(s: seq<Entry>) {
    forall p, q :: 0 <= p < q < |s| ==> s[p].position < s[q].position
  }

  /** The sort orders by descending key and, among equal keys, by input position. */
  lemma {:induction false} SortDescendingSortedStable(s: seq<Entry>)
    requires InInputOrder(s)
    ensures SortedDesc(SortDescending(s)) && Stable(SortDescending(s))
  {
    if s != [] {
      var init := s[..|s| - 1];
      var x := s[|s| - 1];
      SortDescendingSortedStable(init);
      forall e | e in SortDescending(init) ensures e.position < x.position {
        assert e in multiset(init);
      }
      InsertSorted(SortDescending(init), x);
      InsertStable(SortDescending(init), x);
    }
  }

  // ---------------------------------------------------------------------------
  // The ranking
  // ---------------------------------------------------------------------------

  /** The length of l[:k] for a list of length n (negative k counts from the end). */
  function SliceEnd(n: nat, k: int): (m: nat)
    ensures m <= n
    ensures k >= 0 ==> m == if k < n then k else n
    ensures k < 0 ==> m == if n + k > 0 then n + k else 0
  {
    if k >= 0 then (if k < n then k else n)
    else if n + k > 0 then n + k else 0
  }

  /** The (node_id, pr_score, suspicion) triple of an entry. */
  function Triple(e: Entry): (string, real, real) {
    (e.candidate.nodeId, e.candidate.score, e.candidate.suspicion)
  }

  /** The node ids of a result, in order. */
  function Ids(result: seq<(string, real, real)>): (ids: seq<string>)
    ensures |ids| == |result| && forall p :: 0 <= p < |result| ==> ids[p] == result[p].0
  {
    seq(|result|, p requires 0 <= p < |result| => result[p].0)
  }

  /** The key a result triple was ranked by. */
  function RankKey(t: (string, real, real)): real {
    Combined(t.1, t.2)
  }

  /** The candidate list: an explicit loop when suspicion scores are given, a comprehension
      otherwise. */
  method BuildCandidates(scores: Dict<string, real>, suspicion: Dict<string, real>) returns (cs: seq<Entry>)
    ensures cs == Candidates(scores, suspicion)
  {
    if |suspicion| > 0 {
      cs := [];
      for i := 0 to |scores|
        invariant cs == Candidates(scores, suspicion)[..i]
      {
        var (nodeId, prScore) := scores[i];
        var s := GetOr(suspicion, nodeId, 0.0);
        var combinedScore := Combined(prScore, s);
        cs := cs + [Entry(Candidate(nodeId, prScore, s, combinedScore), i)];
      }
    } else {
      cs := seq(|scores|, i requires 0 <= i < |scores| => Entry(Candidate(scores[i].0, scores[i].1, 0.0, scores[i].1), i));
    }
  }

  /** Every entry of a permutation of the candidate list is the candidate at its position. */
  lemma Tagged(scores: Dict<string, real>, suspicion: Dict<string, real>, sorted: seq<Entry>, p: nat)
    requires multiset(sorted) == multiset(Candidates(scores, suspicion)) && p < |sorted|
    ensures sorted[p].position < |scores| && sorted[p] == Entry(CandidateAt(scores, suspicion, sorted[p].position), sorted[p].position)
  {
    assert sorted[p] in multiset(Candidates(scores, suspicion));
  }

  /** The ranking holds no position twice. */
  lemma DistinctPositions(scores: Dict<string, real>, suspicion: Dict<string, real>, sorted: seq<Entry>, p: nat, q: nat)
    requires multiset(sorted) == multiset(Candidates(scores, suspicion))
    requires Stable(sorted) && p < q < |sorted|
    ensures sorted[p].position != sorted[q].position
  {
    Tagged(scores, suspicion, sorted, p);
    Tagged(scores, suspicion, sorted, q);
  }

  /** get_top_fraud_candidates: the first top_k nodes by descending combined score (by
      PageRank score alone, with suspicion 0.0, when no suspicion score is given), ties in
      the input dict's order. */
  method GetTopFraudCandidates(scores: Dict<string, real>, topK: int, suspicion: Dict<string, real>)
    returns (result: seq<(string, real, real)>)
    requires DistinctKeys(scores)
    ensures |result| == SliceEnd(|scores|, topK)
    ensures forall p :: 0 <= p < |result| ==>
      && HasKey(scores, result[p].0) && result[p].1 == Get(scores, result[p].0)
      && result[p].2 == (if |suspicion| > 0 then GetOr(suspicion, result[p].0, 0.0) else 0.0)
    ensures forall p, q :: 0 <= p < q < |result| ==> result[p].0 != result[q].0
    ensures forall p, q :: 0 <= p < q < |result| ==> RankKey(result[p]) >= RankKey(result[q])
    ensures forall p, q :: 0 <= p < q < |result| && RankKey(result[p]) == RankKey(result[q]) ==>
      IndexOf(scores, result[p].0) < IndexOf(scores, result[q].0)
    ensures forall i, p :: 0 <= i < |scores| && 0 <= p < |result| && scores[i].0 !in Ids(result) ==>
      var c := CandidateAt(scores, suspicion, i);
      RankKey(result[p]) > c.combined || (RankKey(result[p]) == c.combined && IndexOf(scores, result[p].0) < i)
  {
    var candidates := BuildCandidates(scores, suspicion);
    var sorted := SortDescending(candidates);
    SortDescendingSortedStable(candidates);
    var m := SliceEnd(|scores|, topK);
    result := seq(m, p requires 0 <= p < m => Triple(sorted[p]));
    RankingEntries(scores, suspicion, sorted, m, result);
    RankingDistinct(scores, suspicion, sorted, m, result);
    forall i, p | 0 <= i < |scores| && 0 <= p < m && scores[i].0 !in Ids(result)
      ensures var c := CandidateAt(scores, suspicion, i);
        RankKey(result[p]) > c.combined || (RankKey(result[p]) == c.combined && IndexOf(scores, result[p].0) < i)
    {
      RankingTop(scores, suspicion, sorted, m, result, i, p);
    }
  }

  /** Each entry of the ranking is a node of the input with its own scores, and its place
      among equal keys is its input position. */
  lemma RankingEntries(scores: Dict<string, real>, suspicion: Dict<string, real>, sorted: seq<Entry>,
                       m: nat, result: seq<(string, real, real)>)
    requires DistinctKeys(scores)
    requires multiset(sorted) == multiset(Candidates(scores, suspicion)) && m <= |sorted|
    requires |result| == m && forall p :: 0 <= p < m ==> result[p] == Triple(sorted[p])
    ensures forall p :: 0 <= p < |result| ==>
      && HasKey(scores, result[p].0) && result[p].1 == Get(scores, result[p].0)
      && result[p].2 == (if |suspicion| > 0 then GetOr(suspicion, result[p].0, 0.0) else 0.0)
      && RankKey(result[p]) == Key(sorted[p])
      && IndexOf(scores, result[p].0) == sorted[p].position
  {
    forall p | 0 <= p < m
      ensures HasKey(scores, result[p].0) && result[p].1 == Get(scores, result[p].0)
      ensures result[p].2 == (if |suspicion| > 0 then GetOr(suspicion, result[p].0, 0.0) else 0.0)
      ensures RankKey(result[p]) == Key(sorted[p])
      ensures IndexOf(scores, result[p].0) == sorted[p].position
    {
      Tagged(scores, suspicion, sorted, p);
      IndexOfUnique(scores, sorted[p].position);
    }
  }

  /** No node is ranked twice. */
  lemma RankingDistinct(scores: Dict<string, real>, suspicion: Dict<string, real>, sorted: seq<Entry>,
                        m: nat, result: seq<(string, real, real)>)
    requires DistinctKeys(scores)
    requires multiset(sorted) == multiset(Candidates(scores, suspicion)) && Stable(sorted) && m <= |sorted|
    requires |result| == m && forall p :: 0 <= p < m ==> result[p] == Triple(sorted[p])
    ensures forall p, q :: 0 <= p < q < |result| ==> result[p].0 != result[q].0
  {
    forall p, q | 0 <= p < q < m ensures result[p].0 != result[q].0 {
      DistinctPositions(scores, suspicion, sorted, p, q);
      Tagged(scores, suspicion, sorted, p);
      Tagged(scores, suspicion, sorted, q);
      IndexOfUnique(scores, sorted[p].position);
      IndexOfUnique(scores, sorted[q].position);
    }
  }

  /** A node left out of the slice ranks below every node in it, or ties with it and comes
      later in the input. */
  lemma RankingTop(scores: Dict<string, real>, suspicion: Dict<string, real>, sorted: seq<Entry>,
                   m: nat, result: seq<(string, real, real)>, i: nat, p: nat)
    requires multiset(sorted) == multiset(Candidates(scores, suspicion)) && SortedDesc(sorted) && Stable(sorted)
    requires m <= |sorted|
    requires |result| == m && forall p :: 0 <= p < m ==> result[p] == Triple(sorted[p])
    requires i < |scores| && p < m && scores[i].0 !in Ids(result)
    ensures var c := CandidateAt(scores, suspicion, i);
      Key(sorted[p]) > c.combined || (Key(sorted[p]) == c.combined && sorted[p].position < i)
  {
    var cs := Candidates(scores, suspicion);
    assert cs[i] in multiset(sorted);
    var q :| 0 <= q < |sorted| && sorted[q] == cs[i];
    assert sorted[q].candidate.nodeId == scores[i].0;
    assert forall r :: 0 <= r < m ==> Ids(result)[r] == sorted[r].candidate.nodeId;
  }
}
