/** Face matching over a snapshot of the `voters` table. */
module Matcher {
  import opened Records

  /** The acceptance cutoff hard-coded in both the matcher and the registration scan. */
  const ACCEPT_THRESHOLD: real := 0.65

  /** The default of `find_best_match`'s `threshold` parameter, which the body never reads. */
  const DEFAULT_THRESHOLD: real := 0.35

  /** The similarity of the probe to a stored row. */
  function Score<E>(probe: E, v: Voter<E>, sim: (E, E) -> real): real
  {
    sim(probe, v.embedding)
  }

  /** The similarity vector `cosine_similarity(emb, embeddings)[0]`, one score per row. */
  function Scores<E>(probe: E, rows: seq<Voter<E>>, sim: (E, E) -> real): (s: seq<real>)
    ensures |s| == |rows|
    ensures forall i :: 0 <= i < |rows| ==> s[i] == Score(probe, rows[i], sim)
  {
    seq(|rows|, i requires 0 <= i < |rows| => Score(probe, rows[i], sim))
  }

  /** numpy's `argmax`: the index of the first maximal element. */
  function ArgMax(s: seq<real>): (k: nat)
    requires |s| > 0
    ensures k < |s|
    ensures forall j :: 0 <= j < |s| ==> s[j] <= s[k]
    ensures forall j :: 0 <= j < k ==> s[j] < s[k]
  {
    if |s| == 1 then 0
    else
      var k := ArgMax(s[..|s| - 1]);
      if s[|s| - 1] > s[k] then |s| - 1 else k
  }

  /** Some stored row scores strictly above the acceptance cutoff. */
  ghost predicate AnyAbove<E>(probe: E, rows: seq<Voter<E>>, sim: (E, E) -> real)
  {
    exists i :: 0 <= i < |rows| && Score(probe, rows[i], sim) > ACCEPT_THRESHOLD
  }

  /** Row `k` has the highest score, and no earlier row has it. */
  ghost predicate IsFirstBest<E>(probe: E, rows: seq<Voter<E>>, sim: (E, E) -> real, k: int)
  {
    && 0 <= k < |rows|
    && (forall j :: 0 <= j < |rows| ==> Score(probe, rows[j], sim) <= Score(probe, rows[k], sim))
    && (forall j :: 0 <= j < k ==> Score(probe, rows[j], sim) < Score(probe, rows[k], sim))
  }

  /** `find_best_match(emb, threshold)`: the best-scoring row if its score exceeds 0.65.
      The `threshold` argument is accepted and ignored, as in the source. */
  function FindBestMatch<E>(probe: E, rows: seq<Voter<E>>, sim: (E, E) -> real,
                            threshold: real := DEFAULT_THRESHOLD): (r: Option<Match>)
    ensures |rows| == 0 ==> r == None
    ensures r.Some? <==> AnyAbove(probe, rows, sim)
    ensures r.Some? ==> exists k :: IsFirstBest(probe, rows, sim, k) &&
                                    Score(probe, rows[k], sim) > ACCEPT_THRESHOLD &&
                                    r.value == Match(rows[k].id, rows[k].name)
  {
    if |rows| == 0 then None
    else
      var sims := Scores(probe, rows, sim);
      var best := ArgMax(sims);
      assert IsFirstBest(probe, rows, sim, best);
      if sims[best] > ACCEPT_THRESHOLD then Some(Match(rows[best].id, rows[best].name))
      else None
  }

  /** The registration scan: the first row, in table order, scoring above 0.65. */
  function FirstAbove<E>(probe: E, rows: seq<Voter<E>>, sim: (E, E) -> real): (r: Option<nat>)
    ensures r.None? <==> !AnyAbove(probe, rows, sim)
    ensures r.Some? ==> r.value < |rows| && Score(probe, rows[r.value], sim) > ACCEPT_THRESHOLD
    ensures r.Some? ==> forall j :: 0 <= j < r.value ==> Score(probe, rows[j], sim) <= ACCEPT_THRESHOLD
  {
    if |rows| == 0 then None
    else if Score(probe, rows[0], sim) > ACCEPT_THRESHOLD then Some(0)
    else
      match FirstAbove(probe, rows[1..], sim)
      case None => None
      case Some(i) => Some(i + 1)
  }

  /** The `threshold` argument never changes the result. */
  lemma ThresholdIgnored<E>(probe: E, rows: seq<Voter<E>>, sim: (E, E) -> real, t1: real, t2: real)
    ensures FindBestMatch(probe, rows, sim, t1) == FindBestMatch(probe, rows, sim, t2)
  {
  }

  /** A best score of exactly 0.65 is rejected: the comparison is strict. */
  lemma CutoffIsStrict<E>(probe: E, rows: seq<Voter<E>>, sim: (E, E) -> real)
    requires forall j :: 0 <= j < |rows| ==> Score(probe, rows[j], sim) <= ACCEPT_THRESHOLD
    ensures FindBestMatch(probe, rows, sim) == None
  {
  }

  /** A single stored voter whose score exceeds the cutoff is returned as the match. */
  lemma SingleVoterMatched<E>(probe: E, v: Voter<E>, sim: (E, E) -> real)
    requires Score(probe, v, sim) > ACCEPT_THRESHOLD
    ensures FindBestMatch(probe, [v], sim) == Some(Match(v.id, v.name))
  {
  }

  /** The registration scan and the matcher agree on whether any stored face is close enough. */
  lemma ScanAgreesWithMatcher<E>(probe: E, rows: seq<Voter<E>>, sim: (E, E) -> real)
    ensures FirstAbove(probe, rows, sim).Some? <==> FindBestMatch(probe, rows, sim).Some?
  {
  }

  /** The first row above the cutoff scores no higher than the match, and the match never
      comes from an earlier row. */
  lemma MatchNoWorseThanScan<E>(probe: E, rows: seq<Voter<E>>, sim: (E, E) -> real, k: int)
    requires IsFirstBest(probe, rows, sim, k)
    requires FirstAbove(probe, rows, sim).Some?
    ensures Score(probe, rows[FirstAbove(probe, rows, sim).value], sim) <= Score(probe, rows[k], sim)
    ensures FirstAbove(probe, rows, sim).value <= k
  {
  }

  /** The registration scan can name a different voter than the matcher would:
      with scores 0.7 then 0.9 the scan reports the first row, the matcher the second. */
  lemma ScanNeedNotNameBestVoter()
    ensures var rows := [Voter(1, "Ann", 0), Voter(2, "Bob", 1)];
            var sim := (p: int, e: int) => if e == 0 then 0.7 else 0.9;
            FirstAbove(0, rows, sim) == Some(0) &&
            FindBestMatch(0, rows, sim) == Some(Match(2, "Bob"))
  {
  }
}
