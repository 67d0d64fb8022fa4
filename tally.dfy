/** The `/results` aggregate: `SELECT candidate, COUNT(*) FROM votes GROUP BY candidate`. */
module Tallying {
  import opened Records

  /** One output row of the group-by: a candidate label and its number of vote rows. */
  datatype TallyRow = TallyRow(candidate: string, votes: nat)

  /** The number of rows of `votes` carrying label `c`. */
  function Count(votes: seq<Vote>, c: string): nat
  {
    if |votes| == 0 then 0
    else Count(votes[..|votes| - 1], c) + (if votes[|votes| - 1].candidate == c then 1 else 0)
  }

  /** Some row of the tally is for label `c`. */
  predicate Lists(t: seq<TallyRow>, c: string)
  {
    |t| > 0 && (t[0].candidate == c || Lists(t[1..], c))
  }

  /** No label is listed twice. */
  predicate DistinctLabels(t: seq<TallyRow>)
  {
    |t| == 0 || (!Lists(t[1..], t[0].candidate) && DistinctLabels(t[1..]))
  }

  /** Every listed label has at least one vote. */
  predicate AllPositive(t: seq<TallyRow>)
  {
    forall i :: 0 <= i < |t| ==> t[i].votes >= 1
  }

  /** The count a tally gives label `c`: that of its first row for `c`, or 0 if it lists none. */
  function Lookup(t: seq<TallyRow>, c: string): nat
  {
    if |t| == 0 then 0
    else if t[0].candidate == c then t[0].votes
    else Lookup(t[1..], c)
  }

  /** The sum of all counts of a tally. */
  function Total(t: seq<TallyRow>): nat
  {
    if |t| == 0 then 0 else t[0].votes + Total(t[1..])
  }

  /** Adds one vote for `c` to a tally: increments its row, or appends a new row with count 1. */
  function Bump(t: seq<TallyRow>, c: string): (r: seq<TallyRow>)
    ensures forall d :: Lists(r, d) <==> Lists(t, d) || d == c
    ensures forall d :: Lookup(r, d) == Lookup(t, d) + (if d == c then 1 else 0)
    ensures Total(r) == Total(t) + 1
    ensures DistinctLabels(t) ==> DistinctLabels(r)
    ensures AllPositive(t) ==> AllPositive(r)
  {
    if |t| == 0 then [TallyRow(c, 1)]
    else if t[0].candidate == c then [TallyRow(c, t[0].votes + 1)] + t[1..]
    else [t[0]] + Bump(t[1..], c)
  }

  /** The grouped counts, listed in order of each label's first vote (the source leaves the
      order of `GROUP BY` output unspecified). */
  function Tally(votes: seq<Vote>): (t: seq<TallyRow>)
    ensures DistinctLabels(t)
    ensures AllPositive(t)
    ensures forall c :: Lists(t, c) <==> Count(votes, c) > 0
    ensures forall c :: Lookup(t, c) == Count(votes, c)
    ensures Total(t) == |votes|
  {
    if |votes| == 0 then []
    else Bump(Tally(votes[..|votes| - 1]), votes[|votes| - 1].candidate)
  }

  /** `Lists` holds exactly when some row carries the label. */
  lemma {:induction false} ListsAt(t: seq<TallyRow>, c: string)
    ensures Lists(t, c) <==> exists i :: 0 <= i < |t| && t[i].candidate == c
  {
    if |t| > 0 {
      ListsAt(t[1..], c);
      assert forall i :: 0 < i < |t| ==> t[i] == t[1..][i - 1];
    }
  }

  /** In a tally without repeated labels, each row holds the count `Lookup` gives its label. */
  lemma {:induction false} LookupDistinct(t: seq<TallyRow>, i: int)
    requires DistinctLabels(t)
    requires 0 <= i < |t|
    ensures Lookup(t, t[i].candidate) == t[i].votes
  {
    if i > 0 {
      ListsAt(t[1..], t[0].candidate);
      assert t[1..][i - 1] == t[i];
      LookupDistinct(t[1..], i - 1);
    }
  }

  /** Each row of the tally carries exactly the number of vote rows with its label, at least one. */
  lemma TallyRowCounts(votes: seq<Vote>, i: int)
    requires 0 <= i < |Tally(votes)|
    ensures Tally(votes)[i].votes == Count(votes, Tally(votes)[i].candidate)
    ensures Tally(votes)[i].votes >= 1
  {
    LookupDistinct(Tally(votes), i);
  }
}
