/** The request handlers of the voting service over the `voters` and `votes` tables. */
module Election {
  import opened Records
  import opened Text
  import opened Matcher
  import opened Tallying

  /** Voter ids are positive and strictly increasing in table order (SQLite rowids, starting at 1). */
  ghost predicate IdsIncreasing<E>(voters: seq<Voter<E>>)
  {
    && (forall i :: 0 <= i < |voters| ==> voters[i].id > 0)
    && (forall i, j :: 0 <= i < j < |voters| ==> voters[i].id < voters[j].id)
  }

  /** The UNIQUE constraint on `voters.name`. */
  ghost predicate NamesDistinct<E>(voters: seq<Voter<E>>)
  {
    forall i, j :: 0 <= i < j < |voters| ==> voters[i].name != voters[j].name
  }

  /** Some voter row has this id. */
  ghost predicate IsVoterId<E>(voters: seq<Voter<E>>, id: int)
  {
    exists k :: 0 <= k < |voters| && voters[k].id == id
  }

  /** At most one vote row per voter id. */
  ghost predicate OneVotePerVoter(votes: seq<Vote>)
  {
    forall i, j :: 0 <= i < j < |votes| ==> votes[i].voterId != votes[j].voterId
  }

  /** Every vote row refers to an existing voter. */
  ghost predicate VotesReferenceVoters<E>(voters: seq<Voter<E>>, votes: seq<Vote>)
  {
    forall i :: 0 <= i < |votes| ==> IsVoterId(voters, votes[i].voterId)
  }

  /** The invariant of the two tables. */
  ghost predicate TablesValid<E>(voters: seq<Voter<E>>, votes: seq<Vote>)
  {
    && IdsIncreasing(voters)
    && NamesDistinct(voters)
    && OneVotePerVoter(votes)
    && VotesReferenceVoters(voters, votes)
  }

  /** Some voter row already has this name: the insert would violate UNIQUE. */
  predicate NameTaken<E>(voters: seq<Voter<E>>, name: string)
  {
    exists k :: 0 <= k < |voters| && voters[k].name == name
  }

  /** `SELECT * FROM votes WHERE voter_id = ?` returns a row. */
  predicate HasVoted(votes: seq<Vote>, id: int)
  {
    exists i :: 0 <= i < |votes| && votes[i].voterId == id
  }

  /** The rowid SQLite gives the next inserted voter: one more than the largest in use, or 1.
      With no deletions the largest rowid is that of the last row. */
  function NextId<E>(voters: seq<Voter<E>>): (id: int)
    requires IdsIncreasing(voters)
    ensures id > 0
    ensures forall k :: 0 <= k < |voters| ==> voters[k].id < id
  {
    if |voters| == 0 then 1 else voters[|voters| - 1].id + 1
  }

  class VoterStore<E> {
    var voters: seq<Voter<E>>
    var votes: seq<Vote>
    /** The library cosine similarity, left uninterpreted. */
    const sim: (E, E) -> real

    ghost predicate Valid()
      reads this
    {
      TablesValid(voters, votes)
    }

    /** Empty tables, as `init_db` creates them. */
    constructor (sim: (E, E) -> real)
      ensures Valid()
      ensures voters == [] && votes == [] && this.sim == sim
    {
      voters := [];
      votes := [];
      this.sim := sim;
    }

    /** The duplicate-face loop of `register`: returns the index of the first stored voter
        whose score exceeds 0.65, or None. */
    method ScanForDuplicate(emb: E) returns (hit: Option<nat>)
      ensures hit == FirstAbove(emb, voters, sim)
    {
      var i := 0;
      while i < |voters|
        invariant 0 <= i <= |voters|
        invariant forall j :: 0 <= j < i ==> Score(emb, voters[j], sim) <= ACCEPT_THRESHOLD
      {
        if Score(emb, voters[i], sim) > ACCEPT_THRESHOLD {
          return Some(i);
        }
        i := i + 1;
      }
      return None;
    }

    /** `INSERT INTO voters (name, embedding)`: refused by the UNIQUE constraint when the name
        is taken, otherwise appends a row with a fresh rowid. */
    method InsertVoter(name: string, emb: E) returns (id: Option<int>)
      requires Valid()
      modifies this
      ensures Valid()
      ensures votes == old(votes)
      ensures NameTaken(old(voters), name) ==> id == None && voters == old(voters)
      ensures !NameTaken(old(voters), name) ==>
                id == Some(NextId(old(voters))) &&
                voters == old(voters) + [Voter(NextId(old(voters)), name, emb)]
    {
      if NameTaken(voters, name) {
        return None;
      }
      var newId := NextId(voters);
      voters := voters + [Voter(newId, name, emb)];
      id := Some(newId);
      assert IsVoterId(voters, newId) by { assert voters[|voters| - 1].id == newId; }
      forall i | 0 <= i < |votes|
        ensures IsVoterId(voters, votes[i].voterId)
      {
        var k :| 0 <= k < |old(voters)| && old(voters)[k].id == votes[i].voterId;
        assert voters[k] == old(voters)[k];
      }
    }

    /** `POST /register`: validate the fields, take the first detected face, reject a face
        already registered, then insert under the UNIQUE name constraint. */
    method Register(rawName: string, hasImage: bool, faces: seq<E>) returns (res: Response)
      requires Valid()
      modifies this
      ensures Valid()
      ensures votes == old(votes)
      ensures res.Failure? ==> voters == old(voters) && res.status == 400
      ensures Strip(rawName) == "" || !hasImage ==> res == Failure(400, MissingField)
      ensures Strip(rawName) != "" && hasImage && |faces| == 0 ==> res == Failure(400, NoFaceDetected)
      ensures Strip(rawName) != "" && hasImage && |faces| > 0 ==>
                match FirstAbove(faces[0], old(voters), sim)
                case Some(i) => res == Failure(400, DuplicateFace(old(voters)[i].name))
                case None =>
                  if NameTaken(old(voters), Strip(rawName)) then
                    res == Failure(400, DuplicateName(Strip(rawName)))
                  else
                    res == Registered(Strip(rawName)) &&
                    voters == old(voters) + [Voter(NextId(old(voters)), Strip(rawName), faces[0])]
    {
      var name := Strip(rawName);
      if name == "" || !hasImage {
        return Failure(400, MissingField);
      }
      if |faces| == 0 {
        return Failure(400, NoFaceDetected);
      }
      var emb := faces[0];
      var dup := ScanForDuplicate(emb);
      if dup.Some? {
        return Failure(400, DuplicateFace(voters[dup.value].name));
      }
      var id := InsertVoter(name, emb);
      if id.None? {
        return Failure(400, DuplicateName(name));
      }
      res := Registered(name);
    }

    /** `INSERT INTO votes (voter_id, candidate)`. */
    method RecordVote(voterId: int, candidate: string)
      requires Valid()
      requires IsVoterId(voters, voterId) && !HasVoted(votes, voterId)
      modifies this
      ensures Valid()
      ensures voters == old(voters)
      ensures votes == old(votes) + [Vote(voterId, candidate)]
    {
      votes := votes + [Vote(voterId, candidate)];
      assert votes[|votes| - 1].voterId == voterId;
    }

    /** `POST /vote`: validate the fields, take the first detected face, find the matching
        voter, refuse a second vote, then record the vote. */
    method CastVote(hasImage: bool, rawCandidate: string, faces: seq<E>) returns (res: Response)
      requires Valid()
      modifies this
      ensures Valid()
      ensures voters == old(voters)
      ensures res.Failure? ==> votes == old(votes)
      ensures !hasImage || Strip(rawCandidate) == "" ==> res == Failure(400, MissingField)
      ensures hasImage && Strip(rawCandidate) != "" && |faces| == 0 ==> res == Failure(400, NoFaceDetected)
      ensures hasImage && Strip(rawCandidate) != "" && |faces| > 0 ==>
                match FindBestMatch(faces[0], old(voters), sim)
                case None => res == Failure(404, NoMatchingVoter)
                case Some(m) =>
                  if HasVoted(old(votes), m.id) then
                    res == Failure(403, AlreadyVoted)
                  else
                    res == Voted(m.name, Strip(rawCandidate)) &&
                    votes == old(votes) + [Vote(m.id, Strip(rawCandidate))]
    {
      var candidate := Strip(rawCandidate);
      if !hasImage || candidate == "" {
        return Failure(400, MissingField);
      }
      if |faces| == 0 {
        return Failure(400, NoFaceDetected);
      }
      var emb := faces[0];
      var found := FindBestMatch(emb, voters, sim);
      // `if not voter_id`: also falsy for id 0, which positive rowids never produce.
      if found.None? || found.value.id == 0 {
        return Failure(404, NoMatchingVoter);
      }
      var m := found.value;
      if HasVoted(votes, m.id) {
        return Failure(403, AlreadyVoted);
      }
      RecordVote(m.id, candidate);
      res := Voted(m.name, candidate);
    }

    /** `GET /results`: the grouped counts of the `votes` table. */
    method Results() returns (rows: seq<TallyRow>)
      ensures rows == Tally(votes)
      ensures DistinctLabels(rows) && AllPositive(rows)
      ensures forall c :: Lookup(rows, c) == Count(votes, c)
      ensures forall c :: Lists(rows, c) <==> Count(votes, c) > 0
      ensures Total(rows) == |votes|
    {
      rows := Tally(votes);
    }
  }
}
