/** A register-then-vote walk through the handlers, using only their contracts.
    Embeddings are integers and the similarity is `Similarity` below. */
module Scenario {
  import opened Records
  import opened Text
  import opened Matcher
  import opened Tallying
  import opened Election

  /** 1.0 for equal embeddings, 0.9 between any two of the faces 1, 2 and 3 (one person
      photographed three times) and 0.1 otherwise. */
  function Similarity(a: int, b: int): real
  {
    if a == b then 1.0 else if a <= 3 && b <= 3 then 0.9 else 0.1
  }

  /** A first registration succeeds and gets rowid 1. */
  method FirstRegistration() returns (store: VoterStore<int>)
    ensures fresh(store) && store.Valid() && store.sim == Similarity
    ensures store.voters == [Voter(1, "Alice", 1)] && store.votes == []
  {
    store := new VoterStore(Similarity);
    StripOfTrimmed("Alice");
    var r := store.Register("Alice", true, [1]);
    assert r == Registered("Alice");
  }

  /** Each kind of registration refusal; none of them changes the tables. */
  method RegistrationRefusals(store: VoterStore<int>)
    requires store.Valid() && store.sim == Similarity
    requires store.voters == [Voter(1, "Alice", 1)] && store.votes == []
    modifies store
    ensures store.voters == [Voter(1, "Alice", 1)] && store.votes == []
  {
    StripOfTrimmed("Alice");
    StripOfTrimmed("Bob");
    assert FirstAbove(9, store.voters, Similarity) == None;
    assert FirstAbove(2, store.voters, Similarity) == Some(0);

    // The same name with a dissimilar face is refused by the UNIQUE constraint.
    var r := store.Register("Alice", true, [9]);
    assert r == Failure(400, DuplicateName("Alice"));

    // A similar face under a new name is refused by the duplicate-face scan, which runs first.
    r := store.Register("Bob", true, [2]);
    assert r == Failure(400, DuplicateFace("Alice"));

    // A blank name, a missing image and a missing face.
    assert Strip(" \t") == "";
    r := store.Register(" \t", true, [9]);
    assert r == Failure(400, MissingField);
    r := store.Register("Bob", false, [9]);
    assert r == Failure(400, MissingField);
    r := store.Register("Bob", true, []);
    assert r == Failure(400, NoFaceDetected);
  }

  /** Voting: Alice votes once; her second attempt and an unknown face are refused. */
  method VoteSteps(store: VoterStore<int>)
    requires store.Valid() && store.sim == Similarity
    requires store.voters == [Voter(1, "Alice", 1)] && store.votes == []
    modifies store
    ensures store.votes == [Vote(1, "X")]
  {
    StripOfTrimmed("X");
    StripOfTrimmed("Y");
    SingleVoterMatched(2, Voter(1, "Alice", 1), Similarity);
    SingleVoterMatched(3, Voter(1, "Alice", 1), Similarity);
    CutoffIsStrict(9, [Voter(1, "Alice", 1)], Similarity);

    var r := store.CastVote(true, "X", [2]);
    assert r == Voted("Alice", "X");
    assert store.votes == [Vote(1, "X")];
    assert store.votes[0].voterId == 1;

    r := store.CastVote(true, "Y", [3]);
    assert r == Failure(403, AlreadyVoted);

    r := store.CastVote(true, "Y", [9]);
    assert r == Failure(404, NoMatchingVoter);
  }

  /** The whole scenario ends with one vote for X in the tally. */
  method Walkthrough()
  {
    var store := FirstRegistration();
    RegistrationRefusals(store);
    VoteSteps(store);
    var rows := store.Results();
    assert rows == [TallyRow("X", 1)];
  }
}
