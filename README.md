# Face-verified voting: a Dafny model

This project models the decision logic of a small biometric voting service. A person
registers a name and a face. Later they present a face to cast one vote for a candidate,
and the service looks up who they are by comparing that face with every stored one. A
results page counts the votes per candidate.

The modelled state is two tables, held as sequences in the class `Election.VoterStore`:

- `voters`: rows `(id, name, embedding)`. Ids are SQLite rowids, so they are positive and
  strictly increasing. Names are unique.
- `votes`: rows `(voterId, candidate)`.

A face embedding is a type parameter `E`. Cosine similarity is a total function
`sim: (E, E) -> real` fixed when the store is created. Nothing in the model depends on how
it is computed. The face extractor's output is an input to each handler, as a sequence of
embeddings, and the handlers use its first element.

Modules:

- `Records`: the row types, `Option`, the matcher's `Match` and the `Response` and `ErrorKind` values.
- `Text`: Python's `str.strip()`. It removes the characters for which `str.isspace`
  holds from both ends of a string.
- `Matcher`: `find_best_match`, numpy's first-maximum `argmax`, and the registration
  scan that stops at the first stored face scoring above 0.65.
- `Tallying`: the `GROUP BY candidate` count behind `/results`.
- `Election`: the store class and its invariant, and the `register`, `vote` and
  `results` handlers.
- `Scenario`: a client that registers a voter and votes twice, using only the
  handlers' contracts.

The acceptance cutoff is the hard-coded 0.65. The `threshold` parameter of
`find_best_match` (default 0.35) is kept as a parameter, and `Matcher.ThresholdIgnored`
proves it has no effect.

The duplicate-face scan (app.py:99-104) runs before the insert that enforces the
UNIQUE name (app.py:107-111). So an existing name presented with a similar face is
refused as a duplicate face, not a duplicate name.
`Election.VoterStore.Register` states this order, and `Scenario.RegistrationRefusals`
shows both outcomes.

## Model

| member | source | states |
|---|---|---|
| `Text.Strip` | app.py:84 | the result is the slice of the input left after dropping whitespace from both ends; it is empty iff every character is whitespace; when non-empty it neither starts nor ends with whitespace |
| `Matcher.Scores` | app.py:66-68 | the definition of the score vector: one score per stored row, in table order, each `sim(probe, embedding)` |
| `Matcher.ArgMax` | app.py:69 | the index is that of a maximal score, and every earlier score is strictly smaller (first maximum wins) |
| `Matcher.FindBestMatch` | app.py:58-73 | no match for an empty table; a match iff some stored score is strictly above 0.65; a match is the (id, name) of the earliest row with the highest score |
| `Matcher.ThresholdIgnored` | app.py:58 | the `threshold` argument never changes the result |
| `Matcher.CutoffIsStrict` | app.py:71-73 | when no score exceeds 0.65, a best score equal to 0.65 included, there is no match |
| `Matcher.SingleVoterMatched` | app.py:68-72 | with one stored voter scoring above 0.65, that voter is the match |
| `Matcher.FirstAbove` | app.py:100-104 | none iff no stored score exceeds 0.65; otherwise the index of the first row above 0.65, every earlier row being at or below it |
| `Matcher.ScanAgreesWithMatcher` | app.py:99-104 | the registration scan finds a duplicate exactly when the matcher would accept the probe |
| `Matcher.MatchNoWorseThanScan` | app.py:99-104 | the row the scan reports never scores higher than the best row, and never comes after it |
| `Matcher.ScanNeedNotNameBestVoter` | app.py:103-104 | a concrete table where the scan names the first voter above 0.65 while the matcher picks a later, better one |
| `Tallying.Bump` | app.py:144 | adding a vote for a label adds that label, raises its count by one, raises the total by one, and keeps labels distinct and counts positive |
| `Tallying.Tally` | app.py:144-145 | labels are distinct; each count is at least one; a label is listed iff it has a vote; each label's count is its number of vote rows; the counts sum to the number of vote rows |
| `Tallying.TallyRowCounts` | app.py:144-145 | every output row carries exactly the number of vote rows with its label, and at least one |
| `Election.NameTaken` | app.py:31 | the definition of the UNIQUE name test the insert at app.py:108 runs: some voter row already has the name |
| `Election.HasVoted` | app.py:133-134 | the definition of the eligibility test: the vote lookup for the voter id returns a row (a `sqlite3.Row` is truthy) |
| `Election.NextId` | app.py:30 | the rowid given to a new voter is positive and larger than every id in use |
| `Election.VoterStore.constructor` | app.py:27-40 | both tables start empty and satisfy the table invariant |
| `Election.VoterStore.ScanForDuplicate` | app.py:98-104 | the loop returns the first row in table order scoring above 0.65, or none |
| `Election.VoterStore.InsertVoter` | app.py:107-111 | a taken name is refused and nothing changes; otherwise exactly one row with the next rowid is appended; votes are untouched |
| `Election.VoterStore.Register` | app.py:79-112 | errors come in order: missing name or image (400), no face (400), duplicate face naming the first close voter (400), duplicate name (400); a rejection changes neither table; success appends one voter with the trimmed name and the first face; votes never change; the table invariant is kept |
| `Election.VoterStore.RecordVote` | app.py:137-138 | appends exactly one vote row for an existing voter without a vote, keeping at most one vote per voter |
| `Election.VoterStore.CastVote` | app.py:114-139 | errors come in order: missing image or candidate (400), no face (400), no matching voter (404), already voted (403); a rejection changes nothing; success appends one (matched id, trimmed candidate) row and answers with the voter's name; voters never change; at most one vote per voter and every vote refers to a voter |
| `Election.VoterStore.Results` | app.py:141-146 | the rows returned are the tally of the votes table, with the properties of `Tallying.Tally` |

## Left out

- HTTP routing, templates and JSON encoding (app.py:75-77, 141-146). Only the response value and its status code are modelled. The success status is implicit (200).
- The insightface model, image decoding and the BGR channel flip (app.py:17-18, 89-90, 121-122). The extractor's output is an input sequence of embeddings.
- The arithmetic of cosine similarity (app.py:68, 102). It is the uninterpreted `sim`, a total function to `real`. Floating-point effects such as NaN scores are not modelled.
- `embedding_to_blob` and `blob_to_embedding` (app.py:52-56). Embeddings are an opaque type, so the float32 byte round trip is taken as exact.
- SQLite connection lifetime, schema creation and teardown (app.py:20-50). Rowid exhaustion at 2^63-1 is not modelled: the next id is always the last id plus one.
- Storage failures other than the UNIQUE name constraint. Only the register insert (app.py:107-111) catches storage errors and answers 400; the model has no other storage failure.
- Uncaught exceptions, which Flask answers with status 500: an upload that PIL cannot decode (app.py:89, 121), and a storage error outside the register insert (the SELECTs at app.py:60, 99 and 133, the vote INSERT and commit at app.py:137-138). `Response` has no such outcome.
- The `ts` column of `votes` and each vote row's own id (app.py:35, 38).
- The order of rows returned by the voter SELECTs (app.py:60, 99), which have no ORDER BY. The model reads them in rowid order, the order SQLite's table scan gives here; "first" in `Matcher.FindBestMatch`, `Matcher.ArgMax`, `Matcher.FirstAbove` and `Election.VoterStore.ScanForDuplicate` means first in that order.
- The order of `GROUP BY` output, which SQLite leaves unspecified. `Tallying.Tally` lists labels in the order of their first vote.
- The race between the has-voted check and the insert in `vote` (app.py:133-137). Requests are sequential in this model.
- A request with an image whose upload has an empty filename. Such a file is falsy in the source. The model folds this into `hasImage: bool`.
- script.js: browser camera capture and the `fetch` call.
