/** The rows of the two tables and the structured results of the request handlers. */
module Records {

  datatype Option<+T> = None | Some(value: T)

  /** A row of the `voters` table: rowid, unique display name and the stored face embedding. */
  datatype Voter<E> = Voter(id: int, name: string, embedding: E)

  /** A row of the `votes` table (the row's own id and timestamp are not modelled). */
  datatype Vote = Vote(voterId: int, candidate: string)

  /** The (id, name) pair that the matcher returns for an accepted probe. */
  datatype Match = Match(id: int, name: string)

  /** Why a request was rejected. */
  datatype ErrorKind =
    | MissingField                    // name/candidate empty after trimming, or no image
    | NoFaceDetected                  // the extractor found no face
    | DuplicateFace(existing: string) // the probe is too similar to this registered voter
    | DuplicateName(name: string)     // the UNIQUE constraint on voters.name refused the insert
    | NoMatchingVoter                 // no registered face is similar enough to the probe
    | AlreadyVoted                    // the matched voter already has a vote row

  /** The JSON body of a response, with the HTTP status of a failure. */
  datatype Response =
    | Registered(name: string)
    | Voted(voter: string, candidate: string)
    | Failure(status: nat, error: ErrorKind)
}
