/** The conflict decision of registration: given the records the store
    returned for "e-mail equals OR handle equals", look at the first one. */
module Conflicts {
  import opened Models

  datatype Conflict = NoConflict | EmailAndHandleTaken | HandleTaken | EmailTaken

  /** What the store query selects: a record with the candidate e-mail or the
      candidate handle. */
  predicate MatchesEmailOrHandle(u: User, email: string, username: string) {
    u.email == email || u.username == username
  }

  /** Only the first returned record is inspected. */
  function FindConflict(existing: seq<User>, email: string, username: string): (r: Conflict)
    ensures r != NoConflict ==> |existing| > 0 && MatchesEmailOrHandle(existing[0], email, username)
    ensures r == NoConflict ==> |existing| == 0 || !MatchesEmailOrHandle(existing[0], email, username)
  {
    if |existing| == 0 then NoConflict
    else
      var user := existing[0];
      if user.username == username && user.email == email then EmailAndHandleTaken
      else if user.username == username then HandleTaken
      else if user.email == email then EmailTaken
      else NoConflict
  }

  /** The message a failed registration carries for each conflict. */
  function ConflictMessage(k: Conflict): (m: string)
    requires k != NoConflict
    ensures k == EmailAndHandleTaken ==> m == "Email address and UserHandle already in use"
    ensures k == HandleTaken ==> m == "UserHandle already in use"
    ensures k == EmailTaken ==> m == "Email address already in use"
  {
    match k
    case EmailAndHandleTaken => "Email address and UserHandle already in use"
    case HandleTaken => "UserHandle already in use"
    case EmailTaken => "Email address already in use"
  }

  /** Each outcome, stated as a condition on the first returned record. */
  lemma FindConflictCases(existing: seq<User>, email: string, username: string)
    ensures (FindConflict(existing, email, username) == EmailAndHandleTaken)
              <==> |existing| > 0 && existing[0].username == username && existing[0].email == email
    ensures (FindConflict(existing, email, username) == HandleTaken)
              <==> |existing| > 0 && existing[0].username == username && existing[0].email != email
    ensures (FindConflict(existing, email, username) == EmailTaken)
              <==> |existing| > 0 && existing[0].username != username && existing[0].email == email
    ensures (FindConflict(existing, email, username) == NoConflict)
              <==> |existing| == 0 || !MatchesEmailOrHandle(existing[0], email, username)
  {
  }

  /** When every returned record really matches the query, registration goes
      ahead exactly when the query returned nothing. */
  lemma NoConflictIffNothingFound(existing: seq<User>, email: string, username: string)
    requires forall i :: 0 <= i < |existing| ==> MatchesEmailOrHandle(existing[i], email, username)
    ensures FindConflict(existing, email, username) == NoConflict <==> existing == []
  {
  }

  /** The decision depends on the first record only: the rest of the result
      can be anything. */
  lemma FirstRecordDecides(existing: seq<User>, rest: seq<User>, email: string, username: string)
    requires |existing| > 0
    ensures FindConflict(existing, email, username) == FindConflict([existing[0]] + rest, email, username)
  {
  }

  /** The three conflict messages are distinct, so the caller can tell them apart. */
  lemma ConflictMessagesDistinct(k: Conflict, l: Conflict)
    requires k != NoConflict && l != NoConflict
    ensures ConflictMessage(k) == ConflictMessage(l) <==> k == l
  {
  }
}
