/** The database as an object: one field per table, updated in place by the services. */
module Database {
  import opened Schema

  class Store {
    var clock: int
    var students: map<UserId, StudentId>
    var elections: map<ElectionId, Election>
    var positions: map<PositionId, ElectionId>
    var candidates: map<CandidateId, Candidate>
    var requests: map<RequestId, Request>
    var approvals: map<(RequestId, UserId), Decision>
    var registrations: map<RegistrationId, Registration>
    var byStudent: map<(StudentId, ElectionId), RegistrationId>
    var ballots: map<Token, Ballot>
    var votes: map<VoteId, Vote>
    var receipts: map<ReceiptCode, Receipt>
    var log: seq<LogEntry>
    ghost var owner: map<Token, RegistrationId>
    ghost var stale: set<Token>
    ghost var checkedAt: map<Token, int>

    constructor ()
      ensures View() == EMPTY_DB
    {
      clock, log := 0, [];
      students, elections, positions, candidates := map[], map[], map[], map[];
      requests, approvals, registrations, byStudent := map[], map[], map[], map[];
      ballots, votes, receipts := map[], map[], map[];
      owner, stale, checkedAt := map[], {}, map[];
    }

    /** The state of the object as a value. */
    ghost function View(): Db
      reads this
    {
      Db(clock, Gov(students, elections, positions, candidates, requests, approvals),
         Poll(registrations, byStudent, ballots, votes, receipts, owner, stale, checkedAt), log)
    }

    /** `appendAuditEvent`, inside the transaction of its caller. */
    method AppendAuditEvent(actor: Actor, event: Event)
      modifies this`log
      ensures View() == Logged(old(View()), actor, event)
    {
      log := log + [LogEntry(actor, event, clock)];
    }
  }
}
