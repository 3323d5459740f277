/** What stands behind every selection of every recorded vote. */
module Choices {
  import opened Schema
  import opened Voting
  import opened System
  import opened Moves
  import opened Evolution
  import opened BallotSafety
  import Quorum

  /** Vote `v` is cast at step `k`. */
  ghost predicate CastAt(run: seq<Action>, k: nat, v: VoteId) {
    k < |run| && v !in After(run[..k]).db.poll.votes && v in After(run[..k + 1]).db.poll.votes
  }

  lemma {:induction false} FindVote(run: seq<Action>, v: VoteId) returns (k: nat)
    requires v in After(run).db.poll.votes
    ensures CastAt(run, k, v)
    decreases |run|
  {
    hide Step;
    assert run != [];
    Prefixes(run);
    var shorter := run[..|run| - 1];
    hide After;
    if v in After(shorter).db.poll.votes {
      k := FindVote(shorter, v);
      assert shorter[..k] == run[..k] && shorter[..k + 1] == run[..k + 1];
    } else {
      k := |shorter|;
    }
  }

  lemma {:induction false} CastStep(run: seq<Action>, k: nat, v: VoteId)
    requires CastAt(run, k, v)
    ensures
      var db, p := After(run[..k]).db, After(run[..k + 1]).db.poll;
      var t := p.votes[v].ballotToken;
      && t in p.ballots && AllOk(db, p.ballots[t].electionId, p.votes[v].encryptedVote.plaintext)
      && IsRecord(p.votes[v].encryptedVote.plaintext)
      && p.ballots[t].electionId in db.gov.elections && db.gov.elections[p.ballots[t].electionId].status != Draft
  {
    var before, upTo := run[..k], run[..k + 1];
    assert upTo[..|upTo| - 1] == before && upTo[|upTo| - 1] == run[k];
    RunSafe(before);
    var s := After(before);
    var dt, g, m := StepMove(s, run[k]);
    hide After;
    hide Step;
    hide AllOk;
    hide IsRecord;
    hide Reports;
    hide GovEnabled;
    hide GovAfter;
    assert Pointer(s.db.poll, m.r, m.token);
  }

  /** The candidate of the selection stands for its position, and the position belongs to the election. */
  predicate StoodFor(g: Gov, x: Selection, e: ElectionId) {
    && x.position in g.positions && g.positions[x.position] == e
    && x.candidate in g.candidates && g.candidates[x.candidate].positionId == x.position
  }

  /** Every selection of every recorded vote was, when the vote was cast, an approved candidate for a
      position of the ballot's own election, one selection to a position; the position still belongs to
      that election, and two officers other than the candidate's user stand behind the candidate. */
  lemma {:induction false} SelectionsApproved(run: seq<Action>, v: VoteId) returns (k: nat)
    requires v in After(run).db.poll.votes
    ensures CastAt(run, k, v)
    ensures
      var db, p := After(run[..k]).db, After(run).db.poll;
      var t, selections := p.votes[v].ballotToken, p.votes[v].encryptedVote.plaintext;
      && t in p.ballots && AllOk(db, p.ballots[t].electionId, selections)
      && (forall i, j | 0 <= i < j < |selections| :: selections[i].position != selections[j].position)
      && forall i | 0 <= i < |selections| ::
           && StoodFor(db.gov, selections[i], p.ballots[t].electionId)
           && db.gov.candidates[selections[i].candidate].status == CandidateApproved
           && StoodFor(After(run).db.gov, selections[i], p.ballots[t].electionId)
           && Quorum.ApprovedCandidate(After(run).db.gov, selections[i].candidate)
  {
    k := FindVote(run, v);
    CastStep(run, k, v);
    assert run[..k + 1][..k] == run[..k];
    RunEvolves(run[..k + 1], k);
    RunEvolves(run, k + 1);
    RunEvolves(run, k);
    Quorum.RunGoverned(run[..k]);
    var db, p := After(run[..k]).db, After(run).db.poll;
    var t, selections := p.votes[v].ballotToken, p.votes[v].encryptedVote.plaintext;
    hide After;
    hide Quorum.ApprovedCandidate;
    forall i | 0 <= i < |selections|
      ensures StoodFor(db.gov, selections[i], p.ballots[t].electionId)
      ensures db.gov.candidates[selections[i].candidate].status == CandidateApproved
      ensures StoodFor(After(run).db.gov, selections[i], p.ballots[t].electionId)
      ensures Quorum.ApprovedCandidate(After(run).db.gov, selections[i].candidate)
    {
      assert SelectionOk(db, p.ballots[t].electionId, selections[i]);
      assert Quorum.CandidateOk(db.gov, selections[i].candidate);
      assert PositionOf(db.gov, selections[i].position, p.ballots[t].electionId);
      Quorum.ApprovedCandidateStable(db.gov, After(run).db.gov, selections[i].candidate);
    }
  }
}
