/** VoteRepository's derived queries over the votes table. The table is a sequence in insertion
    order; a query that names no order returns its rows in that order, one of the orders the
    database may use. */
module VoteQueries {
  import opened Wrappers
  import opened Tables
  import opened Entities

  /** The unique constraint on (user_id, traffic_report_id). */
  predicate OneVotePerPair(votes: seq<Vote>)
  {
    forall i, j :: 0 <= i < j < |votes| ==>
      votes[i].user != votes[j].user || votes[i].trafficReport != votes[j].trafficReport
  }

  function ForPair(user: int, reportId: int): Vote -> bool
  {
    (v: Vote) => v.user == user && v.trafficReport == reportId
  }

  function ForReport(reportId: int): Vote -> bool
  {
    (v: Vote) => v.trafficReport == reportId
  }

  function ByUser(user: int): Vote -> bool
  {
    (v: Vote) => v.user == user
  }

  function OfType(t: VoteType): Vote -> bool
  {
    (v: Vote) => v.voteType == t
  }

  function ForReportOfType(reportId: int, t: VoteType): Vote -> bool
  {
    (v: Vote) => v.trafficReport == reportId && v.voteType == t
  }

  function ByUserOfType(user: int, t: VoteType): Vote -> bool
  {
    (v: Vote) => v.user == user && v.voteType == t
  }

  /** findByUserAndTrafficReport: the position of the pair's vote, if any. */
  function FindPairIndex(votes: seq<Vote>, user: int, reportId: int): Option<nat>
  {
    FirstIndex(votes, ForPair(user, reportId))
  }

  /** findByUserAndTrafficReport: under the unique constraint, the one vote the user cast on
      the report, or nothing when there is none. */
  function FindByUserAndTrafficReport(votes: seq<Vote>, user: int, reportId: int): (r: Option<Vote>)
    ensures r.Some? ==> r.value in votes && r.value.user == user && r.value.trafficReport == reportId
    ensures r.None? <==> forall i :: 0 <= i < |votes| ==> !(votes[i].user == user && votes[i].trafficReport == reportId)
    ensures OneVotePerPair(votes) && r.Some? ==>
              forall i :: 0 <= i < |votes| && votes[i].user == user && votes[i].trafficReport == reportId ==>
                votes[i] == r.value
  {
    match FindPairIndex(votes, user, reportId)
    case None => None
    case Some(k) => Some(votes[k])
  }

  /** existsByUserAndTrafficReport */
  predicate ExistsByUserAndTrafficReport(votes: seq<Vote>, user: int, reportId: int)
  {
    exists i :: 0 <= i < |votes| && votes[i].user == user && votes[i].trafficReport == reportId
  }

  /** The existence test agrees with the lookup. */
  lemma ExistsIffFound(votes: seq<Vote>, user: int, reportId: int)
    ensures ExistsByUserAndTrafficReport(votes, user, reportId) <==>
            FindByUserAndTrafficReport(votes, user, reportId).Some?
  {
  }

  /** findByTrafficReport */
  function FindByTrafficReport(votes: seq<Vote>, reportId: int): seq<Vote>
  {
    Filter(votes, ForReport(reportId))
  }

  /** findByUser */
  function FindByUser(votes: seq<Vote>, user: int): seq<Vote>
  {
    Filter(votes, ByUser(user))
  }

  /** findByType */
  function FindByType(votes: seq<Vote>, t: VoteType): seq<Vote>
  {
    Filter(votes, OfType(t))
  }

  /** The three single-attribute queries return exactly the votes with that attribute, each as
      often as it is stored, in table order. */
  lemma SingleAttributeQueries(votes: seq<Vote>, reportId: int, user: int, t: VoteType)
    ensures forall v :: v in FindByTrafficReport(votes, reportId) <==> v in votes && v.trafficReport == reportId
    ensures forall v :: v in FindByUser(votes, user) <==> v in votes && v.user == user
    ensures forall v :: v in FindByType(votes, t) <==> v in votes && v.voteType == t
    ensures SubsequenceOf(FindByTrafficReport(votes, reportId), votes)
    ensures SubsequenceOf(FindByUser(votes, user), votes)
    ensures SubsequenceOf(FindByType(votes, t), votes)
  {
    FilterKeepsOrder(votes, ForReport(reportId));
    FilterKeepsOrder(votes, ByUser(user));
    FilterKeepsOrder(votes, OfType(t));
  }

  /** countVotesByTypeAndReport: the tally of one vote type on one report. */
  function Tally(votes: seq<Vote>, reportId: int, t: VoteType): nat
  {
    Count(votes, ForReportOfType(reportId, t))
  }

  /** countVotesByUserAndType */
  function CountVotesByUserAndType(votes: seq<Vote>, user: int, t: VoteType): nat
  {
    Count(votes, ByUserOfType(user, t))
  }

  /** Each count is the number of rows the matching single-attribute query returns after
      keeping only the vote type. */
  lemma {:induction false} CountsAgreeWithQueries(votes: seq<Vote>, reportId: int, user: int, t: VoteType)
    ensures Tally(votes, reportId, t) == |FindByType(FindByTrafficReport(votes, reportId), t)|
    ensures CountVotesByUserAndType(votes, user, t) == |FindByType(FindByUser(votes, user), t)|
  {
    if |votes| > 0 {
      CountsAgreeWithQueries(votes[1..], reportId, user, t);
    }
  }

  /** Every vote on a report is an UPVOTE or a DOWNVOTE: the two tallies add up to the number
      of votes on it. */
  lemma {:induction false} TalliesPartitionVotes(votes: seq<Vote>, reportId: int)
    ensures Tally(votes, reportId, Upvote) + Tally(votes, reportId, Downvote)
            == |FindByTrafficReport(votes, reportId)|
  {
    if |votes| > 0 {
      TalliesPartitionVotes(votes[1..], reportId);
    }
  }
}
