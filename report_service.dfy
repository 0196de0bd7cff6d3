/** TrafficReportService.java: the report life cycle and the vote ledger over the traffic_reports
    and votes tables. Each table is a sequence in insertion order; IDENTITY ids come from counters
    that start at 1; the /topic/reports channel is the log of the reports sent on it. Each public
    method is one transaction that the model validates at the point where the entity is checked
    against its constraints; when it fails, nothing it did is kept and nothing is sent. For an
    update that check is placed after the not-found and permission guards and before the
    broadcast, which is one of the orders the source allows. */
module ReportLedger {
  import opened Wrappers
  import opened Text
  import opened Tables
  import opened Entities
  import opened VoteQueries
  import opened ReportQueries

  /** The fields of a TrafficReportRequest the service copies. */
  datatype ReportRequest = ReportRequest(
    title: string,
    description: Option<string>,
    category: TrafficCategory,
    severity: Severity,
    latitude: int,
    longitude: int,
    address: Option<string>,
    imageUrl: Option<string>)

  /** The message a failed bean validation carries; its wording is not part of this model. */
  const ValidationMessage: string := "validation failed"

  /** The exceptions the service throws. A constraint violation carries the bean validator's
      message, whose wording this model does not fix. */
  datatype ServiceError =
    | ReportNotFound(id: int)
    | NoPermission(action: string)
    | ConstraintViolation(message: string)

  function ErrorMessage(e: ServiceError): (m: string)
    ensures e.ReportNotFound? ==> m == "Traffic report not found with id: " + IntToString(e.id)
    ensures e.NoPermission? ==> m == "You don't have permission to " + e.action + " this report"
    ensures e.ConstraintViolation? ==> m == e.message
  {
    match e
    case ReportNotFound(id) => "Traffic report not found with id: " + IntToString(id)
    case NoPermission(action) => "You don't have permission to " + action + " this report"
    case ConstraintViolation(message) => message
  }

  /** The report counter a vote type is counted on. */
  function CountOf(r: TrafficReport, t: VoteType): int
  {
    if t == Upvote then r.upvotes else r.downvotes
  }

  function Opposite(t: VoteType): VoteType
  {
    if t == Upvote then Downvote else Upvote
  }

  /** `count + 1` on the counter of t. */
  function AddVote(r: TrafficReport, t: VoteType): TrafficReport
  {
    if t == Upvote then r.(upvotes := r.upvotes + 1) else r.(downvotes := r.downvotes + 1)
  }

  /** `Math.max(0, count - 1)` on the counter of t. */
  function RemoveVote(r: TrafficReport, t: VoteType): TrafficReport
  {
    if t == Upvote then r.(upvotes := if r.upvotes - 1 >= 0 then r.upvotes - 1 else 0)
    else r.(downvotes := if r.downvotes - 1 >= 0 then r.downvotes - 1 else 0)
  }

  /** updateVoteCounts: take the old vote off, floored at zero, then add the new one. */
  function UpdateVoteCounts(r: TrafficReport, oldType: VoteType, newType: VoteType): TrafficReport
  {
    AddVote(RemoveVote(r, oldType), newType)
  }

  /** The counters voteOnReport leaves on the report, given the voter's earlier vote if any. */
  function CountVote(r: TrafficReport, previous: Option<Vote>, t: VoteType): TrafficReport
  {
    match previous
    case None => AddVote(r, t)
    case Some(v) => UpdateVoteCounts(r, v.voteType, t)
  }

  /** Only the counters change. A first vote adds one to the voted counter; a changed vote moves
      one unit from the old counter, floored at zero, to the new one; re-casting the same type
      leaves a positive count as it was; counters never become negative. */
  lemma CountVoteMeaning(r: TrafficReport, previous: Option<Vote>, t: VoteType)
    ensures var c := CountVote(r, previous, t);
            && c.(upvotes := r.upvotes, downvotes := r.downvotes) == r
            && (previous.None? ==>
                  CountOf(c, t) == CountOf(r, t) + 1 && CountOf(c, Opposite(t)) == CountOf(r, Opposite(t)))
            && (previous.Some? && previous.value.voteType != t ==>
                  && CountOf(c, t) == CountOf(r, t) + 1
                  && CountOf(c, Opposite(t)) == (if CountOf(r, Opposite(t)) >= 1 then CountOf(r, Opposite(t)) - 1 else 0))
            && (previous.Some? && previous.value.voteType == t && CountOf(r, t) >= 1 ==> c == r)
            && (r.upvotes >= 0 && r.downvotes >= 0 ==> c.upvotes >= 0 && c.downvotes >= 0)
  {
  }

  /** The votes table after the vote: the voter's stored vote on the report gets the new type,
      or a new vote row is appended. */
  function RecordVote(votes: seq<Vote>, user: int, reportId: int, t: VoteType, voteId: int, now: int)
    : seq<Vote>
  {
    match FindPairIndex(votes, user, reportId)
    case Some(k) => votes[k := votes[k].(voteType := t)]
    case None => votes + [Vote(voteId, t, now, user, reportId)]
  }

  /** A first vote appends exactly one row for the pair; a repeat vote overwrites only that row's
      type, keeping its id and creation time. Every other row is untouched, the pair has exactly
      one row afterwards, carrying the new type, and the unique constraint still holds. */
  lemma RecordVoteMeaning(votes: seq<Vote>, user: int, reportId: int, t: VoteType, voteId: int, now: int)
    requires OneVotePerPair(votes)
    ensures var r := RecordVote(votes, user, reportId, t, voteId, now);
            && OneVotePerPair(r)
            && Count(r, ForPair(user, reportId)) == 1
            && (forall i :: 0 <= i < |r| && r[i].user == user && r[i].trafficReport == reportId ==>
                  r[i].voteType == t)
            && (forall i :: 0 <= i < |votes| && !(votes[i].user == user && votes[i].trafficReport == reportId) ==>
                  r[i] == votes[i])
            && (FindByUserAndTrafficReport(votes, user, reportId).None? ==>
                  r == votes + [Vote(voteId, t, now, user, reportId)])
            && (FindByUserAndTrafficReport(votes, user, reportId).Some? ==>
                  && |r| == |votes|
                  && (forall i :: 0 <= i < |r| ==> r[i].id == votes[i].id && r[i].createdAt == votes[i].createdAt))
  {
    var r := RecordVote(votes, user, reportId, t, voteId, now);
    match FindPairIndex(votes, user, reportId)
    case Some(k) =>
      forall i | 0 <= i < |r| && i != k ensures !ForPair(user, reportId)(r[i]) {
      }
      CountUpdate(votes, k, r[k], ForPair(user, reportId));
      assert Filter(votes, ForPair(user, reportId)) == [votes[k]] by {
        OnlyMatch(votes, k, ForPair(user, reportId));
      }
    case None =>
      CountNone(votes, ForPair(user, reportId));
      CountConcat(votes, [Vote(voteId, t, now, user, reportId)], ForPair(user, reportId));
  }

  /** With a single row satisfying p, that row is all Filter keeps. */
  lemma {:induction false} OnlyMatch<T>(s: seq<T>, k: nat, p: T -> bool)
    requires k < |s| && p(s[k])
    requires forall i :: 0 <= i < |s| && i != k ==> !p(s[i])
    ensures Filter(s, p) == [s[k]]
  {
    if k == 0 {
      CountNone(s[1..], p);
    } else {
      OnlyMatch(s[1..], k - 1, p);
    }
  }

  /** The key arithmetic fact of the ledger: when each counter is at least its tally, a vote
      keeps both differences between counter and tally constant, and leaves every other report's
      tallies alone. */
  lemma VoteKeepsSurplus(votes: seq<Vote>, r: TrafficReport, user: int, t: VoteType, voteId: int, now: int)
    requires r.upvotes >= Tally(votes, r.id, Upvote) && r.downvotes >= Tally(votes, r.id, Downvote)
    ensures var previous := FindByUserAndTrafficReport(votes, user, r.id);
            var after := RecordVote(votes, user, r.id, t, voteId, now);
            var c := CountVote(r, previous, t);
            && c.upvotes - Tally(after, r.id, Upvote) == r.upvotes - Tally(votes, r.id, Upvote)
            && c.downvotes - Tally(after, r.id, Downvote) == r.downvotes - Tally(votes, r.id, Downvote)
            && (forall id, u :: id != r.id ==> Tally(after, id, u) == Tally(votes, id, u))
  {
    var after := RecordVote(votes, user, r.id, t, voteId, now);
    match FindPairIndex(votes, user, r.id)
    case Some(k) =>
      var v := votes[k];
      CountMember(votes, k, ForReportOfType(r.id, v.voteType));
      CountUpdate(votes, k, v.(voteType := t), ForReportOfType(r.id, Upvote));
      CountUpdate(votes, k, v.(voteType := t), ForReportOfType(r.id, Downvote));
      forall id, u | id != r.id ensures Tally(after, id, u) == Tally(votes, id, u) {
        CountUpdate(votes, k, v.(voteType := t), ForReportOfType(id, u));
      }
    case None =>
      var nv := Vote(voteId, t, now, user, r.id);
      CountConcat(votes, [nv], ForReportOfType(r.id, Upvote));
      CountConcat(votes, [nv], ForReportOfType(r.id, Downvote));
      forall id, u | id != r.id ensures Tally(after, id, u) == Tally(votes, id, u) {
        CountConcat(votes, [nv], ForReportOfType(id, u));
      }
  }

  predicate UniqueReportIds(reports: seq<TrafficReport>)
  {
    forall i, j :: 0 <= i < j < |reports| ==> reports[i].id != reports[j].id
  }

  /** The ledger invariant: every report's counters equal the tallies of its stored votes. */
  predicate TalliesMatch(reports: seq<TrafficReport>, votes: seq<Vote>)
  {
    forall i :: 0 <= i < |reports| ==>
      reports[i].upvotes == Tally(votes, reports[i].id, Upvote)
      && reports[i].downvotes == Tally(votes, reports[i].id, Downvote)
  }

  /** A vote on the k-th report keeps the counters equal to the tallies, for it and for every
      other report. */
  lemma VotePreservesTallies(reports: seq<TrafficReport>, votes: seq<Vote>, k: nat, user: int,
                             t: VoteType, voteId: int, now: int)
    requires k < |reports| && UniqueReportIds(reports) && TalliesMatch(reports, votes)
    ensures var r := reports[k];
            var after := RecordVote(votes, user, r.id, t, voteId, now);
            TalliesMatch(reports[k := CountVote(r, FindByUserAndTrafficReport(votes, user, r.id), t)], after)
  {
    var r := reports[k];
    VoteKeepsSurplus(votes, r, user, t, voteId, now);
    CountVoteMeaning(r, FindByUserAndTrafficReport(votes, user, r.id), t);
  }

  /** A report whose id no vote refers to, with zero counters, can join the ledger. */
  lemma NewReportJoinsLedger(reports: seq<TrafficReport>, votes: seq<Vote>, r: TrafficReport)
    requires TalliesMatch(reports, votes)
    requires forall i :: 0 <= i < |votes| ==> votes[i].trafficReport != r.id
    requires r.upvotes == 0 && r.downvotes == 0
    ensures TalliesMatch(reports + [r], votes)
  {
    CountNone(votes, ForReportOfType(r.id, Upvote));
    CountNone(votes, ForReportOfType(r.id, Downvote));
  }

  /** The position of the report with that id: findById. */
  function FindReportIndex(reports: seq<TrafficReport>, id: int): (r: Option<nat>)
    ensures r.Some? ==> r.value < |reports| && reports[r.value].id == id
    ensures r.None? <==> forall i :: 0 <= i < |reports| ==> reports[i].id != id
  {
    FirstIndex(reports, SameId(id))
  }

  /** The report createReport builds: the request's fields, the caller as owner, the creation
      time, and the entity's defaults for everything else. */
  function CreatedReport(request: ReportRequest, id: int, owner: int, now: int): (r: TrafficReport)
    ensures HasReportDefaults(r) && r.owner == owner && r.id == id && r.createdAt == now
    ensures r.imageUrl == request.imageUrl
    ensures r == NewTrafficReport(request.title, request.description, request.category, request.severity,
                                  request.latitude, request.longitude, request.address, owner)
                   .(id := id, createdAt := now, imageUrl := request.imageUrl)
  {
    TrafficReport(id, request.title, request.description, request.category, request.severity,
                  request.latitude, request.longitude, request.address, request.imageUrl,
                  false, true, 0, 0, now, owner)
  }

  /** The eight setters of updateReport. */
  function ApplyRequest(r: TrafficReport, request: ReportRequest): TrafficReport
  {
    r.(title := request.title, description := request.description, category := request.category,
       severity := request.severity, latitude := request.latitude, longitude := request.longitude,
       address := request.address, imageUrl := request.imageUrl)
  }

  /** updateReport overwrites exactly the eight request fields: id, verified, active, the
      counters, the creation time and the owner stay as they were, and applying the same request
      twice is the same as applying it once. */
  lemma ApplyRequestMeaning(r: TrafficReport, request: ReportRequest)
    ensures var u := ApplyRequest(r, request);
            && u.id == r.id && u.verified == r.verified && u.active == r.active
            && u.upvotes == r.upvotes && u.downvotes == r.downvotes
            && u.createdAt == r.createdAt && u.owner == r.owner
            && u.title == request.title && u.description == request.description
            && u.category == request.category && u.severity == request.severity
            && u.latitude == request.latitude && u.longitude == request.longitude
            && u.address == request.address && u.imageUrl == request.imageUrl
            && ApplyRequest(u, request) == u
  {
  }

  /** The outcome updateReport reaches for the stored tables: the checks in the source's order,
      then the updated report. */
  function UpdateDecision(reports: seq<TrafficReport>, id: int, request: ReportRequest, caller: User)
    : Result<TrafficReport, ServiceError>
  {
    match FindReportIndex(reports, id)
    case None => Err(ReportNotFound(id))
    case Some(k) =>
      if !MayModify(reports[k].owner, caller) then Err(NoPermission("update"))
      else if !ValidTrafficReport(ApplyRequest(reports[k], request)) then Err(ConstraintViolation(ValidationMessage))
      else Ok(ApplyRequest(reports[k], request))
  }

  /** The outcome deleteReport reaches. */
  function DeleteDecision(reports: seq<TrafficReport>, id: int, caller: User): Result<TrafficReport, ServiceError>
  {
    match FindReportIndex(reports, id)
    case None => Err(ReportNotFound(id))
    case Some(k) =>
      if !MayModify(reports[k].owner, caller) then Err(NoPermission("delete"))
      else Ok(reports[k].(active := false))
  }

  /** The two guarded operations fail exactly when the id is unknown or the caller may not
      modify the report (or, for an update, the result fails validation), and on success return
      the stored report with only the intended fields changed. */
  lemma GuardedOperationsMeaning(reports: seq<TrafficReport>, id: int, request: ReportRequest, caller: User)
    ensures var u := UpdateDecision(reports, id, request, caller);
            var d := DeleteDecision(reports, id, caller);
            && ((forall i :: 0 <= i < |reports| ==> reports[i].id != id) <==> u == Err(ReportNotFound(id)))
            && ((forall i :: 0 <= i < |reports| ==> reports[i].id != id) <==> d == Err(ReportNotFound(id)))
            && (d.Ok? <==> exists i :: 0 <= i < |reports| && reports[i].id == id && MayModify(reports[i].owner, caller)
                              && (forall j :: 0 <= j < i ==> reports[j].id != id))
            && (u.Ok? ==> d.Ok? && ValidTrafficReport(u.value))
            && (d.Ok? ==> d.value.id == id && !d.value.active)
            && (u.Ok? ==> u.value.id == id)
  {
    match FindReportIndex(reports, id)
    case None =>
    case Some(k) =>
      ApplyRequestMeaning(reports[k], request);
  }

  /** A soft delete keeps the row, so the attribute queries still return it, but no report with
      that id is returned by the active queries any more. */
  lemma SoftDeleteHidesFromActiveQueries(reports: seq<TrafficReport>, k: nat)
    requires k < |reports| && UniqueReportIds(reports)
    ensures var deleted := reports[k := reports[k].(active := false)];
            && reports[k].(active := false) in FindByCategory(deleted, reports[k].category)
            && reports[k].(active := false) in ReportQueries.FindByUser(deleted, reports[k].owner)
            && (forall x :: x in FindActiveNewestFirst(deleted) ==> x.id != reports[k].id)
            && (forall x :: x in FindByActiveTrue(reports) && x.id != reports[k].id ==>
                  x in FindByActiveTrue(deleted))
  {
    var deleted := reports[k := reports[k].(active := false)];
    AttributeQueriesKeepInactive(deleted, reports[k].category, reports[k].severity, reports[k].owner);
    AttributeQueriesKeepInactive(reports, reports[k].category, reports[k].severity, reports[k].owner);
    assert deleted[k] == reports[k].(active := false);
    forall x | x in FindByActiveTrue(reports) && x.id != reports[k].id
      ensures x in FindByActiveTrue(deleted)
    {
      var i :| 0 <= i < |reports| && reports[i] == x;
      assert deleted[i] == x;
    }
  }

  /** What the tables always satisfy: report ids are unique and handed out below the next id,
      every stored report passes validation, vote ids are unique and below the next id, every
      vote refers to a report id already handed out, the unique constraint on (user, report)
      holds, and the counters equal the tallies. */
  predicate LedgerValid(reports: seq<TrafficReport>, votes: seq<Vote>, nextReportId: int, nextVoteId: int)
  {
    && 1 <= nextReportId && 1 <= nextVoteId
    && UniqueReportIds(reports)
    && (forall i :: 0 <= i < |reports| ==> 1 <= reports[i].id < nextReportId)
    && (forall i :: 0 <= i < |reports| ==> ValidTrafficReport(reports[i]))
    && (forall i :: 0 <= i < |votes| ==> 1 <= votes[i].id < nextVoteId && votes[i].trafficReport < nextReportId)
    && (forall i, j :: 0 <= i < j < |votes| ==> votes[i].id != votes[j].id)
    && OneVotePerPair(votes)
    && TalliesMatch(reports, votes)
  }

  /** A vote on a stored report keeps the ledger valid. */
  lemma VoteKeepsLedgerValid(reports: seq<TrafficReport>, votes: seq<Vote>, nextReportId: int, nextVoteId: int,
                             k: nat, user: int, t: VoteType, now: int)
    requires LedgerValid(reports, votes, nextReportId, nextVoteId) && k < |reports|
    ensures var previous := FindByUserAndTrafficReport(votes, user, reports[k].id);
            LedgerValid(reports[k := CountVote(reports[k], previous, t)],
                        RecordVote(votes, user, reports[k].id, t, nextVoteId, now),
                        nextReportId,
                        if previous.None? then nextVoteId + 1 else nextVoteId)
  {
    var reportId := reports[k].id;
    var previous := FindByUserAndTrafficReport(votes, user, reportId);
    var c := CountVote(reports[k], previous, t);
    CountVoteMeaning(reports[k], previous, t);
    RecordVoteMeaning(votes, user, reportId, t, nextVoteId, now);
    VotePreservesTallies(reports, votes, k, user, t, nextVoteId, now);
    VoteRowsStayValid(votes, user, reportId, t, nextVoteId, now, nextReportId);
    ReportRowsStayValid(reports, nextReportId, k, c);
  }

  /** Replacing a stored report by a valid one with the same id keeps the report rows valid. */
  lemma ReportRowsStayValid(reports: seq<TrafficReport>, nextReportId: int, k: nat, c: TrafficReport)
    requires k < |reports| && c.id == reports[k].id && ValidTrafficReport(c)
    requires UniqueReportIds(reports)
    requires forall i :: 0 <= i < |reports| ==> 1 <= reports[i].id < nextReportId
    requires forall i :: 0 <= i < |reports| ==> ValidTrafficReport(reports[i])
    ensures var after := reports[k := c];
            && UniqueReportIds(after)
            && (forall i :: 0 <= i < |after| ==> 1 <= after[i].id < nextReportId)
            && (forall i :: 0 <= i < |after| ==> ValidTrafficReport(after[i]))
  {
    var after := reports[k := c];
    assert forall i :: 0 <= i < |after| ==> after[i].id == reports[i].id;
  }

  /** Replacing a stored report by a valid one with the same id and the same counters keeps the
      ledger valid: that is what an update or a soft delete does to its row. */
  lemma RowEditKeepsLedgerValid(reports: seq<TrafficReport>, votes: seq<Vote>, nextReportId: int,
                                nextVoteId: int, k: nat, c: TrafficReport)
    requires LedgerValid(reports, votes, nextReportId, nextVoteId) && k < |reports|
    requires c.id == reports[k].id && c.upvotes == reports[k].upvotes && c.downvotes == reports[k].downvotes
    requires ValidTrafficReport(c)
    ensures LedgerValid(reports[k := c], votes, nextReportId, nextVoteId)
  {
    ReportRowsStayValid(reports, nextReportId, k, c);
  }

  /** Setting a stored report's image URL keeps the ledger valid: the URL is not validated and
      takes no part in ids or tallies. */
  lemma ImageUrlKeepsLedgerValid(reports: seq<TrafficReport>, votes: seq<Vote>, nextReportId: int,
                                 nextVoteId: int, k: nat, url: string)
    requires LedgerValid(reports, votes, nextReportId, nextVoteId) && k < |reports|
    ensures LedgerValid(reports[k := reports[k].(imageUrl := Some(url))], votes, nextReportId, nextVoteId)
  {
    var after := reports[k := reports[k].(imageUrl := Some(url))];
    assert forall i :: 0 <= i < |after| ==> after[i].id == reports[i].id;
  }

  class TrafficReportService {
    var reports: seq<TrafficReport>
    var votes: seq<Vote>
    var nextReportId: int
    var nextVoteId: int
    /** The reports sent on /topic/reports, oldest first. */
    var broadcasts: seq<TrafficReport>

    ghost predicate Valid()
      reads this
    {
      LedgerValid(reports, votes, nextReportId, nextVoteId)
    }

    constructor()
      ensures Valid()
      ensures reports == [] && votes == [] && broadcasts == []
    {
      reports := [];
      votes := [];
      nextReportId := 1;
      nextVoteId := 1;
      broadcasts := [];
    }

    /** createReport: the new report is stored with the next id and broadcast once; one that
        fails validation is neither stored nor broadcast. */
    method CreateReport(request: ReportRequest, caller: User, now: int)
      returns (result: Result<TrafficReport, ServiceError>)
      requires Valid()
      modifies this
      ensures Valid()
      ensures result.Err? ==> unchanged(this)
      ensures votes == old(votes) && nextVoteId == old(nextVoteId)
      ensures nextReportId == old(nextReportId) + (if result.Ok? then 1 else 0)
      ensures var r := CreatedReport(request, old(nextReportId), caller.id, now);
              if ValidTrafficReport(r) then
                && result == Ok(r)
                && reports == old(reports) + [r]
                && broadcasts == old(broadcasts) + [r]
                && (forall i :: 0 <= i < |old(reports)| ==> old(reports)[i].id != r.id)
              else
                result == Err(ConstraintViolation(ValidationMessage))
                && reports == old(reports) && broadcasts == old(broadcasts)
    {
      var r := CreatedReport(request, nextReportId, caller.id, now);
      if !ValidTrafficReport(r) {
        return Err(ConstraintViolation(ValidationMessage));
      }
      NewReportJoinsLedger(reports, votes, r);
      reports := reports + [r];
      nextReportId := nextReportId + 1;
      broadcasts := broadcasts + [r];
      result := Ok(r);
    }

    /** updateReport: an unknown id, a caller who neither owns the report nor moderates, or a
        request that fails validation changes nothing; otherwise the eight fields are overwritten
        in place and the saved report is broadcast once. */
    method UpdateReport(id: int, request: ReportRequest, caller: User)
      returns (result: Result<TrafficReport, ServiceError>)
      requires Valid()
      modifies this
      ensures Valid()
      ensures result.Err? ==> unchanged(this)
      ensures votes == old(votes)
      ensures result == UpdateDecision(old(reports), id, request, caller)
      ensures match FindReportIndex(old(reports), id)
              case None =>
                result == Err(ReportNotFound(id)) && reports == old(reports) && broadcasts == old(broadcasts)
              case Some(k) =>
                if !MayModify(old(reports)[k].owner, caller) then
                  result == Err(NoPermission("update")) && reports == old(reports) && broadcasts == old(broadcasts)
                else if !ValidTrafficReport(ApplyRequest(old(reports)[k], request)) then
                  result == Err(ConstraintViolation(ValidationMessage))
                  && reports == old(reports) && broadcasts == old(broadcasts)
                else
                  var u := ApplyRequest(old(reports)[k], request);
                  && result == Ok(u)
                  && reports == old(reports)[k := u]
                  && broadcasts == old(broadcasts) + [u]
    {
      var found := FindReportIndex(reports, id);
      if found.None? {
        return Err(ReportNotFound(id));
      }
      var k := found.value;
      if !MayModify(reports[k].owner, caller) {
        return Err(NoPermission("update"));
      }
      var u := ApplyRequest(reports[k], request);
      if !ValidTrafficReport(u) {
        return Err(ConstraintViolation(ValidationMessage));
      }
      ApplyRequestMeaning(reports[k], request);
      RowEditKeepsLedgerValid(reports, votes, nextReportId, nextVoteId, k, u);
      reports := reports[k := u];
      broadcasts := broadcasts + [u];
      result := Ok(u);
    }

    /** deleteReport: the same two failures as updateReport; otherwise the report stays stored
        with active = false and is broadcast once. */
    method DeleteReport(id: int, caller: User) returns (result: Result<TrafficReport, ServiceError>)
      requires Valid()
      modifies this
      ensures Valid()
      ensures result.Err? ==> unchanged(this)
      ensures votes == old(votes)
      ensures result == DeleteDecision(old(reports), id, caller)
      ensures match FindReportIndex(old(reports), id)
              case None =>
                result == Err(ReportNotFound(id)) && reports == old(reports) && broadcasts == old(broadcasts)
              case Some(k) =>
                if !MayModify(old(reports)[k].owner, caller) then
                  result == Err(NoPermission("delete")) && reports == old(reports) && broadcasts == old(broadcasts)
                else
                  var d := old(reports)[k].(active := false);
                  && result == Ok(d)
                  && reports == old(reports)[k := d]
                  && broadcasts == old(broadcasts) + [d]
    {
      var found := FindReportIndex(reports, id);
      if found.None? {
        return Err(ReportNotFound(id));
      }
      var k := found.value;
      if !MayModify(reports[k].owner, caller) {
        return Err(NoPermission("delete"));
      }
      var d := reports[k].(active := false);
      RowEditKeepsLedgerValid(reports, votes, nextReportId, nextVoteId, k, d);
      reports := reports[k := d];
      broadcasts := broadcasts + [d];
      result := Ok(d);
    }

    /** The controller's `setImageUrl` then `save` on the k-th stored report: only its image URL
        changes, and nothing is broadcast. */
    method SaveImageUrl(k: nat, url: string)
      requires Valid() && k < |reports|
      modifies this
      ensures Valid()
      ensures reports == old(reports)[k := old(reports)[k].(imageUrl := Some(url))]
      ensures votes == old(votes) && broadcasts == old(broadcasts)
      ensures nextReportId == old(nextReportId) && nextVoteId == old(nextVoteId)
    {
      ImageUrlKeepsLedgerValid(reports, votes, nextReportId, nextVoteId, k, url);
      reports := reports[k := reports[k].(imageUrl := Some(url))];
    }

    /** voteOnReport: an unknown id changes nothing. Otherwise the voter's vote is recorded
        (first vote) or overwritten (repeat vote), the counters are moved accordingly, and the
        saved report is broadcast once. Neither the caller's role nor the report's active flag
        is checked, and the counters keep matching the tallies (Valid). */
    method VoteOnReport(reportId: int, t: VoteType, voter: User, now: int)
      returns (result: Result<TrafficReport, ServiceError>)
      requires Valid()
      modifies this
      ensures Valid()
      ensures result.Err? ==> unchanged(this)
      ensures match FindReportIndex(old(reports), reportId)
              case None =>
                && result == Err(ReportNotFound(reportId))
                && reports == old(reports) && votes == old(votes) && broadcasts == old(broadcasts)
              case Some(k) =>
                var c := CountVote(old(reports)[k], FindByUserAndTrafficReport(old(votes), voter.id, reportId), t);
                && result == Ok(c)
                && votes == RecordVote(old(votes), voter.id, reportId, t, old(nextVoteId), now)
                && reports == old(reports)[k := c]
                && broadcasts == old(broadcasts) + [c]
      ensures nextReportId == old(nextReportId)
      ensures nextVoteId == old(nextVoteId) +
                (if result.Ok? && FindByUserAndTrafficReport(old(votes), voter.id, reportId).None? then 1 else 0)
    {
      var found := FindReportIndex(reports, reportId);
      if found.None? {
        return Err(ReportNotFound(reportId));
      }
      var k := found.value;
      var previous := FindByUserAndTrafficReport(votes, voter.id, reportId);
      var c := CountVote(reports[k], previous, t);
      var after := RecordVote(votes, voter.id, reportId, t, nextVoteId, now);
      VoteKeepsLedgerValid(reports, votes, nextReportId, nextVoteId, k, voter.id, t, now);
      reports := reports[k := c];
      votes := after;
      if previous.None? {
        nextVoteId := nextVoteId + 1;
      }
      broadcasts := broadcasts + [c];
      result := Ok(c);
    }
  }

  /** The id and reference bounds of the votes table survive a vote on a stored report. */
  lemma VoteRowsStayValid(votes: seq<Vote>, user: int, reportId: int, t: VoteType, voteId: int, now: int,
                          nextReportId: int)
    requires 1 <= voteId && reportId < nextReportId
    requires forall i :: 0 <= i < |votes| ==> 1 <= votes[i].id < voteId && votes[i].trafficReport < nextReportId
    requires forall i, j :: 0 <= i < j < |votes| ==> votes[i].id != votes[j].id
    ensures var after := RecordVote(votes, user, reportId, t, voteId, now);
            var next := if FindByUserAndTrafficReport(votes, user, reportId).None? then voteId + 1 else voteId;
            && (forall i :: 0 <= i < |after| ==> 1 <= after[i].id < next && after[i].trafficReport < nextReportId)
            && (forall i, j :: 0 <= i < j < |after| ==> after[i].id != after[j].id)
  {
  }
}
