/** The Google Maps draft of the report view (temp.jsx): the same push-event reducer as the
    live list but without the cut to maxItems, a fetch of all reports, and a vote that re-fetches
    the whole list instead of patching it. */
module MapDraft {
  import opened Wrappers
  import opened Ordering
  import opened Tables
  import opened Entities
  import opened TimeFormat
  import opened LiveReportList

  const DraftFetchErrorMessage: string := "Failed to load traffic reports"

  /** The state updater of temp.jsx's /topic/reports subscription. */
  function ApplyEventUnbounded(prev: seq<TrafficReport>, report: TrafficReport, now: int)
    : seq<TrafficReport>
  {
    if !report.active then WithoutId(prev, report.id)
    else if IsRecent(report.createdAt, now) then SortBy(Upsert(prev, report), NewerOrSame)
    else prev
  }

  /** The list's reducer is the draft's reducer followed by the cut, whenever the list already
      fits in maxItems (it always does: see EventKeepsInvariants); a stale event leaves both
      lists alone. */
  lemma BoundedIsCutUnbounded(prev: seq<TrafficReport>, report: TrafficReport, now: int, maxItems: nat)
    requires |prev| <= maxItems
    ensures ApplyEvent(prev, report, now, maxItems) == Take(ApplyEventUnbounded(prev, report, now), maxItems)
    ensures report.active && !IsRecent(report.createdAt, now) ==> ApplyEventUnbounded(prev, report, now) == prev
  {
  }

  /** The draft list grows by at most one entry per event: a removal or a replacement never
      grows it, and a replacement keeps its length when ids are unique. */
  lemma {:induction false} UnboundedGrowth(prev: seq<TrafficReport>, report: TrafficReport, now: int)
    ensures var r := ApplyEventUnbounded(prev, report, now);
            && |r| <= |prev| + 1
            && (!report.active ==> |r| <= |prev| && !HasId(r, report.id))
            && (HasId(prev, report.id) ==> |r| <= |prev|)
            && (report.active && IsRecent(report.createdAt, now) ==> report in r)
  {
    var r := ApplyEventUnbounded(prev, report, now);
    if report.active && IsRecent(report.createdAt, now) {
      UpsertLeavesOneVersion(prev, report);
      assert report in multiset(Upsert(prev, report));
      assert report in multiset(r);
    }
  }

  /** The draft keeps unique ids and newest-first order too, and delivering an event twice
      equals delivering it once. Both follow from the list's reducer with a cut too large to
      bite. */
  lemma {:induction false} UnboundedKeepsInvariants(prev: seq<TrafficReport>, report: TrafficReport, now: int)
    ensures var once := ApplyEventUnbounded(prev, report, now);
            && ApplyEventUnbounded(once, report, now) == once
            && (UniqueIds(prev) && NewestFirst(prev) ==> UniqueIds(once) && NewestFirst(once))
  {
    var m := |prev| + 2;
    var once := ApplyEventUnbounded(prev, report, now);
    UnboundedGrowth(prev, report, now);
    BoundedIsCutUnbounded(prev, report, now, m);
    assert ApplyEvent(prev, report, now, m) == once;
    UnboundedGrowth(once, report, now);
    BoundedIsCutUnbounded(once, report, now, m);
    assert ApplyEvent(once, report, now, m) == ApplyEventUnbounded(once, report, now);
    ApplyEventIdempotent(prev, report, now, m);
    if UniqueIds(prev) && NewestFirst(prev) {
      EventKeepsInvariants(prev, report, now, m);
    }
  }

  /** The draft's state cells. `votesSent` counts the vote calls made. */
  class DraftMap {
    var trafficReports: seq<TrafficReport>
    var loading: bool
    var error: Option<string>
    var votesSent: nat

    constructor()
      ensures trafficReports == [] && loading && error.None? && votesSent == 0
    {
      trafficReports := [];
      loading := true;
      error := None;
      votesSent := 0;
    }

    /** fetchTrafficReports with the outcome of getAllReports as a parameter: the list is
        replaced verbatim, or emptied with the error set. */
    method FetchTrafficReports(response: Result<seq<TrafficReport>, string>)
      modifies this
      ensures response.Ok? ==> trafficReports == response.value && error.None?
      ensures response.Err? ==> trafficReports == [] && error == Some(DraftFetchErrorMessage)
      ensures !loading && votesSent == old(votesSent)
    {
      loading := true;
      error := None;
      match response {
        case Ok(reports) =>
          trafficReports := reports;
        case Err(_) =>
          error := Some(DraftFetchErrorMessage);
          trafficReports := [];
      }
      loading := false;
    }

    method OnReportEvent(report: TrafficReport, now: int)
      modifies this
      ensures trafficReports == ApplyEventUnbounded(old(trafficReports), report, now)
      ensures loading == old(loading) && error == old(error) && votesSent == old(votesSent)
    {
      trafficReports := ApplyEventUnbounded(trafficReports, report, now);
    }

    /** handleVote with the vote call's and the re-fetch's outcomes as parameters. Without a
        user nothing happens; a failed vote is only logged; a successful one re-fetches. */
    method HandleVote(signedIn: bool, vote: Result<TrafficReport, string>,
                      refetch: Result<seq<TrafficReport>, string>)
      modifies this
      ensures !signedIn ==> trafficReports == old(trafficReports) && loading == old(loading)
                            && error == old(error) && votesSent == old(votesSent)
      ensures signedIn ==> votesSent == old(votesSent) + 1
      ensures signedIn && vote.Err? ==>
                trafficReports == old(trafficReports) && loading == old(loading) && error == old(error)
      ensures signedIn && vote.Ok? && refetch.Ok? ==> trafficReports == refetch.value && error.None? && !loading
      ensures signedIn && vote.Ok? && refetch.Err? ==>
                trafficReports == [] && error == Some(DraftFetchErrorMessage) && !loading
    {
      if !signedIn {
        return;
      }
      votesSent := votesSent + 1;
      if vote.Ok? {
        FetchTrafficReports(refetch);
      }
    }
  }
}
