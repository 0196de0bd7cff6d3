/** The "Latest Traffic Reports" panel (TrafficReportsList.jsx): a list of at most `maxItems`
    reports kept in step with the server by a REST snapshot, by push events from /topic/reports,
    and by the responses to the votes cast from the panel. */
module LiveReportList {
  import opened Wrappers
  import opened Text
  import opened Ordering
  import opened Tables
  import opened Entities
  import opened TimeFormat

  /** The `maxItems` prop's default. */
  const DefaultMaxItems: nat := 5

  const FetchErrorMessage: string := "Failed to load traffic reports"
  const VoteErrorMessage: string := "Failed to submit vote. Please try again."

  /** `prevReports.some((r) => r.id === id)` */
  predicate HasId(s: seq<TrafficReport>, id: int)
  {
    exists i :: 0 <= i < |s| && s[i].id == id
  }

  /** No id is listed twice (the list is keyed by id when rendered). */
  predicate UniqueIds(s: seq<TrafficReport>)
  {
    forall i, j :: 0 <= i < j < |s| ==> s[i].id != s[j].id
  }

  function OtherId(id: int): TrafficReport -> bool
  {
    (r: TrafficReport) => r.id != id
  }

  /** `prevReports.filter((r) => r.id !== id)` */
  function WithoutId(s: seq<TrafficReport>, id: int): seq<TrafficReport>
  {
    Filter(s, OtherId(id))
  }

  /** Replace every entry with the report's id by the report, or append it when none has it. */
  function Upsert(s: seq<TrafficReport>, report: TrafficReport): seq<TrafficReport>
  {
    if HasId(s, report.id) then ReplaceWhere(s, SameId(report.id), report) else s + [report]
  }

  /** The state updater the /topic/reports subscription passes to setReports. */
  function ApplyEvent(prev: seq<TrafficReport>, report: TrafficReport, now: int, maxItems: nat)
    : seq<TrafficReport>
  {
    if !report.active then Take(WithoutId(prev, report.id), maxItems)
    else if IsRecent(report.createdAt, now) then
      Take(SortBy(Upsert(prev, report), NewerOrSame), maxItems)
    else prev
  }

  /** A deactivation event removes every entry with that id and keeps the others in their
      original relative order, cut to maxItems; when the id is not listed it changes nothing
      beyond the cut. */
  lemma DeactivationRemoves(prev: seq<TrafficReport>, report: TrafficReport, now: int, maxItems: nat)
    requires !report.active
    ensures var r := ApplyEvent(prev, report, now, maxItems);
            && !HasId(r, report.id)
            && SubsequenceOf(r, prev)
            && |r| == (if Count(prev, OtherId(report.id)) <= maxItems
                       then Count(prev, OtherId(report.id)) else maxItems)
            && (Count(prev, OtherId(report.id)) <= maxItems ==>
                  forall i :: 0 <= i < |prev| && prev[i].id != report.id ==> prev[i] in r)
            && (!HasId(prev, report.id) ==> r == Take(prev, maxItems))
  {
    var w := WithoutId(prev, report.id);
    var r := ApplyEvent(prev, report, now, maxItems);
    FilterKeepsOrder(prev, OtherId(report.id));
    SubsequencePrefix(w, prev, |r|);
    assert r == w[..|r|];
    if !HasId(prev, report.id) {
      FilterAll(prev, OtherId(report.id));
    }
  }

  /** Every entry with the report's id becomes the report, and the report is then listed. */
  lemma {:induction false} UpsertLeavesOneVersion(s: seq<TrafficReport>, report: TrafficReport)
    ensures var u := Upsert(s, report);
            && report in u
            && (forall i :: 0 <= i < |u| && u[i].id == report.id ==> u[i] == report)
  {
    var u := Upsert(s, report);
    if HasId(s, report.id) {
      var k :| 0 <= k < |s| && s[k].id == report.id;
      assert u[k] == report;
    } else {
      assert u[|s|] == report;
    }
  }

  /** An active, recent event whose id is listed replaces that entry and appends nothing: the
      new list is the old one with the entry swapped for the report, re-sorted newest first and
      cut to maxItems. */
  lemma ReplaceListed(prev: seq<TrafficReport>, report: TrafficReport, now: int, maxItems: nat, k: nat)
    requires report.active && IsRecent(report.createdAt, now)
    requires UniqueIds(prev) && k < |prev| && prev[k].id == report.id
    ensures var r := ApplyEvent(prev, report, now, maxItems);
            && r == Take(SortBy(prev[k := report], NewerOrSame), maxItems)
            && |r| == (if |prev| <= maxItems then |prev| else maxItems)
            && NewestFirst(r)
  {
    var u := ReplaceWhere(prev, SameId(report.id), report);
    assert u == prev[k := report];
    NewerOrSameIsTotalPreorder();
    SortBySorted(u, NewerOrSame);
  }

  /** An active, recent event with a new id is appended; the list is then sorted newest first
      and cut to maxItems, so what is cut away is never newer than what is kept. */
  lemma InsertNew(prev: seq<TrafficReport>, report: TrafficReport, now: int, maxItems: nat)
    requires report.active && IsRecent(report.createdAt, now) && !HasId(prev, report.id)
    ensures var sorted := SortBy(prev + [report], NewerOrSame);
            var r := ApplyEvent(prev, report, now, maxItems);
            && multiset(sorted) == multiset(prev) + multiset{report}
            && r == sorted[..|r|]
            && |r| == (if |prev| + 1 <= maxItems then |prev| + 1 else maxItems)
            && NewestFirst(r)
            && (forall i, j :: 0 <= i < |r| <= j < |sorted| ==> r[i].createdAt >= sorted[j].createdAt)
  {
    var sorted := SortBy(prev + [report], NewerOrSame);
    var r := ApplyEvent(prev, report, now, maxItems);
    NewerOrSameIsTotalPreorder();
    SortBySorted(prev + [report], NewerOrSame);
    PrefixBeatsSuffix(sorted, |r|, NewerOrSame);
  }

  lemma {:induction false} InsertKeepsUniqueIds(s: seq<TrafficReport>, x: TrafficReport)
    requires UniqueIds(s) && !HasId(s, x.id)
    ensures UniqueIds(Insert(s, x, NewerOrSame))
  {
    if |s| > 0 && NewerOrSame(s[0], x) {
      var tail := Insert(s[1..], x, NewerOrSame);
      forall k | 0 <= k < |s[1..]| ensures s[1..][k].id != x.id {
        assert s[1..][k] == s[k + 1];
      }
      InsertKeepsUniqueIds(s[1..], x);
      forall j | 0 <= j < |tail| ensures tail[j].id != s[0].id {
        assert tail[j] in multiset(tail);
        if tail[j] != x {
          var k :| 0 <= k < |s[1..]| && s[1..][k] == tail[j];
          assert s[k + 1] == tail[j];
        }
      }
    }
  }

  lemma {:induction false} SortKeepsUniqueIds(s: seq<TrafficReport>)
    requires UniqueIds(s)
    ensures UniqueIds(SortBy(s, NewerOrSame))
  {
    if |s| > 0 {
      var init := s[..|s| - 1];
      var last := s[|s| - 1];
      var sortedInit := SortBy(init, NewerOrSame);
      SortKeepsUniqueIds(init);
      forall j | 0 <= j < |sortedInit| ensures sortedInit[j].id != last.id {
        assert sortedInit[j] in multiset(init);
        var k :| 0 <= k < |init| && init[k] == sortedInit[j];
        assert init[k] == s[k];
      }
      InsertKeepsUniqueIds(sortedInit, last);
    }
  }

  lemma {:induction false} FilterKeepsUniqueIds(s: seq<TrafficReport>, p: TrafficReport -> bool)
    requires UniqueIds(s)
    ensures UniqueIds(Filter(s, p))
  {
    if |s| > 0 {
      FilterKeepsUniqueIds(s[1..], p);
      var tail := Filter(s[1..], p);
      forall j | 0 <= j < |tail| ensures tail[j].id != s[0].id {
        var k :| 0 <= k < |s[1..]| && s[1..][k] == tail[j];
        assert s[k + 1] == tail[j];
      }
    }
  }

  /** Every event keeps the list's invariants: ids unique, newest first, at most maxItems
      entries. An active report that is not recent leaves the list exactly as it was, even
      when a report with its id is listed. */
  lemma EventKeepsInvariants(prev: seq<TrafficReport>, report: TrafficReport, now: int, maxItems: nat)
    requires UniqueIds(prev) && NewestFirst(prev) && |prev| <= maxItems
    ensures var r := ApplyEvent(prev, report, now, maxItems);
            && UniqueIds(r) && NewestFirst(r) && |r| <= maxItems
            && (report.active && !IsRecent(report.createdAt, now) ==> r == prev)
  {
    NewerOrSameIsTotalPreorder();
    if !report.active {
      FilterKeepsUniqueIds(prev, OtherId(report.id));
      FilterKeepsSorted(prev, OtherId(report.id), NewerOrSame);
    } else if IsRecent(report.createdAt, now) {
      var sorted := SortBy(Upsert(prev, report), NewerOrSame);
      SortedCandidatesKeepInvariants(prev, report);
      PrefixSorted(sorted, |Take(sorted, maxItems)|, NewerOrSame);
      assert forall i, j :: 0 <= i < j < |Take(sorted, maxItems)| ==> Take(sorted, maxItems)[i] == sorted[i] && Take(sorted, maxItems)[j] == sorted[j];
    }
  }

  /** The recent branch's list before the cut keeps the ids unique and is newest first. */
  lemma SortedCandidatesKeepInvariants(prev: seq<TrafficReport>, report: TrafficReport)
    requires UniqueIds(prev)
    ensures UniqueIds(SortBy(Upsert(prev, report), NewerOrSame))
    ensures NewestFirst(SortBy(Upsert(prev, report), NewerOrSame))
  {
    NewerOrSameIsTotalPreorder();
    var u := Upsert(prev, report);
    if HasId(prev, report.id) {
      assert forall i :: 0 <= i < |u| ==> u[i].id == prev[i].id;
    }
    SortKeepsUniqueIds(u);
    SortBySorted(u, NewerOrSame);
  }

  /** The recent branch's list before the cut: sorted, with the report as the only version of
      its id. */
  lemma {:induction false} RecentCandidates(prev: seq<TrafficReport>, report: TrafficReport)
    ensures var sorted := SortBy(Upsert(prev, report), NewerOrSame);
            && NewestFirst(sorted)
            && report in sorted
            && (forall i :: 0 <= i < |sorted| && sorted[i].id == report.id ==> sorted[i] == report)
  {
    var u := Upsert(prev, report);
    var sorted := SortBy(u, NewerOrSame);
    NewerOrSameIsTotalPreorder();
    SortBySorted(u, NewerOrSame);
    UpsertLeavesOneVersion(prev, report);
    assert report in multiset(u);
    forall i | 0 <= i < |sorted| && sorted[i].id == report.id ensures sorted[i] == report {
      assert sorted[i] in multiset(u);
    }
  }

  /** Second delivery when the first one kept the report: the upsert replaces it by itself. */
  lemma {:induction false} RedeliverKept(sorted: seq<TrafficReport>, report: TrafficReport, maxItems: nat)
    requires NewestFirst(sorted)
    requires forall i :: 0 <= i < |sorted| && sorted[i].id == report.id ==> sorted[i] == report
    requires HasId(Take(sorted, maxItems), report.id)
    ensures var once := Take(sorted, maxItems);
            Take(SortBy(Upsert(once, report), NewerOrSame), maxItems) == once
  {
    var once := Take(sorted, maxItems);
    PrefixSorted(sorted, |once|, NewerOrSame);
    assert ReplaceWhere(once, SameId(report.id), report) == once;
    SortBySortedIdentity(once, NewerOrSame);
  }

  /** Second delivery when the first one cut the report away: it is appended after entries that
      are all at least as new, sorts back to the end and is cut away again. */
  lemma {:induction false} RedeliverEvicted(sorted: seq<TrafficReport>, report: TrafficReport, maxItems: nat)
    requires NewestFirst(sorted) && report in sorted
    requires !HasId(Take(sorted, maxItems), report.id)
    ensures var once := Take(sorted, maxItems);
            Take(SortBy(Upsert(once, report), NewerOrSame), maxItems) == once
  {
    var once := Take(sorted, maxItems);
    var j :| 0 <= j < |sorted| && sorted[j] == report;
    assert forall i :: 0 <= i < |once| ==> once[i] == sorted[i] && once[i].id != report.id;
    assert j >= |once|;
    assert Upsert(once, report) == once + [report];
    forall a | 0 <= a < |once| ensures NewerOrSame(once[a], report) {
      assert NewerOrSame(sorted[a], sorted[j]);
    }
    PrefixSorted(sorted, |once|, NewerOrSame);
    AppendOldestStaysLast(once, report);
    assert (once + [report])[..maxItems] == once;
  }

  /** Appending an entry every listed one is at least as new as leaves a sorted list sorted as
      it is. */
  lemma AppendOldestStaysLast(s: seq<TrafficReport>, report: TrafficReport)
    requires NewestFirst(s)
    requires forall a :: 0 <= a < |s| ==> NewerOrSame(s[a], report)
    ensures SortBy(s + [report], NewerOrSame) == s + [report]
  {
    var grown := s + [report];
    assert grown[..|grown| - 1] == s;
    SortBySortedIdentity(s, NewerOrSame);
    InsertLast(s, report, NewerOrSame);
  }

  /** Delivering the same event twice leaves the list as delivering it once. */
  lemma {:induction false} ApplyEventIdempotent(prev: seq<TrafficReport>, report: TrafficReport, now: int, maxItems: nat)
    ensures var once := ApplyEvent(prev, report, now, maxItems);
            ApplyEvent(once, report, now, maxItems) == once
  {
    var once := ApplyEvent(prev, report, now, maxItems);
    if !report.active {
      var w := WithoutId(prev, report.id);
      forall i | 0 <= i < |once| ensures OtherId(report.id)(once[i]) {
        assert once[i] == w[i];
      }
      FilterAll(once, OtherId(report.id));
    } else if IsRecent(report.createdAt, now) {
      var sorted := SortBy(Upsert(prev, report), NewerOrSame);
      RecentCandidates(prev, report);
      if HasId(once, report.id) {
        RedeliverKept(sorted, report, maxItems);
      } else {
        RedeliverEvicted(sorted, report, maxItems);
      }
    }
  }

  /** A report strictly newer than everything listed sorts to the front. */
  lemma SortNewestToFront(prev: seq<TrafficReport>, report: TrafficReport)
    requires NewestFirst(prev)
    requires forall i :: 0 <= i < |prev| ==> prev[i].createdAt < report.createdAt
    ensures SortBy(prev + [report], NewerOrSame) == [report] + prev
  {
    var s := prev + [report];
    assert s[..|s| - 1] == prev;
    SortBySortedIdentity(prev, NewerOrSame);
    assert SortBy(s, NewerOrSame) == Insert(prev, report, NewerOrSame);
    if |prev| > 0 {
      assert !NewerOrSame(prev[0], report);
    }
  }

  /** A new report strictly newer than every listed one goes to the front, and the cut drops
      the oldest entry when the list was full. */
  lemma ArriveNewest(prev: seq<TrafficReport>, report: TrafficReport, now: int, maxItems: nat)
    requires report.active && IsRecent(report.createdAt, now) && !HasId(prev, report.id)
    requires NewestFirst(prev)
    requires forall i :: 0 <= i < |prev| ==> prev[i].createdAt < report.createdAt
    ensures ApplyEvent(prev, report, now, maxItems) == Take([report] + prev, maxItems)
  {
    SortNewestToFront(prev, report);
  }

  /** With room for two, three recent reports created one after another leave the two newest,
      newest first: the oldest is the one evicted. */
  lemma EvictionExample(r1: TrafficReport, r2: TrafficReport, r3: TrafficReport, now: int)
    requires r1.active && r2.active && r3.active
    requires IsRecent(r1.createdAt, now) && IsRecent(r2.createdAt, now) && IsRecent(r3.createdAt, now)
    requires r1.id != r2.id && r1.id != r3.id && r2.id != r3.id
    requires r1.createdAt < r2.createdAt < r3.createdAt
    ensures ApplyEvent(ApplyEvent(ApplyEvent([], r1, now, 2), r2, now, 2), r3, now, 2) == [r3, r2]
  {
    FirstArrival(r1, now);
    SecondArrival(r1, r2, now);
    ThirdArrival(r1, r2, r3, now);
  }

  lemma FirstArrival(r1: TrafficReport, now: int)
    requires r1.active && IsRecent(r1.createdAt, now)
    ensures ApplyEvent([], r1, now, 2) == [r1]
  {
    ArriveNewest([], r1, now, 2);
    assert [r1] + [] == [r1];
  }

  lemma SecondArrival(r1: TrafficReport, r2: TrafficReport, now: int)
    requires r2.active && IsRecent(r2.createdAt, now)
    requires r1.id != r2.id && r1.createdAt < r2.createdAt
    ensures ApplyEvent([r1], r2, now, 2) == [r2, r1]
  {
    ArriveNewest([r1], r2, now, 2);
    assert Take([r2] + [r1], 2) == [r2, r1];
  }

  lemma ThirdArrival(r1: TrafficReport, r2: TrafficReport, r3: TrafficReport, now: int)
    requires r3.active && IsRecent(r3.createdAt, now)
    requires r1.id != r3.id && r2.id != r3.id
    requires r1.createdAt < r2.createdAt < r3.createdAt
    ensures ApplyEvent([r2, r1], r3, now, 2) == [r3, r2]
  {
    ArriveNewest([r2, r1], r3, now, 2);
    assert Take([r3] + [r2, r1], 2) == [r3, r2];
  }

  /** A successful vote patches the list: the entries with the voted id become the server's
      report, the others stay, and nothing is re-sorted. Since the server keeps a report's id and
      creation time, the patched list keeps its ids unique and stays newest first. */
  lemma VotePatchKeepsInvariants(prev: seq<TrafficReport>, reportId: int, updated: TrafficReport)
    requires UniqueIds(prev) && NewestFirst(prev) && updated.id == reportId
    requires forall i :: 0 <= i < |prev| && prev[i].id == reportId ==> prev[i].createdAt == updated.createdAt
    ensures var r := ReplaceWhere(prev, SameId(reportId), updated);
            && |r| == |prev|
            && (forall i :: 0 <= i < |r| ==> r[i] == if prev[i].id == reportId then updated else prev[i])
            && UniqueIds(r) && NewestFirst(r)
  {
    var r := ReplaceWhere(prev, SameId(reportId), updated);
    assert forall i :: 0 <= i < |r| ==> r[i].id == prev[i].id && r[i].createdAt == prev[i].createdAt;
  }

  /** `data.slice(0, maxItems)`: the snapshot is cut, not re-sorted, so the panel is newest first
      and free of duplicates exactly to the extent that the server's list is. */
  lemma SnapshotKeepsInvariants(data: seq<TrafficReport>, maxItems: nat)
    requires UniqueIds(data) && NewestFirst(data)
    ensures var r := Take(data, maxItems);
            UniqueIds(r) && NewestFirst(r) && |r| <= maxItems
  {
  }

  /** A POST /traffic-reports/{id}/vote request as the panel sends it. */
  datatype VoteRequest = VoteRequest(path: string, voteType: VoteType, authorization: string)

  function VotePath(reportId: int): string
  {
    "/traffic-reports/" + IntToString(reportId) + "/vote"
  }

  /** The template literal `Bearer ${token}` prints a missing token as "null". */
  function BearerHeader(token: Option<string>): string
  {
    "Bearer " + (if token.Some? then token.value else "null")
  }

  /** The panel's state cells. `sentVotes` records the vote requests posted, in order. */
  class ReportsList {
    const maxItems: nat
    var reports: seq<TrafficReport>
    var loading: bool
    var error: Option<string>
    var sentVotes: seq<VoteRequest>

    ghost predicate Valid()
      reads this
    {
      |reports| <= maxItems
    }

    constructor(maxItems: nat)
      ensures this.maxItems == maxItems
      ensures reports == [] && loading && error.None? && sentVotes == []
      ensures Valid()
    {
      this.maxItems := maxItems;
      reports := [];
      loading := true;
      error := None;
      sentVotes := [];
    }

    /** fetchReports with the outcome of getRecentReports(24) as a parameter. */
    method FetchReports(response: Result<seq<TrafficReport>, string>)
      modifies this
      ensures Valid()
      ensures response.Ok? ==> reports == Take(response.value, maxItems) && error.None?
      ensures response.Err? ==> reports == [] && error == Some(FetchErrorMessage)
      ensures !loading && sentVotes == old(sentVotes)
    {
      loading := true;
      error := None;
      match response {
        case Ok(data) =>
          reports := Take(data, maxItems);
        case Err(_) =>
          error := Some(FetchErrorMessage);
          reports := [];
      }
      loading := false;
    }

    /** A message delivered to the panel's /topic/reports subscription. */
    method OnReportEvent(report: TrafficReport, now: int)
      requires Valid()
      modifies this
      ensures Valid()
      ensures reports == ApplyEvent(old(reports), report, now, maxItems)
      ensures loading == old(loading) && error == old(error) && sentVotes == old(sentVotes)
    {
      reports := ApplyEvent(reports, report, now, maxItems);
    }

    /** handleVote with the signed-in state, the stored token and the outcome of the POST as
        parameters. Without a user nothing is sent and nothing changes. */
    method HandleVote(signedIn: bool, token: Option<string>, reportId: int, voteType: VoteType,
                      response: Result<TrafficReport, string>)
      requires Valid()
      modifies this
      ensures Valid()
      ensures !signedIn ==> reports == old(reports) && error == old(error) && sentVotes == old(sentVotes)
      ensures signedIn ==>
                sentVotes == old(sentVotes) + [VoteRequest(VotePath(reportId), voteType, BearerHeader(token))]
      ensures signedIn && response.Ok? ==>
                reports == ReplaceWhere(old(reports), SameId(reportId), response.value) && error == old(error)
      ensures signedIn && response.Err? ==> reports == old(reports) && error == Some(VoteErrorMessage)
      ensures loading == old(loading)
    {
      if !signedIn {
        return;
      }
      sentVotes := sentVotes + [VoteRequest(VotePath(reportId), voteType, BearerHeader(token))];
      match response {
        case Ok(updated) =>
          reports := ReplaceWhere(reports, SameId(reportId), updated);
        case Err(_) =>
          error := Some(VoteErrorMessage);
      }
    }

    /** The error alert's close button. */
    method DismissError()
      modifies this
      ensures error.None?
      ensures reports == old(reports) && loading == old(loading) && sentVotes == old(sentVotes)
    {
      error := None;
    }
  }
}
