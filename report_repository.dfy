/** TrafficReportRepository's queries over the traffic_reports table, a sequence in insertion
    order. `ORDER BY createdAt DESC` is the stable newest-first sort, which lists reports created
    at the same moment in table order (one of the orders the database may use); a query with no
    ORDER BY returns table order. Coordinates are micro-degrees. */
module ReportQueries {
  import opened Ordering
  import opened Tables
  import opened Entities

  function IsActive(): TrafficReport -> bool
  {
    (r: TrafficReport) => r.active
  }

  function InCategory(c: TrafficCategory): TrafficReport -> bool
  {
    (r: TrafficReport) => r.category == c
  }

  function OfSeverity(s: Severity): TrafficReport -> bool
  {
    (r: TrafficReport) => r.severity == s
  }

  function OwnedBy(user: int): TrafficReport -> bool
  {
    (r: TrafficReport) => r.owner == user
  }

  function IsVerified(): TrafficReport -> bool
  {
    (r: TrafficReport) => r.verified
  }

  function InArea(minLat: int, maxLat: int, minLng: int, maxLng: int): TrafficReport -> bool
  {
    (r: TrafficReport) => r.active && minLat <= r.latitude <= maxLat && minLng <= r.longitude <= maxLng
  }

  function ActiveSince(since: int): TrafficReport -> bool
  {
    (r: TrafficReport) => r.active && r.createdAt >= since
  }

  function ActiveInCategorySince(c: TrafficCategory, since: int): TrafficReport -> bool
  {
    (r: TrafficReport) => r.active && r.category == c && r.createdAt >= since
  }

  function ActiveOwnedBy(user: int): TrafficReport -> bool
  {
    (r: TrafficReport) => r.owner == user && r.active
  }

  function VerifiedOwnedBy(user: int): TrafficReport -> bool
  {
    (r: TrafficReport) => r.owner == user && r.verified
  }

  /** findByActiveTrue */
  function FindByActiveTrue(reports: seq<TrafficReport>): seq<TrafficReport>
  {
    Filter(reports, IsActive())
  }

  /** findByActiveTrueOrderByCreatedAtDesc: the active reports, newest first. */
  function FindActiveNewestFirst(reports: seq<TrafficReport>): (r: seq<TrafficReport>)
    ensures multiset(r) == multiset(FindByActiveTrue(reports))
    ensures forall x :: x in r <==> x in reports && x.active
    ensures NewestFirst(r)
  {
    var active := FindByActiveTrue(reports);
    NewerOrSameIsTotalPreorder();
    SortBySorted(active, NewerOrSame);
    SortByKeepsMembers(active, NewerOrSame);
    SortBy(active, NewerOrSame)
  }

  /** findByCategory: no filter on active. */
  function FindByCategory(reports: seq<TrafficReport>, c: TrafficCategory): seq<TrafficReport>
  {
    Filter(reports, InCategory(c))
  }

  /** findBySeverity: no filter on active. */
  function FindBySeverity(reports: seq<TrafficReport>, s: Severity): seq<TrafficReport>
  {
    Filter(reports, OfSeverity(s))
  }

  /** findByUser: no filter on active. */
  function FindByUser(reports: seq<TrafficReport>, user: int): seq<TrafficReport>
  {
    Filter(reports, OwnedBy(user))
  }

  /** findByVerifiedTrue: no filter on active. */
  function FindByVerifiedTrue(reports: seq<TrafficReport>): seq<TrafficReport>
  {
    Filter(reports, IsVerified())
  }

  /** The attribute queries return exactly the stored reports with that attribute, soft-deleted
      ones included. */
  lemma AttributeQueriesKeepInactive(reports: seq<TrafficReport>, c: TrafficCategory, s: Severity, user: int)
    ensures forall x :: x in FindByCategory(reports, c) <==> x in reports && x.category == c
    ensures forall x :: x in FindBySeverity(reports, s) <==> x in reports && x.severity == s
    ensures forall x :: x in FindByUser(reports, user) <==> x in reports && x.owner == user
    ensures forall x :: x in FindByVerifiedTrue(reports) <==> x in reports && x.verified
    ensures forall x :: x in FindByActiveTrue(reports) <==> x in reports && x.active
  {
  }

  /** findReportsInArea: active reports whose latitude and longitude both lie within the
      inclusive bounds. */
  function FindReportsInArea(reports: seq<TrafficReport>, minLat: int, maxLat: int, minLng: int, maxLng: int)
    : (r: seq<TrafficReport>)
    ensures forall x :: x in r <==>
              x in reports && x.active && minLat <= x.latitude <= maxLat && minLng <= x.longitude <= maxLng
  {
    Filter(reports, InArea(minLat, maxLat, minLng, maxLng))
  }

  /** findRecentReports: active reports created at or after `since`, newest first. */
  function FindRecentReports(reports: seq<TrafficReport>, since: int): (r: seq<TrafficReport>)
    ensures forall x :: x in r <==> x in reports && x.active && x.createdAt >= since
    ensures multiset(r) == multiset(Filter(reports, ActiveSince(since)))
    ensures NewestFirst(r)
  {
    var recent := Filter(reports, ActiveSince(since));
    NewerOrSameIsTotalPreorder();
    SortBySorted(recent, NewerOrSame);
    SortByKeepsMembers(recent, NewerOrSame);
    SortBy(recent, NewerOrSame)
  }

  /** findRecentReportsByCategory: the same window and a category match, in table order. */
  function FindRecentReportsByCategory(reports: seq<TrafficReport>, c: TrafficCategory, since: int)
    : (r: seq<TrafficReport>)
    ensures forall x :: x in r <==> x in reports && x.active && x.category == c && x.createdAt >= since
  {
    Filter(reports, ActiveInCategorySince(c, since))
  }

  /** The recent window is inclusive at `since`, and narrowing it keeps a subset. */
  lemma RecentWindowMonotone(reports: seq<TrafficReport>, since: int, later: int)
    requires since <= later
    ensures forall x :: x in FindRecentReports(reports, later) ==> x in FindRecentReports(reports, since)
    ensures forall x :: x in reports && x.active && x.createdAt == since ==> x in FindRecentReports(reports, since)
  {
  }

  /** countActiveReportsByUser */
  function CountActiveReportsByUser(reports: seq<TrafficReport>, user: int): nat
  {
    Count(reports, ActiveOwnedBy(user))
  }

  /** countVerifiedReportsByUser: verified reports, active or not. */
  function CountVerifiedReportsByUser(reports: seq<TrafficReport>, user: int): nat
  {
    Count(reports, VerifiedOwnedBy(user))
  }

  /** Both counts are bounded by the user's reports, and soft-deleting a verified report lowers
      the active count by one and leaves the verified count alone. */
  lemma CountsUnderSoftDelete(reports: seq<TrafficReport>, user: int, k: nat)
    requires k < |reports| && reports[k].owner == user && reports[k].active && reports[k].verified
    ensures CountActiveReportsByUser(reports, user) <= |FindByUser(reports, user)|
    ensures CountVerifiedReportsByUser(reports, user) <= |FindByUser(reports, user)|
    ensures var deleted := reports[k := reports[k].(active := false)];
            && CountActiveReportsByUser(deleted, user) == CountActiveReportsByUser(reports, user) - 1
            && CountVerifiedReportsByUser(deleted, user) == CountVerifiedReportsByUser(reports, user)
  {
    CountUpdate(reports, k, reports[k].(active := false), ActiveOwnedBy(user));
    CountUpdate(reports, k, reports[k].(active := false), VerifiedOwnedBy(user));
    CountAtMostOwned(reports, user);
  }

  lemma {:induction false} CountAtMostOwned(reports: seq<TrafficReport>, user: int)
    ensures CountActiveReportsByUser(reports, user) <= |FindByUser(reports, user)|
    ensures CountVerifiedReportsByUser(reports, user) <= |FindByUser(reports, user)|
  {
    if |reports| > 0 {
      CountAtMostOwned(reports[1..], user);
    }
  }
}
