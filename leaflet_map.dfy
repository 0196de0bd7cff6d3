/** The Leaflet map (TrafficMap.jsx): markers coloured by category and optimistic vote counters
    kept only in the page's state. */
module LeafletMap {
  import opened Entities
  import opened Tables

  datatype MarkerStyle = MarkerStyle(color: string, icon: string)

  const FallbackMarker: MarkerStyle := MarkerStyle("#607d8b", "\U{2757}")

  /** The `trafficCategories` table the markers look categories up in, keyed by lower-case id. */
  const CategoryTable: seq<(string, MarkerStyle)> := [
    ("traffic_jam", MarkerStyle("#f44336", "\U{1F697}")),
    ("accident", MarkerStyle("#ff9800", "\U{1F6A8}")),
    ("road_closed", MarkerStyle("#e91e63", "\U{1F6A7}")),
    ("flooding", MarkerStyle("#2196f3", "\U{1F30A}")),
    ("checkpoint", MarkerStyle("#9c27b0", "\U{1F46E}")),
    ("construction", MarkerStyle("#ff5722", "\U{1F528}")),
    ("other", FallbackMarker)
  ]

  /** createCategoryIcon: the colour and icon of the first table entry with that id, or
      #607d8b and the exclamation mark when none matches. */
  function CreateCategoryIcon(category: string): (m: MarkerStyle)
    ensures (forall i :: 0 <= i < |CategoryTable| ==> CategoryTable[i].0 != category) ==> m == FallbackMarker
    ensures forall i :: 0 <= i < |CategoryTable| && CategoryTable[i].0 == category ==> m == CategoryTable[i].1
  {
    match FirstIndex(CategoryTable, (e: (string, MarkerStyle)) => e.0 == category)
    case None => FallbackMarker
    case Some(i) => CategoryTable[i].1
  }

  /** The table is keyed by lower-case ids while the server sends the upper-case enum names.
      The page holds only the demo reports, whose categories are lower case; if it were seeded
      from the report API instead, every marker would get the fallback. */
  lemma ServerCategoryNamesFallBack(c: TrafficCategory)
    ensures CreateCategoryIcon(CategoryName(c)) == FallbackMarker
  {
    var name := CategoryName(c);
    forall i | 0 <= i < |CategoryTable| ensures CategoryTable[i].0 != name {
      assert CategoryTable[i].0[0] != name[0] || CategoryTable[i].0 != name;
    }
  }

  /** One optimistic vote: 'up' adds one upvote, any other type one downvote. */
  function Bump(report: TrafficReport, voteType: string): TrafficReport
  {
    if voteType == "up" then report.(upvotes := report.upvotes + 1)
    else report.(downvotes := report.downvotes + 1)
  }

  /** handleVote's `prev.map(...)`: every report with the id is bumped. */
  function BumpVote(reports: seq<TrafficReport>, reportId: int, voteType: string): (r: seq<TrafficReport>)
    ensures |r| == |reports|
  {
    seq(|reports|, i requires 0 <= i < |reports| =>
      if reports[i].id == reportId then Bump(reports[i], voteType) else reports[i])
  }

  /** Only the reports with the voted id change, each by exactly one on the voted counter and
      nowhere else; length, order and every other report are unchanged. */
  lemma BumpVoteMeaning(reports: seq<TrafficReport>, reportId: int, voteType: string)
    ensures var r := BumpVote(reports, reportId, voteType);
            forall i :: 0 <= i < |r| ==>
              if reports[i].id != reportId then r[i] == reports[i]
              else if voteType == "up" then
                r[i].upvotes == reports[i].upvotes + 1 && r[i] == reports[i].(upvotes := r[i].upvotes)
              else
                r[i].downvotes == reports[i].downvotes + 1 && r[i] == reports[i].(downvotes := r[i].downvotes)
  {
  }

  /** The map's state cell. */
  class LeafletReports {
    var reports: seq<TrafficReport>

    constructor(initial: seq<TrafficReport>)
      ensures reports == initial
    {
      reports := initial;
    }

    /** handleVote: nothing without a signed-in user; otherwise the counters are bumped locally
        and nothing is sent. */
    method HandleVote(signedIn: bool, reportId: int, voteType: string)
      modifies this
      ensures !signedIn ==> reports == old(reports)
      ensures signedIn ==> reports == BumpVote(old(reports), reportId, voteType)
    {
      if !signedIn {
        return;
      }
      reports := BumpVote(reports, reportId, voteType);
    }
  }
}
