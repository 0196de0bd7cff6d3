/** The recency test and the "time ago" labels of the frontend. Timestamps are milliseconds and
    the clock reading `now` is a parameter. The minute-band formatter is written out identically
    as getTimeAgo in TrafficReportsList.jsx and temp.jsx and as formatTimeAgo in TrafficMap.jsx;
    TimeAgo models all three. Forum.jsx has its own hour-band formatter, ForumTimeAgo. */
module TimeFormat {
  import opened Text

  const MsPerMinute: nat := 60 * 1000
  const MsPerHour: nat := 60 * MsPerMinute
  const MsPerDay: nat := 24 * MsPerHour

  /** The live-display window of isRecentReport: 24 hours. */
  const RecencyWindowMs: nat := 24 * MsPerHour

  /** isRecentReport: the age in hours, (now - createdAt) / 3600000, is below 24. */
  predicate IsRecent(createdAt: int, now: int)
  {
    now - createdAt < RecencyWindowMs
  }

  /** The backend's GET /recent window: created at or after `now` minus the given hours. */
  predicate InServerWindow(createdAt: int, now: int, hours: int)
  {
    createdAt >= now - hours * MsPerHour
  }

  /** The client window is strict and the server window inclusive: with the default 24 hours
      they agree on every age except exactly 24 hours, which only the server still returns. */
  lemma RecencyWindowsAgreeExceptBoundary(createdAt: int, now: int)
    ensures IsRecent(createdAt, now) ==> InServerWindow(createdAt, now, 24)
    ensures InServerWindow(createdAt, now, 24) && !IsRecent(createdAt, now)
            <==> now - createdAt == RecencyWindowMs
  {
  }

  datatype TimeUnit = Minutes | Hours | Days

  function UnitMs(u: TimeUnit): nat
  {
    match u
    case Minutes => MsPerMinute
    case Hours => MsPerHour
    case Days => MsPerDay
  }

  function UnitSuffix(u: TimeUnit): string
  {
    match u
    case Minutes => "m ago"
    case Hours => "h ago"
    case Days => "d ago"
  }

  /** getTimeAgo / formatTimeAgo: whole minutes below an hour, whole hours below a day,
      otherwise whole days, each count rounded down (Math.floor). */
  function TimeAgo(now: int, createdAt: int): string
  {
    var diffInMinutes := (now - createdAt) / MsPerMinute;
    if diffInMinutes < 60 then IntToString(diffInMinutes) + "m ago"
    else if diffInMinutes < 1440 then IntToString(diffInMinutes / 60) + "h ago"
    else IntToString(diffInMinutes / 1440) + "d ago"
  }

  /** The unit TimeAgo picks for an age in milliseconds. */
  function MinuteBandUnit(age: int): TimeUnit
  {
    if age < MsPerHour then Minutes else if age < MsPerDay then Hours else Days
  }

  /** Whole minutes to whole hours and days, and whole hours to whole days, agree with dividing
      the milliseconds directly (floor division by positive constants composes). */
  lemma NestedFloorDivision(age: int)
    ensures (age / MsPerMinute) / 60 == age / MsPerHour
    ensures (age / MsPerMinute) / 1440 == age / MsPerDay
    ensures (age / MsPerHour) / 24 == age / MsPerDay
  {
    var m := age / 60000;
    assert 60000 * m <= age < 60000 * m + 60000;
    var h := m / 60;
    assert 60 * h <= m < 60 * h + 60;
    assert 3600000 * h <= age < 3600000 * h + 3600000;
    var d := m / 1440;
    assert 1440 * d <= m < 1440 * d + 1440;
    assert 86400000 * d <= age < 86400000 * d + 86400000;
    var d2 := h / 24;
    assert 24 * d2 <= h < 24 * d2 + 24;
    assert 86400000 * d2 <= age < 86400000 * d2 + 86400000;
  }

  /** The label names its unit by the age in milliseconds and its number is the age in that unit
      rounded down, so it never overstates how old the report is by a whole unit. The number
      reads back from the label. */
  lemma {:induction false} TimeAgoMeaning(now: int, createdAt: int)
    ensures var age := now - createdAt;
            var u := MinuteBandUnit(age);
            var n := age / UnitMs(u);
            && TimeAgo(now, createdAt) == IntToString(n) + UnitSuffix(u)
            && n * UnitMs(u) <= age < (n + 1) * UnitMs(u)
            && ParseInt(IntToString(n)) == n
  {
    var age := now - createdAt;
    NestedFloorDivision(age);
    var u := MinuteBandUnit(age);
    var n := age / UnitMs(u);
    if age < MsPerHour {
      assert u == Minutes && n == age / 60000;
      assert 60000 * n <= age < 60000 * n + 60000;
      assert TimeAgo(now, createdAt) == IntToString(n) + UnitSuffix(u);
    } else if age < MsPerDay {
      assert u == Hours && n == age / 3600000;
      assert 3600000 * n <= age < 3600000 * n + 3600000;
      assert TimeAgo(now, createdAt) == IntToString(n) + UnitSuffix(u);
    } else {
      assert u == Days && n == age / 86400000;
      assert 86400000 * n <= age < 86400000 * n + 86400000;
      assert TimeAgo(now, createdAt) == IntToString(n) + UnitSuffix(u);
    }
    IntToStringRoundTrip(n);
  }

  /** Forum.jsx formatTimeAgo: whole hours below a day, otherwise whole days, rounded down. */
  function ForumTimeAgo(now: int, createdAt: int): string
  {
    var diffInHours := (now - createdAt) / MsPerHour;
    if diffInHours < 24 then IntToString(diffInHours) + "h ago"
    else IntToString(diffInHours / 24) + "d ago"
  }

  /** The forum label: hours below a day (a post under an hour old shows "0h ago"), whole days
      from 24 hours on; the number is the age in that unit rounded down. */
  lemma {:induction false} ForumTimeAgoMeaning(now: int, createdAt: int)
    ensures var age := now - createdAt;
            var u := if age < MsPerDay then Hours else Days;
            var n := age / UnitMs(u);
            && ForumTimeAgo(now, createdAt) == IntToString(n) + UnitSuffix(u)
            && n * UnitMs(u) <= age < (n + 1) * UnitMs(u)
  {
    var age := now - createdAt;
    NestedFloorDivision(age);
    if age < MsPerDay {
      var n := age / 3600000;
      assert 3600000 * n <= age < 3600000 * n + 3600000;
    } else {
      var n := age / 86400000;
      assert 86400000 * n <= age < 86400000 * n + 86400000;
    }
  }
}
