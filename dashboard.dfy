/**
 * The dashboard routes app/api/dashboard/quick-data/route.ts,
 * app/api/dashboard/overview/route.ts and app/api/dashboard/activities/route.ts:
 * one session guard, one `getTimeAgo` (the three files carry the same
 * text, modelled once), and the formatting of what the database returned.
 * Times are milliseconds since the epoch; `nowMs` is `new Date()`.
 */
module Dashboard {
  import opened Opt
  import opened Text
  import opened Http
  import Session

  // ---------------------------------------------------------------- guard

  datatype DashReply<T> = Unauthorized | Payload(data: T)

  /** Each dashboard route: `!session || isSessionExpired(session)` answers 401 before any query. */
  function Guarded<T>(session: Option<Session.SessionData>, nowMs: int, payload: T): (r: Reply<DashReply<T>>)
    ensures r.status == 401 <==> !Session.Live(session, nowMs)
    ensures r.status == 401 ==> r == Json(401, Unauthorized)
    ensures r.status != 401 ==> r == Json(200, Payload(payload))
  {
    if session.None? || Session.IsSessionExpired(session.value, nowMs) then Json(401, Unauthorized)
    else Json(200, Payload(payload))
  }

  // ---------------------------------------------------------------- getTimeAgo

  /** `${n} ${unit}${n > 1 ? 's' : ''} ago`. */
  function Phrase(n: int, unit: string): string {
    IntToString(n) + " " + unit + (if n > 1 then "s" else "") + " ago"
  }

  /** `getTimeAgo(date)`, as the routes write it: nested floors and the first threshold met. */
  function TimeAgo(nowMs: int, dateMs: int): string {
    var diffInSeconds := (nowMs - dateMs) / 1000;
    if diffInSeconds < 60 then IntToString(diffInSeconds) + " seconds ago"
    else
      var diffInMinutes := diffInSeconds / 60;
      if diffInMinutes < 60 then Phrase(diffInMinutes, "minute")
      else
        var diffInHours := diffInMinutes / 60;
        if diffInHours < 24 then Phrase(diffInHours, "hour")
        else
          var diffInDays := diffInHours / 24;
          if diffInDays < 7 then Phrase(diffInDays, "day")
          else
            var diffInWeeks := diffInDays / 7;
            if diffInWeeks < 4 then Phrase(diffInWeeks, "week")
            else Phrase(diffInDays / 30, "month")
  }

  /** A reference reading of the same buckets, straight from the elapsed seconds. */
  datatype Ago = Seconds(n: int) | Units(n: int, unit: string)

  function AgoOf(s: int): (a: Ago)
    ensures s < 60 <==> a.Seconds?
  {
    if s < 60 then Seconds(s)
    else if s < 3600 then Units(s / 60, "minute")
    else if s < 86400 then Units(s / 3600, "hour")
    else if s < 604800 then Units(s / 86400, "day")
    else if s < 2419200 then Units(s / 604800, "week")
    else Units(s / 2592000, "month")
  }

  function Render(a: Ago): string {
    match a
    case Seconds(n) => IntToString(n) + " seconds ago"
    case Units(n, unit) => Phrase(n, unit)
  }

  /** Nested floors by 60, 60, 24 and 7 are floors by the products. */
  lemma NestedFloors(s: int)
    requires s >= 60
    ensures (s / 60) / 60 == s / 3600
    ensures (s / 3600) / 24 == s / 86400
    ensures (s / 86400) / 7 == s / 604800
  {
  }

  /** The nested floors land in the bucket of the reference: `getTimeAgo` is `Render(AgoOf(seconds))`. */
  lemma TimeAgoMatchesBuckets(nowMs: int, dateMs: int)
    ensures TimeAgo(nowMs, dateMs) == Render(AgoOf((nowMs - dateMs) / 1000))
  {
    var s := (nowMs - dateMs) / 1000;
    if s >= 60 {
      var m := s / 60;
      NestedFloors(s);
      assert m < 60 <==> s < 3600;
      assert s / 3600 < 24 <==> s < 86400;
      assert s / 86400 < 7 <==> s < 604800;
      assert s / 604800 < 4 <==> s < 2419200;
    }
  }

  /** Under a minute the seconds are always plural, even `1 seconds ago`. */
  lemma SecondsAlwaysPlural(nowMs: int)
    ensures TimeAgo(nowMs + 1000, nowMs) == "1 seconds ago"
  {
    assert (nowMs + 1000 - nowMs) / 1000 == 1;
    assert IntToString(1) == "1";
  }

  /** For a non-negative age the shown number lies in the bucket's range. */
  lemma BucketRanges(s: nat)
    ensures match AgoOf(s)
      case Seconds(n) => 0 <= n < 60
      case Units(n, unit) =>
        (unit == "minute" ==> 1 <= n <= 59) && (unit == "hour" ==> 1 <= n <= 23) &&
        (unit == "day" ==> 1 <= n <= 6) && (unit == "week" ==> 1 <= n <= 3) &&
        (unit == "month" ==> n >= 0)
  {
  }

  /** Four weeks are not yet a month of thirty days: 28 days read `0 month ago`. */
  lemma TwentyEightDays(nowMs: int)
    ensures TimeAgo(nowMs + 28 * 86400000, nowMs) == "0 month ago"
  {
    var s := 28 * 86400;
    assert (nowMs + 28 * 86400000 - nowMs) / 1000 == s;
    TimeAgoMatchesBuckets(nowMs + 28 * 86400000, nowMs);
    assert AgoOf(s) == Units(0, "month");
    assert IntToString(0) == "0";
  }

  /** For a unit other than seconds, `s` is appended exactly when the number exceeds one. */
  lemma PluralIffMoreThanOne(n: int, unit: string)
    ensures n > 1 ==> Phrase(n, unit) == IntToString(n) + " " + unit + "s ago"
    ensures n <= 1 ==> Phrase(n, unit) == IntToString(n) + " " + unit + " ago"
  {
    if n > 1 {
      assert IntToString(n) + " " + unit + "s" + " ago" == IntToString(n) + " " + unit + "s ago";
    } else {
      assert IntToString(n) + " " + unit + "" + " ago" == IntToString(n) + " " + unit + " ago";
    }
  }

  // ---------------------------------------------------------------- feature names

  /** `\b\w`: a word character not preceded by one. */
  predicate WordStart(s: string, i: nat)
    requires i < |s|
  {
    IsWordChar(s[i]) && (i == 0 || !IsWordChar(s[i - 1]))
  }

  /** `key.replace(/_/g, ' ').replace(/\b\w/g, l => l.toUpperCase())`. */
  function FeatureName(key: string): (name: string)
    ensures |name| == |key|
    ensures forall i :: 0 <= i < |name| ==> name[i] != '_'
  {
    var spaced := UnderscoresToSpaces(key);
    seq(|spaced|, i requires 0 <= i < |spaced| => if WordStart(spaced, i) then UpperChar(spaced[i]) else spaced[i])
  }

  /** A letter or digit of the key: `_` separates words once it has become a space. */
  predicate KeyAlnum(c: char) { IsWordChar(c) && c != '_' }

  /**
   * Each `_` becomes a space; a letter or digit that opens a word of the key
   * (first, or after a `_` or another non-alphanumeric) is upper-cased; every
   * other character is kept as it is.
   */
  lemma FeatureNamePointwise(key: string, i: nat)
    requires i < |key|
    ensures key[i] == '_' ==> FeatureName(key)[i] == ' '
    ensures KeyAlnum(key[i]) && (i == 0 || !KeyAlnum(key[i - 1])) ==> FeatureName(key)[i] == UpperChar(key[i])
    ensures key[i] != '_' && !(KeyAlnum(key[i]) && (i == 0 || !KeyAlnum(key[i - 1]))) ==> FeatureName(key)[i] == key[i]
  {
  }

  /** `dark_mode` is shown as `Dark Mode`. */
  lemma DarkModeName()
    ensures FeatureName("dark_mode") == "Dark Mode"
  {
    var key := "dark_mode";
    forall i | 0 <= i < |key| ensures FeatureName(key)[i] == "Dark Mode"[i] {
      FeatureNamePointwise(key, i);
    }
  }

  /** Formatting a formatted name changes nothing. */
  lemma FeatureNameIdempotent(key: string)
    ensures FeatureName(FeatureName(key)) == FeatureName(key)
  {
    var once := FeatureName(key);
    var spaced := UnderscoresToSpaces(key);
    assert UnderscoresToSpaces(once) == once;
    forall i | 0 <= i < |once|
      ensures WordStart(once, i) <==> WordStart(spaced, i)
    {
    }
  }

  datatype FeatureSetting = FeatureSetting(key: string, value: string, description: Option<string>)
  datatype Feature = Feature(name: string, enabled: bool, description: Option<string>)

  /** One entry of `features`: enabled exactly for the value `true`. */
  function FeatureOf(s: FeatureSetting): (f: Feature)
    ensures f.enabled <==> s.value == "true"
    ensures |f.name| == |s.key| && f.description == s.description
  {
    Feature(FeatureName(s.key), s.value == "true", s.description)
  }

  // ---------------------------------------------------------------- status maps

  /** A `groupBy` row: a status and how many rows have it. */
  datatype StatusCount = StatusCount(status: string, count: nat)

  /** The `reduce` as a left fold: `acc[status.toLowerCase()] = count`. */
  function TallyOf(stats: seq<StatusCount>): (m: map<string, nat>)
    ensures forall k :: 0 <= k < |stats| ==> ToLower(stats[k].status) in m
    ensures forall key :: key in m ==> exists k :: 0 <= k < |stats| && ToLower(stats[k].status) == key
  {
    if |stats| == 0 then map[]
    else
      var init := stats[..|stats| - 1];
      var last := stats[|stats| - 1];
      var m := TallyOf(init);
      assert forall k :: 0 <= k < |init| ==> init[k] == stats[k];
      m[ToLower(last.status) := last.count]
  }

  /** The `reduce` written as the loop it runs. */
  method Tally(stats: seq<StatusCount>) returns (acc: map<string, nat>)
    ensures acc == TallyOf(stats)
  {
    acc := map[];
    for i := 0 to |stats|
      invariant acc == TallyOf(stats[..i])
    {
      assert stats[..i + 1][..i] == stats[..i];
      acc := acc[ToLower(stats[i].status) := stats[i].count];
    }
    assert stats[..|stats|] == stats;
  }

  /** When the lower-cased statuses are distinct (as `groupBy` groups give), each maps to its own count. */
  lemma {:induction false} TallyCounts(stats: seq<StatusCount>, k: nat)
    requires k < |stats|
    requires forall i, j :: 0 <= i < j < |stats| ==> ToLower(stats[i].status) != ToLower(stats[j].status)
    ensures TallyOf(stats)[ToLower(stats[k].status)] == stats[k].count
    decreases |stats|
  {
    var init := stats[..|stats| - 1];
    if k < |stats| - 1 {
      assert init[k] == stats[k];
      assert forall i, j :: 0 <= i < j < |init| ==> ToLower(init[i].status) != ToLower(init[j].status) by {
        forall i, j | 0 <= i < j < |init|
          ensures ToLower(init[i].status) != ToLower(init[j].status)
        {
          assert init[i] == stats[i] && init[j] == stats[j];
        }
      }
      TallyCounts(init, k);
      assert ToLower(stats[k].status) != ToLower(stats[|stats| - 1].status);
    }
  }

  /** `groupBy(['isRead'])` rows. */
  datatype ReadCount = ReadCount(isRead: bool, count: nat)

  /** `acc[stat.isRead ? 'read' : 'unread'] = count`. */
  function ReadTally(stats: seq<ReadCount>): (m: map<string, nat>)
    ensures m.Keys <= {"read", "unread"}
    ensures forall k :: 0 <= k < |stats| ==> (if stats[k].isRead then "read" else "unread") in m
  {
    if |stats| == 0 then map[]
    else
      var last := stats[|stats| - 1];
      ReadTally(stats[..|stats| - 1])[if last.isRead then "read" else "unread" := last.count]
  }

  /**
   * A row's flag maps to its count unless a later row has the same flag;
   * with one row per flag (as `groupBy` gives) every row's count is there.
   */
  lemma {:induction false} ReadTallyCounts(stats: seq<ReadCount>, k: nat)
    requires k < |stats|
    requires forall j :: k < j < |stats| ==> stats[j].isRead != stats[k].isRead
    ensures ReadTally(stats)[if stats[k].isRead then "read" else "unread"] == stats[k].count
    decreases |stats|
  {
    var init := stats[..|stats| - 1];
    if k < |stats| - 1 {
      assert init[k] == stats[k];
      assert forall j :: k < j < |init| ==> init[j].isRead != init[k].isRead by {
        forall j | k < j < |init|
          ensures init[j].isRead != init[k].isRead
        {
          assert init[j] == stats[j];
        }
      }
      ReadTallyCounts(init, k);
      assert "read" != "unread" by { assert |"read"| != |"unread"|; }
    }
  }

  // ---------------------------------------------------------------- activity lists

  /** A row of the overview's `recentActivity` query. */
  datatype RecentItem = RecentItem(id: string, kind: string, title: string, dateMs: int)
  datatype RecentView = RecentView(id: string, kind: string, title: string, dateMs: int, timeAgo: string)

  function FormatRecent(items: seq<RecentItem>, nowMs: int): (views: seq<RecentView>)
    ensures |views| == |items|
    ensures forall k :: 0 <= k < |items| ==>
      views[k].id == items[k].id && views[k].kind == items[k].kind && views[k].title == items[k].title &&
      views[k].dateMs == items[k].dateMs && views[k].timeAgo == TimeAgo(nowMs, items[k].dateMs)
  {
    seq(|items|, k requires 0 <= k < |items| =>
      RecentView(items[k].id, items[k].kind, items[k].title, items[k].dateMs, TimeAgo(nowMs, items[k].dateMs)))
  }

  /** An `activity` row with its user. */
  datatype ActivityRow = ActivityRow(id: string, action: string, item: string, createdAtMs: int, username: string)
  datatype ActivityView = ActivityView(id: string, action: string, item: string, timeMs: int, user: string, timeAgo: string)

  /** `findMany({take: 20, orderBy: {createdAt: 'desc'}})` over rows already in that order. */
  function Fetch20(rows: seq<ActivityRow>): (fetched: seq<ActivityRow>)
    ensures |fetched| <= 20 && |fetched| <= |rows| && fetched == rows[..|fetched|]
    ensures |rows| <= 20 ==> fetched == rows
  {
    if |rows| <= 20 then rows else rows[..20]
  }

  function FormatActivities(rows: seq<ActivityRow>, nowMs: int): (views: seq<ActivityView>)
    ensures |views| == |rows|
    ensures forall k :: 0 <= k < |rows| ==>
      views[k] == ActivityView(rows[k].id, rows[k].action, rows[k].item, rows[k].createdAtMs, rows[k].username,
                               TimeAgo(nowMs, rows[k].createdAtMs))
  {
    seq(|rows|, k requires 0 <= k < |rows| =>
      ActivityView(rows[k].id, rows[k].action, rows[k].item, rows[k].createdAtMs, rows[k].username,
                   TimeAgo(nowMs, rows[k].createdAtMs)))
  }

  /** `GET /api/dashboard/activities`: at most twenty, the newest first, each with its user and age. */
  function Activities(session: Option<Session.SessionData>, nowMs: int, rows: seq<ActivityRow>)
    : (r: Reply<DashReply<seq<ActivityView>>>)
    ensures r.status == 401 <==> !Session.Live(session, nowMs)
    ensures r.status != 401 ==> r.body.Payload? && |r.body.data| <= 20 && |r.body.data| == if |rows| <= 20 then |rows| else 20
  {
    Guarded(session, nowMs, FormatActivities(Fetch20(rows), nowMs))
  }

  /** Formatting commutes with taking a prefix: the twenty shown are the first twenty formatted. */
  lemma FormatPrefix(rows: seq<ActivityRow>, nowMs: int)
    ensures FormatActivities(Fetch20(rows), nowMs) == FormatActivities(rows, nowMs)[..|Fetch20(rows)|]
  {
  }
}
